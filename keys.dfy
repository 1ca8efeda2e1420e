/** The "last pressed line wins" scan used by the frame key scan and the debugger. */
module Keys {
  /** Index of the highest-numbered pressed line, or -1 when no line is pressed. */
  function LastPressed(lines: seq<bool>): (r: int)
    ensures -1 <= r < |lines|
    ensures r == -1 <==> forall i :: 0 <= i < |lines| ==> !lines[i]
    ensures r >= 0 ==> lines[r] && forall j :: r < j < |lines| ==> !lines[j]
  {
    if |lines| == 0 then -1
    else if lines[|lines| - 1] then |lines| - 1
    else LastPressed(lines[..|lines| - 1])
  }
}
