/**
 * The frame-timing budget of CPU_Execute (cpu.c).  Every instruction costs a
 * flat two units; State 1 (the bulk of the NTSC frame) lasts 1876 units and
 * State 2 (between the display interrupt and DMA out) 29 units.
 */
module Frame {
  const ClockSpeed := 3521280 / 2
  const CyclesPerSecond := ClockSpeed / 8
  const FramesPerSecond := 60
  const LinesPerFrame := 262
  const CyclesPerFrame := CyclesPerSecond / FramesPerSecond
  const CyclesPerLine := CyclesPerFrame / LinesPerFrame
  const VisibleLines := 128
  const NonDisplayLines := LinesPerFrame - VisibleLines
  const ExecCyclesPerFrame := NonDisplayLines * CyclesPerLine
  const State1Cycles := ExecCyclesPerFrame
  const State2Cycles := 29
  /** Fetch and execute: two machine cycles, whatever the opcode. */
  const InstructionCost := 2

  /** The numbers quoted in the source comments follow from the clock divisor chain. */
  lemma DerivedConstants()
    ensures CyclesPerSecond == 220080 && CyclesPerFrame == 3668 && CyclesPerLine == 14
    ensures NonDisplayLines == 134 && State1Cycles == 1876
  {
  }

  /** The State byte and the INT16 Cycles counter. */
  datatype Timing = Timing(state: int, cycles: int)

  function Budget(state: int): int
  {
    if state == 1 then State1Cycles else State2Cycles
  }

  function Other(state: int): int
  {
    if state == 1 then 2 else 1
  }

  /** Between calls: one of the two states, counter within that state's budget
      (so the INT16 counter never wraps). */
  predicate Valid(t: Timing)
  {
    (t.state == 1 || t.state == 2) && 0 <= t.cycles <= Budget(t.state)
  }

  /** After the opcode: switch when the counter has gone negative, reload it with the
      new state's budget less one, and report the new state; otherwise report 0. */
  function Expire(t: Timing): (r: (Timing, int))
    requires t.state == 1 || t.state == 2
  {
    if t.cycles >= 0 then (t, 0)
    else
      var s := Other(t.state);
      (Timing(s, Budget(s) - 1), s)
  }

  /** One call of CPU_Execute as far as timing goes: charge, then test for a switch. */
  function Tick(t: Timing): (r: (Timing, int))
    requires Valid(t)
    ensures Valid(r.0)
    ensures r.1 == 0 <==> t.cycles >= InstructionCost
    ensures r.1 == 0 ==> r.0 == Timing(t.state, t.cycles - InstructionCost)
    ensures r.1 != 0 ==> r.1 == r.0.state != t.state && r.0.cycles == Budget(r.0.state) - 1
  {
    Expire(Timing(t.state, t.cycles - InstructionCost))
  }

  /** The timing after n calls, and the values those n calls return. */
  function Run(t: Timing, n: nat): Timing
    requires Valid(t)
    ensures Valid(Run(t, n))
    decreases n
  {
    if n == 0 then t else Run(Tick(t).0, n - 1)
  }

  function Trace(t: Timing, n: nat): (r: seq<int>)
    requires Valid(t)
    ensures |r| == n
    decreases n
  {
    if n == 0 then [] else [Tick(t).1] + Trace(Tick(t).0, n - 1)
  }

  /** Running a + b calls is running a calls, then b more. */
  lemma {:induction false} TraceSplit(t: Timing, a: nat, b: nat)
    requires Valid(t)
    ensures Run(t, a + b) == Run(Run(t, a), b)
    ensures Trace(t, a + b) == Trace(t, a) + Trace(Run(t, a), b)
    decreases a
  {
    if a > 0 {
      TraceSplit(Tick(t).0, a - 1, b);
    }
  }

  /** While the budget lasts, calls return 0 and take two units each. */
  lemma {:induction false} Quiet(t: Timing, k: nat)
    requires Valid(t) && 2 * k <= t.cycles
    ensures Run(t, k) == Timing(t.state, t.cycles - 2 * k)
    ensures forall j :: 0 <= j < k ==> Trace(t, k)[j] == 0
    decreases k
  {
    if k > 0 {
      Quiet(Tick(t).0, k - 1);
    }
  }

  /** From any timing, the next switch comes on call number cycles/2 + 1 exactly; the
      calls before it return 0 and that call returns the other state. */
  lemma SwitchAfterBudget(t: Timing)
    requires Valid(t)
    ensures var k := t.cycles / 2 + 1;
      && (forall j :: 0 <= j < k - 1 ==> Trace(t, k)[j] == 0)
      && Trace(t, k)[k - 1] == Other(t.state)
      && Run(t, k) == Timing(Other(t.state), Budget(Other(t.state)) - 1)
  {
    var k := t.cycles / 2;
    assert 0 <= t.cycles - 2 * k < InstructionCost;
    Quiet(t, k);
    TraceSplit(t, k, 1);
    var u := Run(t, k);
    assert Trace(u, 1) == [Tick(u).1] && Run(u, 1) == Tick(u).0;
    assert Tick(u).1 == Other(t.state);
    var trace := Trace(t, k + 1);
    assert trace == Trace(t, k) + [Other(t.state)];
    assert forall j :: 0 <= j < k ==> trace[j] == Trace(t, k)[j];
  }

  /** The steady frame: after a switch into State 1 (t is then State 1 with 1875 left)
      the next switch, to State 2, is the 938th call and the one back to State 1 the
      953rd, after which the pattern repeats.  These are 1906 units, one more than
      1876 + 29, because the odd 29-unit budget is spent in whole two-unit instructions. */
  lemma SteadyFrame(t: Timing)
    requires t == Timing(1, State1Cycles - 1)
    ensures Valid(t) && Run(t, 953) == t
    ensures forall j :: 0 <= j < 953 && j != 937 && j != 952 ==> Trace(t, 953)[j] == 0
    ensures Trace(t, 953)[937] == 2 && Trace(t, 953)[952] == 1
  {
    DerivedConstants();
    assert t.cycles / 2 + 1 == 938;
    SwitchAfterBudget(t);
    var u := Run(t, 938);
    assert u == Timing(2, 28);
    assert u.cycles / 2 + 1 == 15;
    SwitchAfterBudget(u);
    TraceSplit(t, 938, 15);
    var a, b := Trace(t, 938), Trace(u, 15);
    assert Trace(t, 953) == a + b;
    forall j | 0 <= j < 953 && j != 937 && j != 952
      ensures Trace(t, 953)[j] == 0
    {
      if j < 938 { assert Trace(t, 953)[j] == a[j]; } else { assert Trace(t, 953)[j] == b[j - 938]; }
    }
    assert Trace(t, 953)[952] == b[14];
  }

  /** After CPU_Reset (State 1 with the full 1876) the first switch is the 939th call,
      one call later than in the steady frame. */
  lemma FirstFrameAfterReset(t: Timing)
    requires t == Timing(1, State1Cycles)
    ensures Valid(t)
    ensures forall j :: 0 <= j < 938 ==> Trace(t, 939)[j] == 0
    ensures Trace(t, 939)[938] == 2
  {
    DerivedConstants();
    assert t.cycles / 2 + 1 == 939;
    SwitchAfterBudget(t);
  }

  /** Calls left until CPU_Execute next returns 1 (the end of State 2). */
  function CallsToFrameEnd(t: Timing): nat
    requires Valid(t)
  {
    if t.state == 2 then t.cycles / 2 + 1 else t.cycles / 2 + 1 + (State2Cycles - 1) / 2 + 1
  }

  /** Every call that does not return 1 brings the end of the frame one call closer
      (the run loop of the debugger terminates). */
  lemma FrameEndApproaches(t: Timing)
    requires Valid(t) && Tick(t).1 != 1
    ensures CallsToFrameEnd(Tick(t).0) == CallsToFrameEnd(t) - 1
  {
  }
}
