/**
 * Miscellany/bconv.py, convert: the first 8192 bytes of a binary become a
 * PROGMEM array line for the data header and a RAMUpload call line for the
 * code header.  The file contents are a parameter and the two lines are the
 * results; opening, reading and writing the files is left to the caller.
 */
module BinConvert {
  import opened Bits
  import opened Wrappers
  import opened Text

  /** f.read(8192): at most this many bytes are converted. */
  const ReadLimit := 8192

  const DataTrailer := "};\n"
  const ExecTrailer := ");\n"

  /** The bytes f.read(8192) returns. */
  function Chunk(contents: seq<byte>): (r: seq<byte>)
    ensures |r| <= ReadLimit
    ensures |r| == if |contents| <= ReadLimit then |contents| else ReadLimit
    ensures r == contents[..|r|]
  {
    if |contents| <= ReadLimit then contents else contents[..ReadLimit]
  }

  function DataPrefix(name: string): string
  {
    "prog_uchar " + name + "[] PROGMEM = "
  }

  function ExecPrefix(name: string): string
  {
    "RAMUpload(" + name + ","
  }

  /** The braced list: "{" + ",".join(code) + "}". */
  function Code(bytes: seq<byte>): string
  {
    "{" + Join(Decimals(bytes), ',') + "}"
  }

  function DataLine(bytes: seq<byte>, name: string): string
  {
    DataPrefix(name) + Code(bytes) + ";" + "\n"
  }

  function ExecLine(name: string, size: nat, address: int): string
  {
    ExecPrefix(name) + Decimal(size) + "," + SignedDecimal(address) + ExecTrailer
  }

  /** convert: the data line and the exec line, built by the append loop of the source. */
  method Convert(contents: seq<byte>, name: string, address: int) returns (dataLine: string, execLine: string)
    ensures dataLine == DataLine(Chunk(contents), name)
    ensures execLine == ExecLine(name, |Chunk(contents)|, address)
  {
    var bytes := Chunk(contents);
    var code: seq<string> := [];
    for i := 0 to |bytes|
      invariant code == Decimals(bytes[..i])
    {
      code := code + [Decimal(bytes[i])];
    }
    assert bytes[..|bytes|] == bytes;
    var size := |code|;
    var text := "{" + Join(code, ',') + "}";
    dataLine := DataPrefix(name) + text + ";" + "\n";
    execLine := ExecPrefix(name) + Decimal(size) + "," + SignedDecimal(address) + ExecTrailer;
  }

  /** Reading the data line back: the byte values of the array. */
  function ReadDataLine(line: string, name: string): Option<seq<nat>>
  {
    match Strip(line, DataPrefix(name) + "{", DataTrailer)
    case None => None
    case Some(list) => DecodeList(list)
  }

  /** Reading the exec line back: the upload size and the load address. */
  function ReadExecLine(line: string, name: string): Option<(nat, int)>
  {
    match Strip(line, ExecPrefix(name), ExecTrailer)
    case None => None
    case Some(mid) =>
      match SplitAt(mid, ',')
      case None => None
      case Some((size, address)) =>
        if size != [] && IsDigits(size) then
          match ParseSigned(address)
          case None => None
          case Some(a) => Some((ParseDecimal(size), a))
        else None
  }

  /** The data line holds exactly the bytes f.read(8192) returned, in order. */
  lemma DataRoundTrip(contents: seq<byte>, name: string)
    ensures var e: seq<nat> := Chunk(contents); ReadDataLine(DataLine(Chunk(contents), name), name) == Some(e)
  {
    var bytes := Chunk(contents);
    var list := Join(Decimals(bytes), ',');
    DataRegroup(DataPrefix(name), list);
    StripConcat(DataPrefix(name) + "{", list, DataTrailer);
    ListRoundTrip(bytes);
  }

  lemma DataRegroup(p: string, list: string)
    ensures p + ("{" + list + "}") + ";" + "\n" == (p + "{") + list + DataTrailer
  {
    assert DataTrailer == "}" + ";" + "\n";
  }

  /** The exec line carries the number of bytes converted and the address, whatever its sign. */
  lemma ExecRoundTrip(name: string, size: nat, address: int)
    ensures ReadExecLine(ExecLine(name, size, address), name) == Some((size, address))
  {
    var digits := Decimal(size);
    var signed := SignedDecimal(address);
    var mid := digits + [','] + signed;
    ExecRegroup(ExecPrefix(name), digits, signed);
    StripConcat(ExecPrefix(name), mid, ExecTrailer);
    DigitsAvoid(digits, ',');
    SplitAtConcat(digits, ',', signed);
    DecimalRoundTrip(size);
    SignedDecimalRoundTrip(address);
  }

  lemma ExecRegroup(p: string, digits: string, signed: string)
    ensures p + digits + "," + signed + ExecTrailer == p + (digits + [','] + signed) + ExecTrailer
  {
  }

  /** What convert emits for a file: at most 8192 bytes, and the size in the exec line is
      the number of elements in the data line. */
  lemma ConvertSizes(contents: seq<byte>, name: string, address: int)
    ensures var bytes := Chunk(contents);
      && ReadDataLine(DataLine(bytes, name), name).Some?
      && |ReadDataLine(DataLine(bytes, name), name).value| <= ReadLimit
      && ReadExecLine(ExecLine(name, |bytes|, address), name)
         == Some((|ReadDataLine(DataLine(bytes, name), name).value|, address))
  {
    DataRoundTrip(contents, name);
    ExecRoundTrip(name, |Chunk(contents)|, address);
  }
}
