/**
 * The upload serialiser of transmit.py: SerialFileWriter over a connector that
 * records every character it is asked to send.  Module Framing defines the
 * character stream an upload produces and a decoder for it; the classes in
 * module Transmit are proved to emit exactly that stream.
 */
module Framing {
  import opened Bits
  import opened Wrappers

  /** self.hex. */
  const HexDigits := "0123456789ABCDEF"

  /** A character of HexDigits. */
  predicate IsHex(c: char)
  {
    '0' <= c <= '9' || 'A' <= c <= 'F'
  }

  /** _writeByte: two upper-case hex digits, high nibble first. */
  function HexPair(b: byte): (s: string)
    ensures |s| == 2 && IsHex(s[0]) && IsHex(s[1])
  {
    [HexDigits[b / 16], HexDigits[b % 16]]
  }

  /** The checksum write keeps: (checksum + data) % 256 after each byte. */
  function Checksum(bytes: seq<byte>): byte
    decreases |bytes|
  {
    if bytes == [] then 0 else (Checksum(bytes[..|bytes| - 1]) + bytes[|bytes| - 1]) % 256
  }

  function Sum(bytes: seq<byte>): nat
    decreases |bytes|
  {
    if bytes == [] then 0 else Sum(bytes[..|bytes| - 1]) + bytes[|bytes| - 1]
  }

  /** The running checksum is the byte sum modulo 256. */
  lemma {:induction false} ChecksumIsSum(bytes: seq<byte>)
    ensures Checksum(bytes) == Sum(bytes) % 256
    decreases |bytes|
  {
    if bytes != [] {
      var init := bytes[..|bytes| - 1];
      var last := bytes[|bytes| - 1];
      ChecksumIsSum(init);
      var q := Sum(init) / 256;
      assert Sum(bytes) == Checksum(init) + last + 256 * q;
      ModShift(Checksum(init) + last, 256, q);
    }
  }

  /** What write(d) sends for each byte: its hex pair, then "+". */
  function Body(bytes: seq<byte>): (s: string)
    ensures |s| == 3 * |bytes|
    decreases |bytes|
  {
    if bytes == [] then "" else Body(bytes[..|bytes| - 1]) + HexPair(bytes[|bytes| - 1]) + "+"
  }

  /** open, write of every byte, close: "@", the body, the checksum pair, "=". */
  function Upload(bytes: seq<byte>): string
  {
    "@" + Body(bytes) + HexPair(Checksum(bytes)) + "="
  }

  // ---- The receiving side ---------------------------------------------------------

  function DigitValue(c: char): (n: nibble)
    requires IsHex(c)
    ensures HexDigits[n] == c
  {
    if c <= '9' then c as int - '0' as int else c as int - 'A' as int + 10
  }

  function DecodePair(a: char, b: char): (r: byte)
    requires IsHex(a) && IsHex(b)
  {
    DigitValue(a) * 16 + DigitValue(b)
  }

  /** A hex pair decodes to the byte it was made from. */
  lemma HexPairRoundTrip(b: byte)
    ensures DecodePair(HexPair(b)[0], HexPair(b)[1]) == b
  {
    var s := HexPair(b);
    assert DigitValue(s[0]) == b / 16 && DigitValue(s[1]) == b % 16 by {
      forall n: nibble ensures DigitValue(HexDigits[n]) == n { }
    }
  }

  /** Decoding of a body: groups of two hex digits and a "+". */
  function DecodeBody(s: string): Option<seq<byte>>
    decreases |s|
  {
    if s == [] then Some([])
    else if |s| >= 3 && s[|s| - 1] == '+' && IsHex(s[|s| - 3]) && IsHex(s[|s| - 2]) then
      match DecodeBody(s[..|s| - 3])
      case None => None
      case Some(init) => Some(init + [DecodePair(s[|s| - 3], s[|s| - 2])])
    else None
  }

  /** The hex pair before each "+" gives back the bytes written, in order. */
  lemma {:induction false} BodyRoundTrip(bytes: seq<byte>)
    ensures DecodeBody(Body(bytes)) == Some(bytes)
    decreases |bytes|
  {
    if bytes != [] {
      var init := bytes[..|bytes| - 1];
      var last := bytes[|bytes| - 1];
      var h := HexPair(last);
      BodySnoc(init, last);
      assert init + [last] == bytes;
      DecodeBodySnoc(Body(init), h[0], h[1]);
      BodyRoundTrip(init);
      HexPairRoundTrip(last);
    }
  }

  lemma BodySnoc(init: seq<byte>, last: byte)
    ensures Body(init + [last]) == Body(init) + [HexPair(last)[0], HexPair(last)[1], '+']
  {
    var bytes := init + [last];
    assert bytes[..|bytes| - 1] == init;
    var h := HexPair(last);
    assert h == [h[0], h[1]];
    assert h + "+" == [h[0], h[1], '+'];
  }

  /** One more group at the end of a body decodes to one more byte. */
  lemma DecodeBodySnoc(t: string, a: char, b: char)
    requires IsHex(a) && IsHex(b)
    ensures DecodeBody(t + [a, b, '+']) ==
      match DecodeBody(t)
      case None => None
      case Some(init) => Some(init + [DecodePair(a, b)])
  {
    var s := t + [a, b, '+'];
    assert s[..|s| - 3] == t;
    assert s[|s| - 3] == a && s[|s| - 2] == b && s[|s| - 1] == '+';
  }

  /** The receiver: check the framing and the checksum, give the bytes. */
  function DecodeUpload(s: string): Option<seq<byte>>
  {
    if |s| >= 4 && s[0] == '@' && s[|s| - 1] == '=' && IsHex(s[|s| - 3]) && IsHex(s[|s| - 2]) then
      match DecodeBody(s[1..|s| - 3])
      case None => None
      case Some(bytes) =>
        if DecodePair(s[|s| - 3], s[|s| - 2]) == Checksum(bytes) then Some(bytes) else None
    else None
  }

  /** A framed transfer: the body between "@" and the checksum pair and "=". */
  lemma DecodeFramed(t: string, a: char, b: char)
    requires IsHex(a) && IsHex(b)
    ensures DecodeUpload("@" + t + [a, b, '=']) ==
      match DecodeBody(t)
      case None => None
      case Some(bytes) => if DecodePair(a, b) == Checksum(bytes) then Some(bytes) else None
  {
    var s := "@" + t + [a, b, '='];
    assert s[1..|s| - 3] == t;
    assert s[0] == '@' && s[|s| - 3] == a && s[|s| - 2] == b && s[|s| - 1] == '=';
  }

  /** A whole upload decodes, checksum included, to the bytes sent. */
  lemma UploadRoundTrip(bytes: seq<byte>)
    ensures DecodeUpload(Upload(bytes)) == Some(bytes)
  {
    var c := HexPair(Checksum(bytes));
    assert Upload(bytes) == "@" + Body(bytes) + [c[0], c[1], '='];
    DecodeFramed(Body(bytes), c[0], c[1]);
    BodyRoundTrip(bytes);
    HexPairRoundTrip(Checksum(bytes));
  }

  /** A transfer whose checksum pair was changed in transit is refused. */
  lemma UploadDetectsBadChecksum(bytes: seq<byte>, c: byte)
    requires c != Checksum(bytes)
    ensures DecodeUpload("@" + Body(bytes) + HexPair(c) + "=") == None
  {
    var h := HexPair(c);
    assert "@" + Body(bytes) + h + "=" == "@" + Body(bytes) + [h[0], h[1], '='];
    DecodeFramed(Body(bytes), h[0], h[1]);
    BodyRoundTrip(bytes);
    HexPairRoundTrip(c);
  }
}

module Transmit {
  import opened Bits
  import opened Wrappers
  import opened Framing

  /** The exceptions the script can raise. */
  datatype Failure =
    | OneCharacterOnly  // transmit of a string whose length is not 1
    | DataOutOfRange    // write of a value outside 0..255
    | NotOpen           // write or close before open: self.checksum does not exist yet

  /** The character collector that can stand in for SerialConnector. */
  class RecordingConnector {
    var sent: string
    var closed: bool

    constructor ()
      ensures sent == [] && !closed
    {
      sent := [];
      closed := false;
    }

    /** transmit: exactly one character is sent, anything else raises. */
    method Transmit(character: string) returns (r: Option<Failure>)
      modifies this`sent
      ensures |character| == 1 ==> r == None && sent == old(sent) + character
      ensures |character| != 1 ==> r == Some(OneCharacterOnly) && sent == old(sent)
    {
      if |character| != 1 {
        return Some(OneCharacterOnly);
      }
      sent := sent + character;
      return None;
    }

    method Close()
      modifies this`closed
      ensures closed
    {
      closed := true;
    }
  }

  class SerialFileWriter {
    const connector: RecordingConnector
    /** self.checksum; None until open is first called. */
    var checksum: Option<byte>
    /** The bytes written since the last open. */
    ghost var written: seq<byte>

    ghost predicate Valid()
      reads this
    {
      checksum.None? ==> written == []
    }

    /** The running checksum of an open writer is that of the bytes written since open. */
    ghost predicate Tracks()
      reads this
    {
      checksum == Some(Checksum(written))
    }

    constructor (connector: RecordingConnector)
      ensures Valid() && this.connector == connector && checksum == None && written == []
    {
      this.connector := connector;
      checksum := None;
      written := [];
    }

    /** open: zero the checksum and send "@". */
    method Open()
      modifies this, connector`sent
      ensures Valid() && Tracks() && written == []
      ensures connector.sent == old(connector.sent) + "@"
    {
      checksum := Some(0);
      written := [];
      var ignored := connector.Transmit("@");
    }

    /** _writeByte. */
    method WriteByte(byteData: byte)
      modifies connector`sent
      ensures connector.sent == old(connector.sent) + HexPair(byteData)
    {
      var ignored := connector.Transmit([HexDigits[byteData / 16]]);
      ignored := connector.Transmit([HexDigits[byteData % 16]]);
    }

    /** write: a range check, then the checksum update, the hex pair and "+". */
    method Write(data: int) returns (r: Option<Failure>)
      requires Valid()
      modifies this, connector`sent
      ensures Valid()
      ensures (data < 0 || data > 255) ==> r == Some(DataOutOfRange)
      ensures 0 <= data <= 255 && old(checksum).None? ==> r == Some(NotOpen)
      ensures r.Some? ==> connector.sent == old(connector.sent) && checksum == old(checksum) && written == old(written)
      ensures 0 <= data <= 255 && old(checksum).Some? ==> r.None?
      ensures r.None? ==> (0 <= data <= 255 && old(checksum).Some? &&
        checksum == Some((old(checksum).value + data) % 256) && written == old(written) + [data] &&
        connector.sent == old(connector.sent) + HexPair(data) + "+")
      ensures old(Tracks()) && r.None? ==> Tracks()
    {
      if data < 0 || data > 255 {
        return Some(DataOutOfRange);
      }
      if checksum.None? {
        return Some(NotOpen);
      }
      checksum := Some((checksum.value + data) % 256);
      written := written + [data];
      assert written[..|written| - 1] == old(written);
      WriteByte(data);
      var ignored := connector.Transmit("+");
      return None;
    }

    /** The loop of writeFile over the bytes read (at most 8192). */
    method WriteFile(contents: seq<byte>)
      requires Valid() && Tracks()
      modifies this, connector`sent
      ensures Valid() && Tracks()
      ensures written == old(written) + FileBytes(contents)
      ensures connector.sent == old(connector.sent) + Body(FileBytes(contents))
    {
      var bytes := FileBytes(contents);  // f.read(8192)
      ghost var sent0 := connector.sent;
      ghost var written0 := written;
      for i := 0 to |bytes|
        invariant Valid() && Tracks()
        invariant written == written0 + bytes[..i]
        invariant connector.sent == sent0 + Body(bytes[..i])
      {
        var ignored := Write(bytes[i]);
        assert ignored.None?;
        BodyStep(bytes, i);
        Regroup(sent0, Body(bytes[..i]), HexPair(bytes[i]), "+");
        assert bytes[..i + 1] == bytes[..i] + [bytes[i]];
        Associate(written0, bytes[..i], [bytes[i]]);
      }
      assert bytes[..|bytes|] == bytes;
    }

    /** close: the checksum pair, then "=". */
    method Close() returns (r: Option<Failure>)
      requires Valid()
      modifies connector`sent
      ensures old(checksum).None? ==> r == Some(NotOpen) && connector.sent == old(connector.sent)
      ensures old(checksum).Some? ==> (r == None &&
        connector.sent == old(connector.sent) + HexPair(checksum.value) + "=")
    {
      if checksum.None? {
        return Some(NotOpen);
      }
      WriteByte(checksum.value);
      var ignored := connector.Transmit("=");
      return None;
    }

    /** terminate: "$", then close the connector. */
    method Terminate()
      modifies connector
      ensures connector.sent == old(connector.sent) + "$" && connector.closed
    {
      var ignored := connector.Transmit("$");
      connector.Close();
    }
  }

  /** At most 8192 bytes of a file are sent (f.read(8192)). */
  function FileBytes(contents: seq<byte>): (r: seq<byte>)
    ensures |r| <= 8192 && |r| <= |contents| && r == contents[..|r|]
    ensures |contents| <= 8192 ==> r == contents
  {
    if |contents| <= 8192 then contents else contents[..8192]
  }

  /** The bytes of the files in turn. */
  function AllBytes(files: seq<seq<byte>>): seq<byte>
    decreases |files|
  {
    if files == [] then [] else AllBytes(files[..|files| - 1]) + FileBytes(files[|files| - 1])
  }

  /** The loop of the script over its file arguments. */
  method WriteFiles(writer: SerialFileWriter, files: seq<seq<byte>>)
    requires writer.Valid() && writer.Tracks() && writer.written == []
    modifies writer, writer.connector`sent
    ensures writer.Valid() && writer.Tracks() && writer.written == AllBytes(files)
    ensures writer.connector.sent == old(writer.connector.sent) + Body(AllBytes(files))
  {
    ghost var sent0 := writer.connector.sent;
    for k := 0 to |files|
      invariant writer.Valid() && writer.Tracks() && writer.written == AllBytes(files[..k])
      invariant writer.connector.sent == sent0 + Body(AllBytes(files[..k]))
    {
      ghost var before := AllBytes(files[..k]);
      writer.WriteFile(files[k]);
      BodyAppend(before, FileBytes(files[k]));
      AllBytesStep(files, k);
      Associate(sent0, Body(before), Body(FileBytes(files[k])));
    }
    assert files[..|files|] == files;
  }

  /** The script's main line: open, write each file, close, terminate.  The stream is
      one upload of all the files' bytes followed by "$". */
  method Send(writer: SerialFileWriter, files: seq<seq<byte>>)
    requires writer.Valid()
    modifies writer, writer.connector
    ensures writer.connector.sent == old(writer.connector.sent) + Upload(AllBytes(files)) + "$"
    ensures writer.connector.closed
  {
    ghost var sent0 := writer.connector.sent;
    writer.Open();
    WriteFiles(writer, files);
    ghost var bytes := AllBytes(files);
    assert writer.connector.sent == sent0 + "@" + Body(bytes);
    var ignored := writer.Close();
    assert writer.connector.sent == sent0 + "@" + Body(bytes) + HexPair(Checksum(bytes)) + "=";
    writer.Terminate();
    UploadStream(sent0, bytes);
  }

  lemma UploadStream(s0: string, bytes: seq<byte>)
    ensures s0 + "@" + Body(bytes) + HexPair(Checksum(bytes)) + "=" + "$" == s0 + Upload(bytes) + "$"
  {
    Regroup(s0, "@", Body(bytes), HexPair(Checksum(bytes)));
    Regroup(s0, "@" + Body(bytes), HexPair(Checksum(bytes)), "=");
    Regroup(s0, "@" + Body(bytes) + HexPair(Checksum(bytes)), "=", []);
  }

  lemma Associate<T>(a: seq<T>, b: seq<T>, c: seq<T>)
    ensures a + b + c == a + (b + c)
  {
  }

  lemma Regroup(a: string, b: string, c: string, d: string)
    ensures a + b + c + d == a + (b + c + d)
  {
  }

  /** One more byte of a file adds one more group to the body. */
  lemma BodyStep(bytes: seq<byte>, i: nat)
    requires i < |bytes|
    ensures Body(bytes[..i + 1]) == Body(bytes[..i]) + HexPair(bytes[i]) + "+"
  {
    assert bytes[..i + 1][..i] == bytes[..i];
  }

  lemma AllBytesStep(files: seq<seq<byte>>, k: nat)
    requires k < |files|
    ensures AllBytes(files[..k + 1]) == AllBytes(files[..k]) + FileBytes(files[k])
  {
    assert files[..k + 1][..k] == files[..k];
  }

  lemma {:induction false} BodyAppend(a: seq<byte>, b: seq<byte>)
    ensures Body(a + b) == Body(a) + Body(b)
    decreases |b|
  {
    if b != [] {
      var b' := b[..|b| - 1];
      assert (a + b)[..|a + b| - 1] == a + b';
      assert (a + b)[|a + b| - 1] == b[|b| - 1];
      BodyAppend(a, b');
    } else {
      assert a + b == a;
    }
  }
}
