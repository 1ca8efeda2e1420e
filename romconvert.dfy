/**
 * Generate/binaryconv.py, convertFile: a ROM image becomes a C array
 * declaration, with one of two single-byte patches applied to the element
 * list.  The file is read and written by the caller; here the image is a
 * byte sequence and the result is the text written to the object file.
 */
module RomConvert {
  import opened Bits
  import opened Wrappers
  import opened Text

  /** Python's IndexError when the patched element does not exist. */
  datatype ConvertError = PatchOutOfRange

  /** Fudge 1: the VIP monitor accepts RAM in units of 1 byte, not 1K (operand of SMI at $801B). */
  const VipFudge := 1
  const VipPatchIndex := 0x1C
  const VipPatchValue: byte := 1
  /** Fudge 2: the Studio 2 ROM stops waiting for B1. */
  const Studio2Fudge := 2
  const Studio2PatchIndex := 0x3E
  const Studio2PatchValue: byte := 56

  const Header := "/* GENERATED */\n\nstatic PROGMEM prog_uchar "

  /** The declaration up to the size: the header, the array name and "[". */
  function Prefix(name: string): string
  {
    Header + name + "["
  }
  const SizeClose := "] = {"
  const Trailer := "};"

  /** The element strings after the patch statements, or the IndexError they raise. */
  function Elements(bin: seq<byte>, fudge: int): Result<seq<string>, ConvertError>
  {
    var code := Decimals(bin);
    if fudge == VipFudge && VipPatchIndex >= |code| then Err(PatchOutOfRange)
    else
      var code := if fudge == VipFudge then code[VipPatchIndex := "1"] else code;
      if fudge == Studio2Fudge && Studio2PatchIndex >= |code| then Err(PatchOutOfRange)
      else
        var code := if fudge == Studio2Fudge then code[Studio2PatchIndex := "56"] else code;
        Ok(code)
  }

  /** The text convertFile writes. */
  function ConvertText(bin: seq<byte>, name: string, fudge: int): Result<string, ConvertError>
  {
    match Elements(bin, fudge)
    case Err(e) => Err(e)
    case Ok(code) => Ok(Prefix(name) + Decimal(|code|) + SizeClose + Join(code, ',') + Trailer)
  }

  /** The ROM image the emitted array holds: the input with the patched byte replaced. */
  function Patched(bin: seq<byte>, fudge: int): (p: seq<byte>)
    requires fudge == VipFudge ==> |bin| > VipPatchIndex
    requires fudge == Studio2Fudge ==> |bin| > Studio2PatchIndex
    ensures |p| == |bin|
    ensures fudge == VipFudge ==> p[VipPatchIndex] == VipPatchValue
    ensures fudge == Studio2Fudge ==> p[Studio2PatchIndex] == Studio2PatchValue
    ensures forall i :: (0 <= i < |bin| && !(fudge == VipFudge && i == VipPatchIndex)
                         && !(fudge == Studio2Fudge && i == Studio2PatchIndex)) ==> p[i] == bin[i]
  {
    if fudge == VipFudge then bin[VipPatchIndex := VipPatchValue]
    else if fudge == Studio2Fudge then bin[Studio2PatchIndex := Studio2PatchValue]
    else bin
  }

  /** convertFile, with the append loop that builds the element list. */
  method ConvertFile(bin: seq<byte>, name: string, fudge: int) returns (r: Result<string, ConvertError>)
    ensures r == ConvertText(bin, name, fudge)
  {
    var code: seq<string> := [];
    for i := 0 to |bin|
      invariant code == Decimals(bin[..i])
    {
      code := code + [Decimal(bin[i])];
    }
    assert bin[..|bin|] == bin;
    if fudge == VipFudge {
      if VipPatchIndex >= |code| {
        return Err(PatchOutOfRange);
      }
      code := code[VipPatchIndex := "1"];
    }
    if fudge == Studio2Fudge {
      if Studio2PatchIndex >= |code| {
        return Err(PatchOutOfRange);
      }
      code := code[Studio2PatchIndex := "56"];
    }
    var out := Join(code, ',');
    r := Ok(Prefix(name) + Decimal(|code|) + SizeClose + out + Trailer);
  }

  /** The patch raises IndexError exactly when the image is too short for it. */
  lemma ConvertFails(bin: seq<byte>, name: string, fudge: int)
    ensures ConvertText(bin, name, fudge).Err? <==>
      (fudge == VipFudge && |bin| <= VipPatchIndex) || (fudge == Studio2Fudge && |bin| <= Studio2PatchIndex)
  {
  }

  /** The patched element strings are the decimals of the patched image. */
  lemma ElementsArePatched(bin: seq<byte>, fudge: int)
    requires Elements(bin, fudge).Ok?
    ensures |bin| > VipPatchIndex || fudge != VipFudge
    ensures |bin| > Studio2PatchIndex || fudge != Studio2Fudge
    ensures Elements(bin, fudge).value == Decimals(Patched(bin, fudge))
  {
    PatchStrings();
    var p := Patched(bin, fudge);
    var e := Elements(bin, fudge).value;
    assert |e| == |Decimals(p)|;
    forall i | 0 <= i < |e|
      ensures e[i] == Decimals(p)[i]
    {
    }
  }

  /** The patched elements are the decimal strings of the patch values. */
  lemma PatchStrings()
    ensures Decimal(VipPatchValue) == "1"
    ensures Decimal(Studio2PatchValue) == "56"
  {
    assert Decimal(5) == "5";
    assert Decimal(56) == Decimal(5) + [DigitChar(6)];
  }

  /** Reading a declaration back: the declared size and the element values. */
  function ReadDeclaration(text: string, name: string): Option<(nat, seq<nat>)>
  {
    match Strip(text, Prefix(name), Trailer)
    case None => None
    case Some(mid) =>
      match SplitAt(mid, ']')
      case None => None
      case Some((size, rest)) =>
        match Strip(rest, " = {", "")
        case None => None
        case Some(list) =>
          if size != [] && IsDigits(size) then
            match DecodeList(list)
            case None => None
            case Some(values) => Some((ParseDecimal(size), values))
          else None
  }

  /** The generated declaration reads back as the image's length and the patched image: the
      declared size equals the number of elements, and each element is the decimal of its
      byte, except the single patched one. */
  lemma ConvertRoundTrip(bin: seq<byte>, name: string, fudge: int)
    requires ConvertText(bin, name, fudge).Ok?
    ensures |bin| > VipPatchIndex || fudge != VipFudge
    ensures |bin| > Studio2PatchIndex || fudge != Studio2Fudge
    ensures var p: seq<nat> := Patched(bin, fudge);
      ReadDeclaration(ConvertText(bin, name, fudge).value, name) == Some((|bin|, p))
  {
    ElementsArePatched(bin, fudge);
    var p := Patched(bin, fudge);
    var e: seq<nat> := p;
    assert ConvertText(bin, name, fudge).value
      == Prefix(name) + Decimal(|bin|) + SizeClose + Join(Decimals(p), ',') + Trailer;
    ReadParts(name, Decimal(|bin|), Join(Decimals(p), ','));
    DecimalRoundTrip(|bin|);
    ListRoundTrip(p);
  }

  /** A declaration splits into its size digits and its element list. */
  lemma ReadParts(name: string, size: string, list: string)
    requires size != [] && IsDigits(size)
    ensures ReadDeclaration(Prefix(name) + size + SizeClose + list + Trailer, name)
      == if DecodeList(list).Some? then Some((ParseDecimal(size), DecodeList(list).value)) else None
  {
    var rest := " = {" + list;
    var mid := size + [']'] + rest;
    var text := Prefix(name) + size + SizeClose + list + Trailer;
    assert SizeClose == [']'] + " = {";
    Regroup(Prefix(name), size, [']'], " = {", list, Trailer);
    assert text == Prefix(name) + mid + Trailer;
    StripConcat(Prefix(name), mid, Trailer);
    DigitsAvoid(size, ']');
    SplitAtConcat(size, ']', rest);
    assert rest == " = {" + list + "";
    StripConcat(" = {", list, "");
    assert Strip(text, Prefix(name), Trailer) == Some(mid);
    assert SplitAt(mid, ']') == Some((size, rest));
    assert Strip(rest, " = {", "") == Some(list);
  }

  lemma Regroup(a: string, b: string, c: string, d: string, e: string, f: string)
    ensures a + b + (c + d) + e + f == a + (b + c + (d + e)) + f
  {
  }
}
