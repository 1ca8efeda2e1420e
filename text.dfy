/**
 * The text the converter scripts build: Python's str() of an integer and
 * ",".join of a list, each with the reading that undoes it.
 */
module Text {
  import opened Bits
  import opened Wrappers

  predicate IsDigit(c: char)
  {
    '0' <= c <= '9'
  }

  predicate IsDigits(s: string)
  {
    forall i :: 0 <= i < |s| ==> IsDigit(s[i])
  }

  function DigitChar(d: int): (c: char)
    requires 0 <= d < 10
    ensures IsDigit(c)
  {
    ('0' as int + d) as char
  }

  /** str(n) for n >= 0: decimal digits without leading zeros. */
  function Decimal(n: nat): (s: string)
    ensures |s| >= 1 && IsDigits(s)
    ensures |s| == 1 || s[0] != '0'
    decreases n
  {
    if n < 10 then [DigitChar(n)] else Decimal(n / 10) + [DigitChar(n % 10)]
  }

  /** str(i) for any integer. */
  function SignedDecimal(i: int): (s: string)
  {
    if i < 0 then "-" + Decimal(-i) else Decimal(i)
  }

  function ParseDecimal(s: string): nat
    requires IsDigits(s)
    decreases |s|
  {
    if s == [] then 0 else ParseDecimal(s[..|s| - 1]) * 10 + (s[|s| - 1] as int - '0' as int)
  }

  function ParseSigned(s: string): Option<int>
  {
    if |s| >= 2 && s[0] == '-' && IsDigits(s[1..]) then
      var magnitude: int := ParseDecimal(s[1..]);
      Some(-magnitude)
    else if |s| >= 1 && IsDigits(s) then Some(ParseDecimal(s))
    else None
  }

  lemma {:induction false} DecimalRoundTrip(n: nat)
    ensures ParseDecimal(Decimal(n)) == n
    decreases n
  {
    if n >= 10 {
      var s := Decimal(n);
      assert s[..|s| - 1] == Decimal(n / 10);
      DecimalRoundTrip(n / 10);
    }
  }

  lemma SignedDecimalRoundTrip(i: int)
    ensures ParseSigned(SignedDecimal(i)) == Some(i)
  {
    if i < 0 {
      var d := Decimal(-i);
      var s := "-" + d;
      assert SignedDecimal(i) == s;
      assert |s| >= 2 && s[0] == '-' && s[1..] == d;
      DecimalRoundTrip(-i);
      var v: int := ParseDecimal(d);
      assert v == -i;
      assert ParseSigned(s) == Some(-v);
    } else {
      var d := Decimal(i);
      assert IsDigit(d[0]);
      DecimalRoundTrip(i);
      assert ParseSigned(d) == Some(ParseDecimal(d));
    }
  }

  /** sep.join(parts). */
  function Join(parts: seq<string>, sep: char): string
    decreases |parts|
  {
    if parts == [] then ""
    else if |parts| == 1 then parts[0]
    else Join(parts[..|parts| - 1], sep) + [sep] + parts[|parts| - 1]
  }

  function LastIndex(s: string, c: char): (r: int)
    ensures -1 <= r < |s|
    ensures r == -1 ==> c !in s
    ensures r >= 0 ==> s[r] == c && c !in s[r + 1..]
    decreases |s|
  {
    if s == [] then -1
    else if s[|s| - 1] == c then |s| - 1
    else
      var r := LastIndex(s[..|s| - 1], c);
      assert r >= 0 ==> s[r + 1..] == s[..|s| - 1][r + 1..] + [s[|s| - 1]];
      r
  }

  /** s.split(sep). */
  function Split(s: string, sep: char): (r: seq<string>)
    ensures |r| >= 1
    decreases |s|
  {
    var k := LastIndex(s, sep);
    if k == -1 then [s] else Split(s[..k], sep) + [s[k + 1..]]
  }

  lemma {:induction false} LastIndexAfter(a: string, c: char, b: string)
    requires c !in b
    ensures LastIndex(a + [c] + b, c) == |a|
    decreases |b|
  {
    var s := a + [c] + b;
    if b != [] {
      assert s[|s| - 1] == b[|b| - 1];
      assert s[..|s| - 1] == a + [c] + b[..|b| - 1];
      LastIndexAfter(a, c, b[..|b| - 1]);
    }
  }

  /** A part that does not contain the separator. */
  predicate Free(p: string, sep: char)
  {
    sep !in p
  }

  lemma SplitLast(a: string, sep: char, b: string)
    requires sep !in b
    ensures Split(a + [sep] + b, sep) == Split(a, sep) + [b]
  {
    var s := a + [sep] + b;
    LastIndexAfter(a, sep, b);
    assert s[..|a|] == a;
    assert s[|a| + 1..] == b;
  }

  /** Split undoes Join when no part holds the separator. */
  lemma {:induction false} SplitJoin(parts: seq<string>, sep: char)
    requires parts != [] && forall i :: 0 <= i < |parts| ==> Free(parts[i], sep)
    ensures Split(Join(parts, sep), sep) == parts
    decreases |parts|
  {
    if |parts| == 1 {
      SplitSingle(parts[0], sep);
    } else {
      var init := parts[..|parts| - 1];
      assert forall i :: 0 <= i < |init| ==> Free(init[i], sep) by {
        forall i | 0 <= i < |init| ensures Free(init[i], sep) { assert init[i] == parts[i]; }
      }
      SplitJoin(init, sep);
      SplitJoinStep(init, parts[|parts| - 1], sep);
      assert init + [parts[|parts| - 1]] == parts;
    }
  }

  lemma SplitSingle(p: string, sep: char)
    requires Free(p, sep)
    ensures Split(Join([p], sep), sep) == [p]
  {
    assert LastIndex(p, sep) == -1;
  }

  /** Appending one separator-free part to a joined list appends it to the split. */
  lemma SplitJoinStep(init: seq<string>, last: string, sep: char)
    requires init != [] && Split(Join(init, sep), sep) == init && Free(last, sep)
    ensures Split(Join(init + [last], sep), sep) == init + [last]
  {
    var parts := init + [last];
    assert parts[..|parts| - 1] == init;
    assert Join(parts, sep) == Join(init, sep) + [sep] + last;
    SplitLast(Join(init, sep), sep, last);
  }

  /** The decimal strings of a byte list: [str(b) for b in bytes]. */
  function Decimals(bytes: seq<byte>): (r: seq<string>)
    ensures |r| == |bytes| && forall i :: 0 <= i < |bytes| ==> r[i] == Decimal(bytes[i])
    ensures forall i :: 0 <= i < |r| ==> r[i] != [] && IsDigits(r[i])
  {
    seq(|bytes|, i requires 0 <= i < |bytes| => Decimal(bytes[i]))
  }

  /** Reading a comma-separated list of decimal numbers back. */
  function DecodeList(s: string): (r: Option<seq<nat>>)
  {
    if s == [] then Some([])
    else
      var parts := Split(s, ',');
      if forall i :: 0 <= i < |parts| ==> parts[i] != [] && IsDigits(parts[i])
      then Some(ParseAll(parts))
      else None
  }

  function ParseAll(parts: seq<string>): (r: seq<nat>)
    requires forall i :: 0 <= i < |parts| ==> parts[i] != [] && IsDigits(parts[i])
    ensures |r| == |parts| && forall i :: 0 <= i < |parts| ==> r[i] == ParseDecimal(parts[i])
  {
    seq(|parts|, i requires 0 <= i < |parts| => ParseDecimal(parts[i]))
  }

  /** The joined decimals of a byte list read back as that list. */
  lemma ListRoundTrip(bytes: seq<byte>)
    ensures var e: seq<nat> := bytes; DecodeList(Join(Decimals(bytes), ',')) == Some(e)
  {
    if bytes != [] {
      var parts := Decimals(bytes);
      DecimalsSplit(bytes);
      JoinNonEmpty(parts, ',');
      DecodeParts(Join(parts, ','), parts);
      ParseDecimals(bytes);
    }
  }

  lemma ParseDecimals(bytes: seq<byte>)
    ensures var e: seq<nat> := bytes; ParseAll(Decimals(bytes)) == e
  {
    var e: seq<nat> := bytes;
    var parts := Decimals(bytes);
    forall i | 0 <= i < |parts|
      ensures ParseDecimal(parts[i]) == e[i]
    {
      DecimalRoundTrip(bytes[i]);
    }
  }

  /** The decimal strings contain no comma, so splitting their join gives them back. */
  lemma DecimalsSplit(bytes: seq<byte>)
    requires bytes != []
    ensures Split(Join(Decimals(bytes), ','), ',') == Decimals(bytes)
  {
    var parts := Decimals(bytes);
    forall i | 0 <= i < |parts|
      ensures Free(parts[i], ',')
    {
      assert IsDigits(parts[i]);
    }
    SplitJoin(parts, ',');
  }

  lemma DecodeParts(s: string, parts: seq<string>)
    requires s != [] && Split(s, ',') == parts
    requires forall i :: 0 <= i < |parts| ==> parts[i] != [] && IsDigits(parts[i])
    ensures DecodeList(s) == Some(ParseAll(parts))
  {
  }

  lemma JoinNonEmpty(parts: seq<string>, sep: char)
    requires parts != [] && parts[|parts| - 1] != []
    ensures Join(parts, sep) != []
  {
  }

  // ---- Reading the generated lines back -------------------------------------------

  function FirstIndex(s: string, c: char): (r: int)
    ensures -1 <= r < |s|
    ensures r == -1 ==> c !in s
    ensures r >= 0 ==> s[r] == c && c !in s[..r]
    decreases |s|
  {
    if s == [] then -1
    else if s[0] == c then 0
    else
      var r := FirstIndex(s[1..], c);
      assert r >= 0 ==> s[..r + 1] == [s[0]] + s[1..][..r];
      if r == -1 then -1 else r + 1
  }

  /** The text on either side of the first c. */
  function SplitAt(s: string, c: char): (r: Option<(string, string)>)
    ensures r.Some? ==> c !in r.value.0 && s == r.value.0 + [c] + r.value.1
    ensures r.None? <==> c !in s
  {
    var k := FirstIndex(s, c);
    if k == -1 then None else Some((s[..k], s[k + 1..]))
  }

  /** The middle of s, if s starts with pre and ends with post. */
  function Strip(s: string, pre: string, post: string): (r: Option<string>)
    ensures r.Some? ==> s == pre + r.value + post
  {
    if |s| >= |pre| + |post| && s[..|pre|] == pre && s[|s| - |post|..] == post
    then Some(s[|pre|..|s| - |post|])
    else None
  }

  lemma SplitAtConcat(a: string, c: char, b: string)
    requires c !in a
    ensures SplitAt(a + [c] + b, c) == Some((a, b))
  {
    var s := a + [c] + b;
    var r := SplitAt(s, c);
    assert c in s by { assert s[|a|] == c; }
    var k := FirstIndex(s, c);
    assert k == |a| by {
      assert s[..|a|] == a;
      assert s[|a|] == c;
    }
    assert s[..|a|] == a;
    assert s[|a| + 1..] == b;
  }

  lemma StripConcat(pre: string, mid: string, post: string)
    ensures Strip(pre + mid + post, pre, post) == Some(mid)
  {
    var s := pre + mid + post;
    assert s[..|pre|] == pre;
    assert s[|s| - |post|..] == post;
    assert s[|pre|..|s| - |post|] == mid;
  }

  /** Decimal digits never contain a separator or bracket character. */
  lemma DigitsAvoid(s: string, c: char)
    requires IsDigits(s) && !IsDigit(c)
    ensures c !in s
  {
  }
}
