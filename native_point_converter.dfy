/**
 * NativePointTypeConverter: the type converter that reads a NativePoint from
 * the text "X,Y" and writes one back in the same form. Integers are read the
 * way Int32.TryParse reads them under NumberStyles.Integer with the invariant
 * culture (optional white space around, an optional leading sign, decimal
 * digits, the value within 32 bits) and written as invariant decimal digits
 * with a leading '-' for negative values.
 *
 * What the base TypeConverter would answer or do is not part of this model:
 * its answer to CanConvertFrom/CanConvertTo is a parameter, and a conversion
 * handed to it is the failure Delegated.
 */
module NativePointConverter {
  import opened Wrappers

  newtype int32 = x: int | -0x8000_0000 <= x < 0x8000_0000

  datatype NativePoint = NativePoint(x: int32, y: int32)

  /** The types a caller asks about. */
  datatype ClrType = StringType | NativePointType | OtherType(name: string)

  /** The values a caller hands over. */
  datatype Value = Text(text: string) | Point(point: NativePoint) | OtherValue(typeName: string)

  function TypeOf(v: Value): ClrType
  {
    match v
    case Text(_) => StringType
    case Point(_) => NativePointType
    case OtherValue(name) => OtherType(name)
  }

  /** A conversion this converter does not do itself, left to the base TypeConverter. */
  datatype Fallback = Delegated

  // ---------------------------------------------------------------------
  // String.Split(',')
  // ---------------------------------------------------------------------

  function Count(s: string, c: char): nat
  {
    if s == [] then 0 else (if s[0] == c then 1 else 0) + Count(s[1..], c)
  }

  /** The parts of `parts` with `c` between each two of them (String.Join). */
  function Join(parts: seq<string>, c: char): string
  {
    if parts == [] then [] else if |parts| == 1 then parts[0] else parts[0] + [c] + Join(parts[1..], c)
  }

  /**
   * The pieces of `s` between the occurrences of `c`: one more than there are
   * occurrences, none containing `c`, and joined by `c` they give `s` back.
   */
  function {:induction false} Split(s: string, c: char): (r: seq<string>)
    ensures |r| == Count(s, c) + 1
    ensures forall i :: 0 <= i < |r| ==> c !in r[i]
    ensures Join(r, c) == s
  {
    if s == [] then [[]]
    else
      var rest := Split(s[1..], c);
      if s[0] == c then
        assert Join([[]] + rest, c) == [] + [c] + Join(rest, c) by { assert ([[]] + rest)[1..] == rest; }
        [[]] + rest
      else
        var r := [[s[0]] + rest[0]] + rest[1..];
        assert Join(r, c) == s by {
          if |rest| == 1 {
          } else {
            assert r[1..] == rest[1..];
            assert Join(rest, c) == rest[0] + [c] + Join(rest[1..], c);
          }
        }
        r
  }

  /** Splitting text without the separator gives the text itself. */
  lemma {:induction false} SplitWithout(s: string, c: char)
    requires c !in s
    ensures Split(s, c) == [s]
  {
    if s != [] {
      SplitWithout(s[1..], c);
    }
  }

  /** A separator-free prefix before the first separator is the first part. */
  lemma {:induction false} SplitAt(a: string, c: char, b: string)
    requires c !in a
    ensures Split(a + [c] + b, c) == [a] + Split(b, c)
    decreases |a|
  {
    if a == [] {
      assert ([] + [c] + b)[1..] == b;
    } else {
      assert (a + [c] + b)[1..] == a[1..] + [c] + b;
      SplitAt(a[1..], c, b);
      assert [a[0]] + a[1..] == a;
    }
  }

  // ---------------------------------------------------------------------
  // Int32.TryParse(s, NumberStyles.Integer, CultureInfo.InvariantCulture)
  // ---------------------------------------------------------------------

  /** The white space NumberStyles.AllowLeadingWhite/AllowTrailingWhite skip: U+0009 to U+000D and U+0020. */
  predicate IsWhite(c: char)
  {
    9 <= c as int <= 13 || c == ' '
  }

  predicate AllWhite(s: string)
  {
    forall i :: 0 <= i < |s| ==> IsWhite(s[i])
  }

  predicate IsDigit(c: char)
  {
    '0' <= c <= '9'
  }

  predicate AllDigits(s: string)
  {
    forall i :: 0 <= i < |s| ==> IsDigit(s[i])
  }

  function TrimStart(s: string): (r: string)
    ensures |r| <= |s| && r == s[|s| - |r|..]
    ensures r != [] ==> !IsWhite(r[0])
  {
    if s != [] && IsWhite(s[0]) then TrimStart(s[1..]) else s
  }

  function TrimEnd(s: string): (r: string)
    ensures |r| <= |s| && r == s[..|r|]
    ensures r != [] ==> !IsWhite(r[|r| - 1])
  {
    if s != [] && IsWhite(s[|s| - 1]) then TrimEnd(s[..|s| - 1]) else s
  }

  function DigitValue(c: char): nat
    requires IsDigit(c)
  {
    (c - '0') as nat
  }

  /** The value of a string of decimal digits. */
  function DigitsValue(ds: string): nat
    requires AllDigits(ds)
  {
    if ds == [] then 0 else 10 * DigitsValue(ds[..|ds| - 1]) + DigitValue(ds[|ds| - 1])
  }

  predicate InInt32(n: int)
  {
    -0x8000_0000 <= n < 0x8000_0000
  }

  predicate IsSign(sign: string)
  {
    sign == [] || sign == ['+'] || sign == ['-']
  }

  /** The value of digits after an optional sign. */
  function SignedValue(sign: string, ds: string): int
    requires AllDigits(ds)
  {
    if sign == ['-'] then 0 - DigitsValue(ds) else DigitsValue(ds)
  }

  /** `s` is made of white space, an optional sign, at least one digit and white space, in this order. */
  predicate Numeral(s: string, lead: string, sign: string, ds: string, trail: string)
  {
    && s == lead + sign + ds + trail
    && AllWhite(lead) && IsSign(sign) && ds != [] && AllDigits(ds) && AllWhite(trail)
  }

  /**
   * The integer `s` denotes: white space, an optional '+' or '-', at least
   * one decimal digit, white space; None for anything else and for a value
   * outside 32 bits.
   */
  function TryParseInt32(s: string): (r: Option<int32>)
    ensures r.Some? ==> exists i :: 0 <= i < |s| && IsDigit(s[i])
  {
    var t := TrimEnd(TrimStart(s));
    var r := ParseSigned(t);
    if r.Some? then
      var k := if t[0] == '-' || t[0] == '+' then 1 else 0;
      assert IsDigit(t[k]);
      assert t[k] == s[|s| - |TrimStart(s)| + k];
      r
    else r
  }

  /** An optional sign followed by at least one digit, within 32 bits. */
  function ParseSigned(t: string): Option<int32>
  {
    var negative := t != [] && t[0] == '-';
    var digits := if t != [] && (t[0] == '-' || t[0] == '+') then t[1..] else t;
    if digits == [] || !AllDigits(digits) then None
    else
      var n := if negative then 0 - DigitsValue(digits) else DigitsValue(digits);
      if InInt32(n) then Some(n as int32) else None
  }

  // ---------------------------------------------------------------------
  // Int32.ToString() under the invariant culture
  // ---------------------------------------------------------------------

  function DigitChar(d: nat): (c: char)
    requires d < 10
    ensures IsDigit(c) && DigitValue(c) == d
  {
    '0' + d as char
  }

  /** The decimal digits of `n`, without leading zeros. */
  function {:induction false} Digits(n: nat): (r: string)
    ensures r != [] && AllDigits(r) && DigitsValue(r) == n
    decreases n
  {
    if n < 10 then [DigitChar(n)]
    else
      var r := Digits(n / 10) + [DigitChar(n % 10)];
      assert r[..|r| - 1] == Digits(n / 10);
      r
  }

  function FormatInt32(n: int32): (r: string)
    ensures r != [] && ',' !in r
    ensures !IsWhite(r[0]) && !IsWhite(r[|r| - 1])
  {
    if n < 0 then ['-'] + Digits(-(n as int)) else Digits(n as int)
  }

  /** Digits writes no leading zero: its first digit is '0' only for 0 itself, written "0". */
  lemma {:induction false} DigitsCanonical(n: nat)
    ensures Digits(n)[0] == '0' <==> n == 0
    ensures n == 0 ==> Digits(n) == ['0']
    decreases n
  {
    if n >= 10 {
      DigitsCanonical(n / 10);
      assert Digits(n)[0] == Digits(n / 10)[0];
    }
  }

  /**
   * The form Int32.ToString writes: '-' exactly for a negative value, then the
   * digits of its magnitude with no leading zero (so never "-0" or "+7").
   */
  lemma FormatCanonical(n: int32)
    ensures var r := FormatInt32(n); r[0] == '-' <==> n < 0
    ensures var r := FormatInt32(n); var ds := if n < 0 then r[1..] else r;
      && ds != [] && AllDigits(ds) && (|ds| == 1 || ds[0] != '0')
      && DigitsValue(ds) == (if n < 0 then -(n as int) else n as int)
      && (n < 0 ==> ds[0] != '0')
  {
    var m := if n < 0 then -(n as int) else n as int;
    DigitsCanonical(m);
    var r := FormatInt32(n);
    if n < 0 {
      assert r[1..] == Digits(m);
    } else {
      assert IsDigit(r[0]);
    }
  }

  // ---------------------------------------------------------------------
  // The converter
  // ---------------------------------------------------------------------

  /** Strings are read here; any other source type is for the base converter to answer. */
  function CanConvertFrom(sourceType: ClrType, baseCanConvertFrom: bool): (r: bool)
    ensures sourceType == StringType ==> r
    ensures sourceType != StringType ==> r == baseCanConvertFrom
  {
    sourceType == StringType || baseCanConvertFrom
  }

  /** Strings are written here; any other destination type is for the base converter to answer. */
  function CanConvertTo(destinationType: ClrType, baseCanConvertTo: bool): (r: bool)
    ensures destinationType == StringType ==> r
    ensures destinationType != StringType ==> r == baseCanConvertTo
  {
    destinationType == StringType || baseCanConvertTo
  }

  /**
   * A string with exactly two comma-separated parts that are both Int32s
   * becomes the point with the first as X and the second as Y; everything
   * else is handed to the base converter.
   */
  function ConvertFrom(value: Value): (r: Result<NativePoint, Fallback>)
    ensures r.Success? ==> value.Text? && Count(value.text, ',') == 1
  {
    match value
    case Text(s) =>
      var xy := Split(s, ',');
      if |xy| == 2 && TryParseInt32(xy[0]).Some? && TryParseInt32(xy[1]).Some? then
        Success(NativePoint(TryParseInt32(xy[0]).value, TryParseInt32(xy[1]).value))
      else
        Failure(Delegated)
    case _ => Failure(Delegated)
  }

  /** A point written as a string: X, one comma, Y; everything else is handed to the base converter. */
  function ConvertTo(value: Value, destinationType: ClrType): (r: Result<string, Fallback>)
    ensures r.Success? <==> destinationType == StringType && value.Point?
    ensures r.Success? ==> Count(r.value, ',') == 1
    ensures r.Success? ==> r.value == FormatInt32(value.point.x) + [','] + FormatInt32(value.point.y)
  {
    if destinationType == StringType && value.Point? then
      var p := value.point;
      CountJoined(FormatInt32(p.x), ',', FormatInt32(p.y));
      Success(FormatInt32(p.x) + [','] + FormatInt32(p.y))
    else
      Failure(Delegated)
  }

  lemma {:induction false} CountWithout(s: string, c: char)
    requires c !in s
    ensures Count(s, c) == 0
  {
    if s != [] {
      CountWithout(s[1..], c);
    }
  }

  lemma {:induction false} CountJoined(a: string, c: char, b: string)
    requires c !in a && c !in b
    ensures Count(a + [c] + b, c) == 1
    decreases |a|
  {
    if a == [] {
      assert ([] + [c] + b)[1..] == b;
      CountWithout(b, c);
    } else {
      assert (a + [c] + b)[1..] == a[1..] + [c] + b;
      CountJoined(a[1..], c, b);
    }
  }

  // ---------------------------------------------------------------------
  // Properties
  // ---------------------------------------------------------------------

  /** A string that neither starts nor ends with white space is left as it is. */
  lemma TrimNothing(s: string)
    requires s != [] && !IsWhite(s[0]) && !IsWhite(s[|s| - 1])
    ensures TrimEnd(TrimStart(s)) == s
  {
  }

  /** Digits with no sign read as their value. */
  lemma ParseUnsigned(ds: string)
    requires ds != [] && AllDigits(ds) && InInt32(DigitsValue(ds))
    ensures ParseSigned(ds) == Some(DigitsValue(ds) as int32)
  {
    assert IsDigit(ds[0]);
  }

  /** Digits after '-' read as the negated value. */
  lemma ParseNegative(ds: string)
    requires ds != [] && AllDigits(ds) && InInt32(0 - DigitsValue(ds))
    ensures ParseSigned(['-'] + ds) == Some((0 - DigitsValue(ds)) as int32)
  {
    assert (['-'] + ds)[1..] == ds;
  }

  /** Every Int32 written out reads back as itself. */
  lemma ParseFormat(n: int32)
    ensures TryParseInt32(FormatInt32(n)) == Some(n)
  {
    if n < 0 {
      var ds := Digits(-(n as int));
      assert FormatInt32(n) == [] + ['-'] + ds + [];
      ParseNumeral([], ['-'], ds, []);
    } else {
      var ds := Digits(n as int);
      assert FormatInt32(n) == [] + [] + ds + [];
      ParseNumeral([], [], ds, []);
    }
  }

  /**
   * What TryParseInt32 accepts: white space, an optional sign, digits and
   * white space read as the signed value of the digits when it fits in 32
   * bits, and as None when it does not.
   */
  lemma ParseNumeral(lead: string, sign: string, ds: string, trail: string)
    requires AllWhite(lead) && IsSign(sign) && ds != [] && AllDigits(ds) && AllWhite(trail)
    ensures TryParseInt32(lead + sign + ds + trail)
         == if InInt32(SignedValue(sign, ds)) then Some(SignedValue(sign, ds) as int32) else None
  {
    var t := sign + ds;
    Regroup(lead, sign, ds, trail);
    ParseIgnoresWhite(lead, t, trail);
    ParseTrimmed(sign, ds);
    ParseSignedDigits(sign, ds);
  }

  /** A sign and digits need no trimming: they read as ParseSigned reads them. */
  lemma ParseTrimmed(sign: string, ds: string)
    requires IsSign(sign) && ds != [] && AllDigits(ds)
    ensures TryParseInt32(sign + ds) == ParseSigned(sign + ds)
  {
    NoWhiteEnds(sign, ds);
    TrimNothing(sign + ds);
  }

  /** A sign and digits neither start nor end with white space. */
  lemma NoWhiteEnds(sign: string, ds: string)
    requires IsSign(sign) && ds != [] && AllDigits(ds)
    ensures var t := sign + ds; t != [] && !IsWhite(t[0]) && !IsWhite(t[|t| - 1])
  {
    assert IsDigit(ds[0]) && IsDigit(ds[|ds| - 1]);
    assert (sign + ds)[|sign + ds| - 1] == ds[|ds| - 1];
  }

  /** An optional sign and digits read as their signed value, when it fits. */
  lemma ParseSignedDigits(sign: string, ds: string)
    requires IsSign(sign) && ds != [] && AllDigits(ds)
    ensures ParseSigned(sign + ds)
         == if InInt32(SignedValue(sign, ds)) then Some(SignedValue(sign, ds) as int32) else None
  {
    var t := sign + ds;
    if sign == [] {
      assert t == ds && IsDigit(ds[0]);
    } else {
      assert t[0] == sign[0] && t[1..] == ds;
    }
  }

  /** Nothing but such a string is accepted: a parsed value always comes from white space, a sign, digits and white space. */
  lemma ParseAccepts(s: string, v: int32)
    requires TryParseInt32(s) == Some(v)
    ensures exists lead, sign, ds, trail :: Numeral(s, lead, sign, ds, trail) && v as int == SignedValue(sign, ds)
  {
    var u := TrimStart(s);
    var t := TrimEnd(u);
    TrimmedParts(s);
    NumeralAround(s, s[..|s| - |u|], t, u[|t|..], v);
  }

  /** White space around a string ParseSigned accepts makes a numeral. */
  lemma NumeralAround(s: string, lead: string, t: string, trail: string, v: int32)
    requires s == lead + t + trail && AllWhite(lead) && AllWhite(trail) && ParseSigned(t) == Some(v)
    ensures exists lead, sign, ds, trail :: Numeral(s, lead, sign, ds, trail) && v as int == SignedValue(sign, ds)
  {
    SignedShape(t, v);
    var sign := SignOf(t);
    var ds := t[|sign|..];
    assert t == sign + ds;
    assert s == lead + sign + ds + trail by {
      assert lead + t + trail == lead + sign + ds + trail;
    }
    assert IsSign(sign) && ds != [] && AllDigits(ds) && v as int == SignedValue(sign, ds);
    assert Numeral(s, lead, sign, ds, trail);
  }

  /** The sign a string starts with, if any. */
  function SignOf(t: string): (r: string)
    ensures IsSign(r) && |r| <= |t| && r == t[..|r|]
  {
    if t != [] && (t[0] == '-' || t[0] == '+') then [t[0]] else []
  }

  /** A string ParseSigned accepts is a sign and digits, read as their signed value. */
  lemma SignedShape(t: string, v: int32)
    requires ParseSigned(t) == Some(v)
    ensures var ds := t[|SignOf(t)|..];
      t == SignOf(t) + ds && ds != [] && AllDigits(ds) && v as int == SignedValue(SignOf(t), ds)
  {
  }

  /** A string is what TrimStart drops, what TrimEnd keeps of the rest, and what TrimEnd drops. */
  lemma TrimmedParts(s: string)
    ensures var u := TrimStart(s); var t := TrimEnd(u);
      s == s[..|s| - |u|] + t + u[|t|..] && AllWhite(s[..|s| - |u|]) && AllWhite(u[|t|..])
  {
    var u := TrimStart(s);
    var t := TrimEnd(u);
    TrimStartDrops(s);
    TrimEndDrops(u);
    ThreeParts(s, s[..|s| - |u|], u, t, u[|t|..]);
  }

  /** The sign and the digits, taken together, between the white space. */
  lemma Regroup(lead: string, sign: string, ds: string, trail: string)
    ensures lead + sign + ds + trail == lead + (sign + ds) + trail
  {
  }

  /** A string split in front of a part that is itself split in two. */
  lemma ThreeParts(s: string, lead: string, u: string, t: string, trail: string)
    requires s == lead + u && u == t + trail
    ensures s == lead + t + trail
  {
    assert lead + (t + trail) == lead + t + trail;
  }

  /** '+' before digits changes nothing. */
  lemma ParsePositive(ds: string)
    requires ds != [] && AllDigits(ds)
    ensures TryParseInt32(['+'] + ds) == TryParseInt32(ds)
  {
    assert ['+'] + ds == [] + ['+'] + ds + [];
    assert ds == [] + [] + ds + [];
    ParseNumeral([], ['+'], ds, []);
    ParseNumeral([], [], ds, []);
  }

  /** Digits worth 2^31 or more, unsigned or after '+', are out of range. */
  lemma ParseOverflow(ds: string)
    requires ds != [] && AllDigits(ds) && DigitsValue(ds) >= 0x8000_0000
    ensures TryParseInt32(ds) == None && TryParseInt32(['+'] + ds) == None
  {
    assert ds == [] + [] + ds + [];
    ParseNumeral([], [], ds, []);
    ParsePositive(ds);
  }

  /** What TrimStart drops is white space, in front of what it keeps. */
  lemma {:induction false} TrimStartDrops(s: string)
    ensures var lead := s[..|s| - |TrimStart(s)|]; s == lead + TrimStart(s) && AllWhite(lead)
  {
    if s != [] && IsWhite(s[0]) {
      var rest := s[1..];
      TrimStartDrops(rest);
      var r := TrimStart(rest);
      var lead := rest[..|rest| - |r|];
      assert TrimStart(s) == r;
      assert s == [s[0]] + (lead + r) by { assert s == [s[0]] + rest && rest == lead + r; }
      WhiteInFront(s[0], lead, r);
    } else {
      assert TrimStart(s) == s && s[..0] == [];
    }
  }

  /** One more white character in front of white space and a kept part. */
  lemma WhiteInFront(c: char, lead: string, r: string)
    requires IsWhite(c) && AllWhite(lead)
    ensures var s := [c] + (lead + r); s[..|s| - |r|] == [c] + lead && AllWhite([c] + lead) && s == [c] + lead + r
  {
    assert [c] + (lead + r) == ([c] + lead) + r;
  }

  /** What TrimEnd drops is white space, after what it keeps. */
  lemma {:induction false} TrimEndDrops(s: string)
    ensures var trail := s[|TrimEnd(s)|..]; s == TrimEnd(s) + trail && AllWhite(trail)
  {
    if s != [] && IsWhite(s[|s| - 1]) {
      var rest := s[..|s| - 1];
      TrimEndDrops(rest);
      var r := TrimEnd(rest);
      var trail := rest[|r|..];
      assert TrimEnd(s) == r;
      assert s == rest + [s[|s| - 1]];
      assert s[|r|..] == trail + [s[|s| - 1]];
      assert AllWhite(trail + [s[|s| - 1]]);
    } else {
      assert TrimEnd(s) == s && s[|s|..] == [];
    }
  }

  /** White space of the three kinds before a string is dropped. */
  lemma {:induction false} TrimStartWhite(ws: string, s: string)
    requires AllWhite(ws)
    ensures TrimStart(ws + s) == TrimStart(s)
    decreases |ws|
  {
    if ws == [] {
      assert ws + s == s;
    } else {
      assert (ws + s)[0] == ws[0] && (ws + s)[1..] == ws[1..] + s;
      TrimStartWhite(ws[1..], s);
    }
  }

  /** White space after a string is dropped. */
  lemma {:induction false} TrimEndWhite(s: string, ws: string)
    requires AllWhite(ws)
    ensures TrimEnd(s + ws) == TrimEnd(s)
    decreases |ws|
  {
    if ws == [] {
      assert s + ws == s;
    } else {
      assert (s + ws)[|s + ws| - 1] == ws[|ws| - 1];
      assert (s + ws)[..|s + ws| - 1] == s + ws[..|ws| - 1];
      TrimEndWhite(s, ws[..|ws| - 1]);
    }
  }

  /** Trimming the front of a string does not reach white space appended after it. */
  lemma {:induction false} TrimStartAppend(s: string, ws: string)
    requires AllWhite(ws)
    ensures TrimStart(s) != [] ==> TrimStart(s + ws) == TrimStart(s) + ws
    ensures TrimStart(s) == [] ==> TrimStart(s + ws) == []
    decreases |s|
  {
    if s == [] {
      TrimStartWhite(ws, []);
    } else if IsWhite(s[0]) {
      assert (s + ws)[1..] == s[1..] + ws;
      TrimStartAppend(s[1..], ws);
    }
  }

  /** Surrounding white space does not change what a string parses to. */
  lemma ParseIgnoresWhite(ws1: string, s: string, ws2: string)
    requires AllWhite(ws1) && AllWhite(ws2)
    ensures TryParseInt32(ws1 + s + ws2) == TryParseInt32(s)
  {
    TrimSurrounded(ws1, s, ws2);
  }

  lemma TrimSurrounded(ws1: string, s: string, ws2: string)
    requires AllWhite(ws1) && AllWhite(ws2)
    ensures TrimEnd(TrimStart(ws1 + s + ws2)) == TrimEnd(TrimStart(s))
  {
    assert ws1 + s + ws2 == ws1 + (s + ws2);
    TrimStartWhite(ws1, s + ws2);
    TrimStartAppend(s, ws2);
    if TrimStart(s) != [] {
      TrimEndWhite(TrimStart(s), ws2);
    }
  }

  /** A point written out and read back is the same point. */
  lemma RoundTrip(p: NativePoint)
    ensures ConvertTo(Point(p), StringType).Success?
    ensures ConvertFrom(Text(ConvertTo(Point(p), StringType).value)) == Success(p)
  {
    var a, b := FormatInt32(p.x), FormatInt32(p.y);
    assert ConvertTo(Point(p), StringType) == Success(a + [','] + b);
    ParseFormat(p.x);
    ParseFormat(p.y);
    ConvertFromParts(a, b);
  }

  /**
   * What ConvertFrom accepts: exactly the strings made of two comma-free
   * parts around one comma that both parse, read as X and Y in that order.
   */
  lemma ConvertFromParts(a: string, b: string)
    requires ',' !in a && ',' !in b
    ensures ConvertFrom(Text(a + [','] + b)).Success?
        <==> TryParseInt32(a).Some? && TryParseInt32(b).Some?
    ensures ConvertFrom(Text(a + [','] + b)).Success?
        ==> ConvertFrom(Text(a + [','] + b)).value == NativePoint(TryParseInt32(a).value, TryParseInt32(b).value)
  {
    SplitAt(a, ',', b);
    SplitWithout(b, ',');
  }

  /** A string without exactly one comma is never read as a point. */
  lemma ConvertFromNeedsOneComma(s: string)
    requires Count(s, ',') != 1
    ensures ConvertFrom(Text(s)) == Failure(Delegated)
  {
  }

  /** The converter converts only between the types it says it handles itself. */
  lemma ConvertMatchesCanConvert(v: Value, destinationType: ClrType)
    ensures ConvertFrom(v).Success? ==> CanConvertFrom(TypeOf(v), false)
    ensures ConvertTo(v, destinationType).Success? ==> CanConvertTo(destinationType, false)
  {
  }
}
