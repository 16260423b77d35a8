/** The values the trace synthesiser stores in its environment, Python's truthiness
    for them, and the `str`/`repr` renderings that appear in step records. */
module Values {
  import opened Wrappers

  /** A synthesised value: one of the literal kinds, or a list or dictionary of values.
      Placeholders such as "<unresolved x>" are ordinary strings. */
  datatype Value =
    | VNone
    | VBool(b: bool)
    | VInt(i: int)
    | VStr(s: string)
    | VList(items: seq<Value>)
    | VDict(entries: seq<Entry>)

  /** One key/value pair of a dictionary, in insertion order. */
  datatype Entry = Entry(key: Value, val: Value)

  /** Python's truth test on the modelled values. */
  predicate Truthy(v: Value) {
    match v
    case VNone => false
    case VBool(b) => b
    case VInt(i) => i != 0
    case VStr(s) => s != ""
    case VList(xs) => xs != []
    case VDict(es) => es != []
  }

  /** In Python `bool` is a subclass of `int`: both take part in arithmetic and indexing. */
  predicate IsNum(v: Value) {
    v.VInt? || v.VBool?
  }

  function Num(v: Value): int
    requires IsNum(v)
  {
    if v.VInt? then v.i else if v.b then 1 else 0
  }

  predicate IsDigit(c: char) {
    '0' <= c <= '9'
  }

  predicate AllDigits(s: string) {
    forall k :: 0 <= k < |s| ==> IsDigit(s[k])
  }

  function DigitChar(d: nat): (c: char)
    requires d < 10
    ensures IsDigit(c) && c as int - '0' as int == d
  {
    ('0' as int + d) as char
  }

  /** Decimal rendering of a natural number, without leading zeros. */
  function NatToString(n: nat): (s: string)
    ensures |s| > 0 && AllDigits(s)
    ensures s[0] == '0' ==> n == 0
    decreases n
  {
    if n < 10 then [DigitChar(n)] else NatToString(n / 10) + [DigitChar(n % 10)]
  }

  /** The number a string of decimal digits denotes. */
  function DigitsValue(s: string): nat
    requires AllDigits(s)
    decreases |s|
  {
    if s == [] then 0 else DigitsValue(s[..|s| - 1]) * 10 + (s[|s| - 1] as int - '0' as int)
  }

  lemma {:induction false} NatToStringRoundTrip(n: nat)
    ensures DigitsValue(NatToString(n)) == n
  {
    if n >= 10 {
      var s, p := NatToString(n), NatToString(n / 10);
      assert s[..|s| - 1] == p;
      NatToStringRoundTrip(n / 10);
    }
  }

  /** Python's `str` of an `int`. */
  function IntToString(i: int): (s: string)
    ensures |s| > 0 && IsDigit(s[|s| - 1])
    ensures s[0] == '-' <==> i < 0
    ensures i < 0 ==> AllDigits(s[1..])
    ensures i >= 0 ==> AllDigits(s)
  {
    if i < 0 then "-" + NatToString(-i) else NatToString(i)
  }

  /** The ASCII whitespace `int()` strips from both ends of its argument: space, the
      control characters 9 to 13 (tab, line feed, vertical tab, form feed, carriage
      return) and the separators 28 to 31. */
  predicate IsSpace(c: char) {
    c == ' ' || 9 <= c as int <= 13 || 28 <= c as int <= 31
  }

  predicate AllSpace(w: string) {
    forall k :: 0 <= k < |w| ==> IsSpace(w[k])
  }

  function TrimStart(s: string): (r: string)
    ensures |r| <= |s| && (r != [] ==> !IsSpace(r[0]))
    ensures s != [] && !IsSpace(s[0]) ==> r == s
  {
    if s != [] && IsSpace(s[0]) then TrimStart(s[1..]) else s
  }

  function TrimEnd(s: string): (r: string)
    ensures |r| <= |s| && (r != [] ==> !IsSpace(r[|r| - 1]))
    ensures s != [] && !IsSpace(s[|s| - 1]) ==> r == s
  {
    if s != [] && IsSpace(s[|s| - 1]) then TrimEnd(s[..|s| - 1]) else s
  }

  /** The decimal core of Python's `int(s)`: surrounding whitespace, an optional sign,
      then one or more ASCII digits; anything else fails. */
  function ParseInt(s: string): Option<int> {
    ParseSignedDigits(TrimEnd(TrimStart(s)))
  }

  /** The trimmed text: an optional sign, then one or more digits. */
  function ParseSignedDigits(t: string): Option<int> {
    if |t| > 1 && (t[0] == '-' || t[0] == '+') && AllDigits(t[1..]) then
      var n: int := DigitsValue(t[1..]);
      Some(if t[0] == '-' then -n else n)
    else if |t| > 0 && AllDigits(t) then
      Some(DigitsValue(t))
    else
      None
  }

  /** The signs `int()` accepts in front of the digits. */
  predicate IsSign(sign: string) {
    sign == "" || sign == "+" || sign == "-"
  }

  function Signed(sign: string, n: nat): int {
    var i: int := n;
    if sign == "-" then -i else i
  }

  lemma {:induction false} TrimStartSpaces(w: string, t: string)
    requires AllSpace(w) && (t == [] || !IsSpace(t[0]))
    ensures TrimStart(w + t) == t
    decreases |w|
  {
    if w == [] {
      assert w + t == t;
    } else {
      assert (w + t)[0] == w[0] && (w + t)[1..] == w[1..] + t;
      TrimStartSpaces(w[1..], t);
    }
  }

  lemma {:induction false} TrimEndSpaces(t: string, w: string)
    requires AllSpace(w) && (t == [] || !IsSpace(t[|t| - 1]))
    ensures TrimEnd(t + w) == t
    decreases |w|
  {
    if w == [] {
      assert t + w == t;
    } else {
      var n := |w| - 1;
      assert (t + w)[|t + w| - 1] == w[n] && (t + w)[..|t + w| - 1] == t + w[..n];
      TrimEndSpaces(t, w[..n]);
    }
  }

  /** The whitespace `TrimStart` removes. */
  lemma {:induction false} TrimStartSplit(s: string) returns (w: string)
    ensures AllSpace(w) && s == w + TrimStart(s)
    decreases |s|
  {
    if s != [] && IsSpace(s[0]) {
      var w' := TrimStartSplit(s[1..]);
      w := [s[0]] + w';
      assert s == [s[0]] + (w' + TrimStart(s[1..]));
    } else {
      w := [];
    }
  }

  /** The whitespace `TrimEnd` removes. */
  lemma {:induction false} TrimEndSplit(s: string) returns (w: string)
    ensures AllSpace(w) && s == TrimEnd(s) + w
    decreases |s|
  {
    if s != [] && IsSpace(s[|s| - 1]) {
      var n := |s| - 1;
      var w' := TrimEndSplit(s[..n]);
      w := w' + [s[n]];
      assert s == (TrimEnd(s[..n]) + w') + [s[n]];
    } else {
      w := [];
    }
  }

  /** `int()` accepts whitespace, an optional sign, one or more digits and whitespace,
      and yields the signed value of the digits. */
  lemma ParseIntAccepts(w1: string, sign: string, d: string, w2: string)
    requires AllSpace(w1) && IsSign(sign) && d != [] && AllDigits(d) && AllSpace(w2)
    ensures ParseInt(w1 + sign + d + w2) == Some(Signed(sign, DigitsValue(d)))
  {
    var t := sign + d;
    assert w1 + sign + d + w2 == w1 + (t + w2);
    assert (t + w2)[0] == t[0] && t[|t| - 1] == d[|d| - 1];
    TrimStartSpaces(w1, t + w2);
    TrimEndSpaces(t, w2);
    SignedDigits(sign, d);
  }

  lemma SignedDigits(sign: string, d: string)
    requires IsSign(sign) && d != [] && AllDigits(d)
    ensures ParseSignedDigits(sign + d) == Some(Signed(sign, DigitsValue(d)))
  {
    var t := sign + d;
    if sign == "" {
      assert t == d && IsDigit(t[0]);
    } else {
      assert t[0] == sign[0] && t[1..] == d;
    }
  }

  /** Conversely, every string `int()` accepts has that form. */
  lemma ParseIntGrammar(s: string) returns (w1: string, sign: string, d: string, w2: string)
    requires ParseInt(s).Some?
    ensures s == w1 + sign + d + w2
    ensures AllSpace(w1) && IsSign(sign) && d != [] && AllDigits(d) && AllSpace(w2)
    ensures ParseInt(s) == Some(Signed(sign, DigitsValue(d)))
  {
    var u := TrimStart(s);
    w1 := TrimStartSplit(s);
    var t := TrimEnd(u);
    w2 := TrimEndSplit(u);
    sign, d := SignedDigitsGrammar(t);
    Concat4(s, w1, u, t, w2, sign, d);
  }

  /** Every trimmed text that parses is an optional sign followed by digits. */
  lemma SignedDigitsGrammar(t: string) returns (sign: string, d: string)
    requires ParseSignedDigits(t).Some?
    ensures t == sign + d && IsSign(sign) && d != [] && AllDigits(d)
    ensures ParseSignedDigits(t) == Some(Signed(sign, DigitsValue(d)))
  {
    if |t| > 1 && (t[0] == '-' || t[0] == '+') && AllDigits(t[1..]) {
      sign, d := t[..1], t[1..];
    } else {
      sign, d := "", t;
    }
  }

  lemma Concat4(s: string, w1: string, u: string, t: string, w2: string, sign: string, d: string)
    requires s == w1 + u && u == t + w2 && t == sign + d
    ensures s == w1 + sign + d + w2
  {
  }

  /** Every rendered integer parses back to itself. */
  lemma {:induction false} ParseIntRoundTrip(i: int)
    ensures ParseInt(IntToString(i)) == Some(i)
  {
    var s := IntToString(i);
    assert !IsSpace(s[0]) && !IsSpace(s[|s| - 1]);
    assert TrimEnd(TrimStart(s)) == s;
    if i < 0 {
      assert s[1..] == NatToString(-i);
      NatToStringRoundTrip(-i);
    } else {
      NatToStringRoundTrip(i);
    }
  }

  /** Python's `repr`, simplified for strings: they are put in single quotes without
      escaping. */
  function Repr(v: Value): string
    decreases v
  {
    match v
    case VNone => "None"
    case VBool(b) => if b then "True" else "False"
    case VInt(i) => IntToString(i)
    case VStr(s) => "'" + s + "'"
    case VList(xs) => "[" + ReprItems(xs) + "]"
    case VDict(es) => "{" + ReprEntries(es) + "}"
  }

  function ReprItems(xs: seq<Value>): string
    decreases xs
  {
    if xs == [] then ""
    else if |xs| == 1 then Repr(xs[0])
    else Repr(xs[0]) + ", " + ReprItems(xs[1..])
  }

  function ReprEntries(es: seq<Entry>): string
    decreases es
  {
    if es == [] then ""
    else
      var first := ReprEntry(es[0]);
      if |es| == 1 then first else first + ", " + ReprEntries(es[1..])
  }

  function ReprEntry(e: Entry): string
    decreases e
  {
    Repr(e.key) + ": " + Repr(e.val)
  }

  /** Python's `str`: a string is shown as it is, everything else as its `repr`. */
  function Str(v: Value): string {
    if v.VStr? then v.s else Repr(v)
  }

  function StrAll(vs: seq<Value>): (r: seq<string>)
    ensures |r| == |vs| && forall k :: 0 <= k < |vs| ==> r[k] == Str(vs[k])
  {
    seq(|vs|, k requires 0 <= k < |vs| => Str(vs[k]))
  }

  /** `sep.join(parts)`. */
  function Join(sep: string, parts: seq<string>): string {
    if parts == [] then ""
    else if |parts| == 1 then parts[0]
    else parts[0] + sep + Join(sep, parts[1..])
  }
}
