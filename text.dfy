/** The string operations the topology editor is built from, as Python
    defines them on ASCII text: whitespace, `str.strip`, `str.split()` with no
    separator, `' '.join`, `str(n)` for integers, and the `int()` and
    `float()` conversions for plain decimal notation. */
module Text {
  import opened Outcomes

  /** `str.isspace()` on ASCII characters: space, \t \n \v \f \r and the
      four separators \x1c-\x1f. */
  predicate IsSpace(c: char) {
    c == ' ' || 9 <= c as int <= 13 || 28 <= c as int <= 31
  }

  predicate IsDigit(c: char) {
    '0' <= c <= '9'
  }

  predicate AllDigits(s: string) {
    forall i :: 0 <= i < |s| ==> IsDigit(s[i])
  }

  /** A word as `str.split()` returns it: non-empty and free of whitespace. */
  predicate IsToken(w: string) {
    w != [] && forall i :: 0 <= i < |w| ==> !IsSpace(w[i])
  }

  function Spaces(n: nat): (r: string)
    ensures |r| == n && forall i :: 0 <= i < n ==> r[i] == ' '
  {
    if n == 0 then [] else [' '] + Spaces(n - 1)
  }

  // ---------------------------------------------------------------------
  // strip

  /** `str.lstrip()`: the suffix that starts at the first non-space. */
  function LStrip(s: string): (r: string)
    ensures |r| <= |s|
    ensures r != [] ==> !IsSpace(r[0])
    ensures forall i :: 0 <= i < |s| - |r| ==> IsSpace(s[i])
  {
    if s == [] || !IsSpace(s[0]) then s else LStrip(s[1..])
  }

  /** `str.rstrip()`: the prefix that ends at the last non-space. */
  function RStrip(s: string): (r: string)
    ensures |r| <= |s|
    ensures r != [] ==> !IsSpace(r[|r| - 1])
    ensures forall i :: |r| <= i < |s| ==> IsSpace(s[i])
  {
    if s == [] || !IsSpace(s[|s| - 1]) then s else RStrip(s[..|s| - 1])
  }

  /** `str.strip()`. */
  function Strip(s: string): string {
    RStrip(LStrip(s))
  }

  /** Whitespace in front of a text is all that `lstrip` removes from it. */
  lemma {:induction false} LStripSkipsSpaces(p: string, s: string)
    requires forall i :: 0 <= i < |p| ==> IsSpace(p[i])
    ensures LStrip(p + s) == LStrip(s)
  {
    if p != [] {
      assert (p + s)[1..] == p[1..] + s;
      LStripSkipsSpaces(p[1..], s);
    } else {
      assert p + s == s;
    }
  }

  /** Stripping a line that already ends in a non-space only removes its
      leading whitespace. */
  lemma StripOfTrailingNonSpace(s: string)
    requires s != [] && !IsSpace(s[|s| - 1])
    ensures Strip(s) == LStrip(s)
  {
  }

  // ---------------------------------------------------------------------
  // split and join

  /** The longest prefix free of whitespace. */
  function Word(s: string): (w: string)
    ensures |w| <= |s|
    ensures forall i :: 0 <= i < |w| ==> !IsSpace(w[i])
    ensures |w| < |s| ==> IsSpace(s[|w|])
  {
    if s == [] || IsSpace(s[0]) then [] else [s[0]] + Word(s[1..])
  }

  /** `str.split()`: the maximal runs of non-whitespace, in order. */
  function Split(s: string): (r: seq<string>)
    ensures forall i :: 0 <= i < |r| ==> IsToken(r[i])
    decreases |s|
  {
    var t := LStrip(s);
    if t == [] then []
    else
      var w := Word(t);
      [w] + Split(t[|w|..])
  }

  /** `sep.join(ws)`. */
  function Join(ws: seq<string>, sep: string): string {
    if ws == [] then []
    else if |ws| == 1 then ws[0]
    else ws[0] + sep + Join(ws[1..], sep)
  }

  lemma {:induction false} WordOfToken(w: string, rest: string)
    requires forall i :: 0 <= i < |w| ==> !IsSpace(w[i])
    requires rest == [] || IsSpace(rest[0])
    ensures Word(w + rest) == w
  {
    if w != [] {
      assert (w + rest)[0] == w[0];
      assert (w + rest)[1..] == w[1..] + rest;
      WordOfToken(w[1..], rest);
    } else {
      assert w + rest == rest;
    }
  }


  /** Leading whitespace never changes the words of a line. */
  lemma SplitSpaces(n: nat, s: string)
    ensures Split(Spaces(n) + s) == Split(s)
  {
    LStripSkipsSpaces(Spaces(n), s);
    SplitDependsOnLStrip(Spaces(n) + s, s);
  }

  /** A single token splits into itself. */
  lemma SplitToken(w: string)
    requires IsToken(w)
    ensures Split(w) == [w]
  {
    WordOfToken(w, []);
    assert w + [] == w;
    assert w[|w|..] == [];
  }

  /** `split` sees only what `lstrip` leaves. */
  lemma SplitDependsOnLStrip(x: string, y: string)
    requires LStrip(x) == LStrip(y)
    ensures Split(x) == Split(y)
  {
  }

  lemma SplitStep(s: string)
    requires LStrip(s) != []
    ensures Split(s) == [Word(LStrip(s))] + Split(LStrip(s)[|Word(LStrip(s))|..])
  {
  }

  lemma {:induction false} LStripIsSuffix(s: string)
    ensures LStrip(s) == s[|s| - |LStrip(s)|..]
  {
    if s != [] && IsSpace(s[0]) {
      LStripIsSuffix(s[1..]);
    }
  }

  lemma {:induction false} RStripIsPrefix(s: string)
    ensures RStrip(s) == s[..|RStrip(s)|]
  {
    if s != [] && IsSpace(s[|s| - 1]) {
      RStripIsPrefix(s[..|s| - 1]);
    }
  }

  lemma {:induction false} WordIsPrefix(s: string)
    ensures Word(s) == s[..|Word(s)|]
  {
    if s != [] && !IsSpace(s[0]) {
      WordIsPrefix(s[1..]);
    }
  }

  /** `lstrip` of a concatenation. */
  lemma {:induction false} LStripConcat(a: string, c: string)
    ensures LStrip(a + c) == if LStrip(a) == [] then LStrip(c) else LStrip(a) + c
  {
    if a == [] {
      assert a + c == c;
    } else if IsSpace(a[0]) {
      assert (a + c)[1..] == a[1..] + c;
      LStripConcat(a[1..], c);
    }
  }

  /** A word ends where whitespace starts. */
  lemma {:induction false} WordConcat(t: string, c: string)
    requires c == [] || IsSpace(c[0])
    ensures Word(t + c) == Word(t)
  {
    if t == [] {
      assert t + c == c;
    } else if !IsSpace(t[0]) {
      assert (t + c)[1..] == t[1..] + c;
      WordConcat(t[1..], c);
    }
  }

  lemma SplitAfterBlank(a: string, b: string)
    requires LStrip(a) == []
    ensures Split(a + " " + b) == Split(b)
  {
    var c := [' '] + b;
    assert a + " " + b == a + c;
    LStripConcat(a, c);
    LStripConcat([' '], b);
    SplitDependsOnLStrip(a + c, b);
  }

  /** Two texts joined by a space split into the words of each, in order. */
  lemma {:induction false} SplitAroundSpace(a: string, b: string)
    ensures Split(a + " " + b) == Split(a) + Split(b)
    decreases |a|
  {
    var c := [' '] + b;
    assert a + " " + b == a + c;
    LStripConcat(a, c);
    var t := LStrip(a);
    if t == [] {
      SplitAfterBlank(a, b);
    } else {
      var w := Word(t);
      var r := t[|w|..];
      WordConcat(t, c);
      assert LStrip(a + c) == t + c;
      SplitStep(a + c);
      assert (t + c)[|w|..] == r + c;
      SplitStep(a);
      assert r + c == r + " " + b;
      SplitAroundSpace(r, b);
      assert Split(a + c) == [w] + (Split(r) + Split(b));
    }
  }

  /** Joining words with single spaces and splitting again gives the words back. */
  lemma {:induction false} SplitJoin(ws: seq<string>)
    requires forall i :: 0 <= i < |ws| ==> IsToken(ws[i])
    ensures Split(Join(ws, " ")) == ws
  {
    if ws == [] {
    } else if |ws| == 1 {
      SplitToken(ws[0]);
    } else {
      SplitJoin(ws[1..]);
      SplitAroundSpace(ws[0], Join(ws[1..], " "));
      SplitToken(ws[0]);
      assert ws == [ws[0]] + ws[1..];
    }
  }

  /** The first non-space character of a line is the first character of its first word. */
  lemma FirstWordStartsLine(s: string)
    requires Split(s) != []
    ensures LStrip(s) != [] && LStrip(s)[0] == Split(s)[0][0]
  {
  }

  // ---------------------------------------------------------------------
  // decimal numbers

  function DigitValue(c: char): nat
    requires IsDigit(c)
  {
    c as int - '0' as int
  }

  function DigitChar(d: nat): (c: char)
    requires d < 10
    ensures IsDigit(c) && DigitValue(c) == d
  {
    ('0' as int + d) as char
  }

  /** The value of a string of decimal digits; the empty string is worth 0. */
  function DigitsValue(s: string): nat
    requires AllDigits(s)
  {
    if s == [] then 0 else DigitsValue(s[..|s| - 1]) * 10 + DigitValue(s[|s| - 1])
  }

  /** Python's `str(n)` for a natural number. */
  function NatToString(n: nat): (s: string)
    ensures s != [] && AllDigits(s)
  {
    if n < 10 then [DigitChar(n)] else NatToString(n / 10) + [DigitChar(n % 10)]
  }

  /** Python's `str(i)` for an integer. */
  function IntToString(i: int): string {
    if i < 0 then "-" + NatToString(-i) else NatToString(i)
  }

  /** The form `str(n)` gives: digits, without a leading zero unless the number is 0. */
  predicate IsCanonical(s: string) {
    s != [] && AllDigits(s) && (s[0] == '0' ==> |s| == 1)
  }

  lemma {:induction false} NatToStringCanonical(n: nat)
    ensures IsCanonical(NatToString(n)) && DigitsValue(NatToString(n)) == n
  {
    if n >= 10 {
      NatToStringCanonical(n / 10);
      var s := NatToString(n);
      assert s[..|s| - 1] == NatToString(n / 10);
      assert s[0] == NatToString(n / 10)[0];
    }
  }

  lemma {:induction false} ZeroValueIsZeros(s: string)
    requires AllDigits(s) && DigitsValue(s) == 0
    ensures forall i :: 0 <= i < |s| ==> s[i] == '0'
  {
    if s != [] {
      ZeroValueIsZeros(s[..|s| - 1]);
      assert forall i :: 0 <= i < |s| - 1 ==> s[i] == s[..|s| - 1][i];
    }
  }

  /** A canonical numeral is what `str` prints for its value. */
  lemma {:induction false} CanonicalRoundTrip(s: string)
    requires IsCanonical(s)
    ensures NatToString(DigitsValue(s)) == s
  {
    if |s| > 1 {
      var p := s[..|s| - 1];
      assert p[0] == s[0];
      assert IsCanonical(p);
      if DigitsValue(p) == 0 {
        ZeroValueIsZeros(p);
        assert false;
      }
      CanonicalRoundTrip(p);
      var n := DigitsValue(s);
      assert n / 10 == DigitsValue(p) && n % 10 == DigitValue(s[|s| - 1]);
      assert s == p + [s[|s| - 1]];
    }
  }

  /** Python's `int()` on an optionally signed run of decimal digits. */
  function ParseInt(t: string): Option<int> {
    if t != [] && (t[0] == '+' || t[0] == '-') then
      if |t| > 1 && AllDigits(t[1..]) then
        var v: int := DigitsValue(t[1..]);
        Some(if t[0] == '-' then -v else v)
      else None
    else if t != [] && AllDigits(t) then Some(DigitsValue(t))
    else None
  }

  /** `int(str(i)) == i`. */
  lemma ParseIntToString(i: int)
    ensures ParseInt(IntToString(i)) == Some(i)
  {
    if i < 0 {
      NatToStringCanonical(-i);
      assert IntToString(i)[1..] == NatToString(-i);
    } else {
      NatToStringCanonical(i);
    }
  }

  function Pow10(e: int): (p: real)
    ensures p > 0.0
    decreases if e < 0 then -e else e
  {
    if e == 0 then 1.0 else if e > 0 then 10.0 * Pow10(e - 1) else Pow10(e + 1) / 10.0
  }

  /** Index of the first occurrence of `c`, or |s| when there is none. */
  function IndexOf(s: string, c: char): (k: nat)
    ensures k <= |s|
    ensures k < |s| ==> s[k] == c
    ensures forall i :: 0 <= i < k ==> s[i] != c
  {
    if s == [] then 0 else if s[0] == c then 0 else 1 + IndexOf(s[1..], c)
  }

  /** Index of the first `e` or `E`, or |s|. */
  function ExponentMark(s: string): (k: nat)
    ensures k <= |s|
    ensures forall i :: 0 <= i < k ==> s[i] != 'e' && s[i] != 'E'
  {
    if s == [] then 0 else if s[0] == 'e' || s[0] == 'E' then 0 else 1 + ExponentMark(s[1..])
  }

  /** Digits with at most one decimal point and at least one digit. */
  function ParseMantissa(m: string): Option<real> {
    var d := IndexOf(m, '.');
    if d == |m| then
      if m != [] && AllDigits(m) then Some(DigitsValue(m) as real) else None
    else
      var whole, frac := m[..d], m[d + 1..];
      if AllDigits(whole) && AllDigits(frac) && |whole| + |frac| > 0 then
        Some(DigitsValue(whole) as real + DigitsValue(frac) as real / Pow10(|frac|))
      else None
  }

  /** Python's `float()` on an optionally signed decimal mantissa with an
      optional exponent. */
  function ParseFloat(t: string): Option<real> {
    var signed := t != [] && (t[0] == '+' || t[0] == '-');
    var body := if signed then t[1..] else t;
    var e := ExponentMark(body);
    match ParseMantissa(body[..e])
    case None => None
    case Some(m) =>
      var magnitude :=
        if e == |body| then Some(m)
        else match ParseInt(body[e + 1..])
          case None => None
          case Some(x) => Some(m * Pow10(x));
      match magnitude
      case None => None
      case Some(v) => Some(if signed && t[0] == '-' then -v else v)
  }
}
