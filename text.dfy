/** Character-level text helpers shared by the event codec and the packet
    renderer: the decimal text `operator<<` writes for an integer, and the
    reading rules of a C++ input stream in the "C" locale (skip whitespace,
    read a signed decimal integer, read one whitespace-delimited word, read
    one character).  A failed extraction is reported as `None`. */
module Text {

  datatype Option<+T> = None | Some(value: T)

  /** The characters `isspace` accepts in the "C" locale. */
  predicate IsSpace(c: char) {
    c == ' ' || c == '\t' || c == '\n' || c == '\r' || c == '\U{B}' || c == '\U{C}'
  }

  predicate IsDigit(c: char) {
    '0' <= c <= '9'
  }

  predicate AllDigits(s: string) {
    forall i :: 0 <= i < |s| ==> IsDigit(s[i])
  }

  /** A word as `operator>>` for strings reads it: non-empty, no whitespace. */
  predicate IsWord(s: string) {
    s != [] && forall i :: 0 <= i < |s| ==> !IsSpace(s[i])
  }

  predicate HasPrefix(s: string, p: string) {
    |p| <= |s| && s[..|p|] == p
  }

  function DigitChar(d: nat): (c: char)
    requires d < 10
    ensures IsDigit(c) && c as int - '0' as int == d
  {
    ('0' as int + d) as char
  }

  function DigitValue(c: char): nat
    requires IsDigit(c)
  {
    c as int - '0' as int
  }

  /** Decimal text of a natural number, most significant digit first, no
      leading zeros. */
  function NatText(n: nat): (s: string)
    ensures |s| >= 1 && AllDigits(s)
    ensures n > 0 ==> s[0] != '0'
    decreases n
  {
    if n < 10 then [DigitChar(n)] else NatText(n / 10) + [DigitChar(n % 10)]
  }

  /** What `operator<<` writes for a signed integer. */
  function IntText(i: int): (s: string)
    ensures |s| >= 1 && !IsSpace(s[0])
    ensures IsWord(s)
    ensures forall k :: 0 <= k < |s| ==> s[k] != '\n'
    ensures s[0] == '-' <==> i < 0
    ensures i < 0 ==> |s| >= 2 && AllDigits(s[1..])
    ensures i >= 0 ==> AllDigits(s)
  {
    if i < 0 then "-" + NatText(-i) else NatText(i)
  }

  /** The value of a run of decimal digits. */
  function DigitsValue(s: string): nat
    requires AllDigits(s)
  {
    if s == [] then 0 else DigitsValue(s[..|s| - 1]) * 10 + DigitValue(s[|s| - 1])
  }

  lemma {:induction false} DigitsValueOfNatText(n: nat)
    ensures DigitsValue(NatText(n)) == n
    decreases n
  {
    if n >= 10 {
      DigitsValueOfNatText(n / 10);
      var s := NatText(n);
      assert s[..|s| - 1] == NatText(n / 10);
    }
  }

  /** The input with its leading whitespace skipped. */
  function SkipSpace(s: string): (r: string)
    ensures |r| <= |s| && r == s[|s| - |r|..]
    ensures forall i :: 0 <= i < |s| - |r| ==> IsSpace(s[i])
    ensures r == [] || !IsSpace(r[0])
  {
    if s != [] && IsSpace(s[0]) then SkipSpace(s[1..]) else s
  }

  /** Length of the leading run of decimal digits. */
  function DigitRun(s: string): (n: nat)
    ensures n <= |s| && AllDigits(s[..n])
    ensures n == |s| || !IsDigit(s[n])
  {
    if s == [] || !IsDigit(s[0]) then 0 else 1 + DigitRun(s[1..])
  }

  /** Length of the leading run of non-whitespace characters. */
  function WordRun(s: string): (n: nat)
    ensures n <= |s| && forall i :: 0 <= i < n ==> !IsSpace(s[i])
    ensures n == |s| || IsSpace(s[n])
  {
    if s == [] || IsSpace(s[0]) then 0 else 1 + WordRun(s[1..])
  }

  /** The longest run of digits at the front and its value; fails when
      there is no digit. */
  function ReadDigits(u: string): (r: Option<(nat, string)>)
    ensures r.Some? ==> |r.value.1| < |u| && r.value.1 == u[|u| - |r.value.1|..]
    ensures r.Some? ==> r.value.1 == [] || !IsDigit(r.value.1[0])
  {
    var k := DigitRun(u);
    if k == 0 then None else Some((DigitsValue(u[..k]), u[k..]))
  }

  /** A decimal integer with an optional leading sign. */
  function ReadSigned(t: string): (r: Option<(int, string)>)
    ensures r.Some? ==> |r.value.1| < |t| && r.value.1 == t[|t| - |r.value.1|..]
    ensures r.Some? ==> r.value.1 == [] || !IsDigit(r.value.1[0])
  {
    if t != [] && (t[0] == '-' || t[0] == '+') then
      match ReadDigits(t[1..])
      case None => None
      case Some((n, rest)) =>
        var v: int := if t[0] == '-' then -(n as int) else n as int;
        Some((v, rest))
    else
      match ReadDigits(t)
      case None => None
      case Some((n, rest)) => Some((n, rest))
  }

  /** `in >> i` for an integer `i`: skip whitespace, take an optional sign,
      then the longest run of digits.  Fails when no digit follows.  The
      width of the integer is not modelled. */
  function ReadInt(s: string): (r: Option<(int, string)>)
    ensures r.Some? ==> |r.value.1| < |s| && r.value.1 == s[|s| - |r.value.1|..]
    ensures r.Some? ==> r.value.1 == [] || !IsDigit(r.value.1[0])
  {
    ReadSigned(SkipSpace(s))
  }

  /** `in >> w` for a string `w`: skip whitespace, then the longest run of
      non-whitespace characters.  Fails when nothing is left. */
  function ReadWord(s: string): (r: Option<(string, string)>)
    ensures r.Some? ==> IsWord(r.value.0) && |r.value.1| < |s|
    ensures r.Some? ==> r.value.1 == [] || IsSpace(r.value.1[0])
  {
    var t := SkipSpace(s);
    var k := WordRun(t);
    if k == 0 then None else Some((t[..k], t[k..]))
  }

  /** `in.get()`: consume exactly one character, whatever it is. */
  function GetChar(s: string): (r: Option<string>)
    ensures r.Some? <==> s != []
    ensures r.Some? ==> r.value == s[1..]
  {
    if s == [] then None else Some(s[1..])
  }

  lemma {:induction false} DigitRunOf(ds: string, rest: string)
    requires AllDigits(ds)
    requires rest == [] || !IsDigit(rest[0])
    ensures DigitRun(ds + rest) == |ds|
    decreases |ds|
  {
    if ds != [] {
      assert (ds + rest)[1..] == ds[1..] + rest;
      DigitRunOf(ds[1..], rest);
    } else {
      assert ds + rest == rest;
    }
  }

  lemma {:induction false} WordRunOf(w: string, rest: string)
    requires forall i :: 0 <= i < |w| ==> !IsSpace(w[i])
    requires rest == [] || IsSpace(rest[0])
    ensures WordRun(w + rest) == |w|
    decreases |w|
  {
    if w != [] {
      assert (w + rest)[1..] == w[1..] + rest;
      WordRunOf(w[1..], rest);
    } else {
      assert w + rest == rest;
    }
  }

  /** A run of digits followed by a non-digit reads as its value. */
  lemma ReadDigitsOf(ds: string, rest: string)
    requires ds != [] && AllDigits(ds)
    requires rest == [] || !IsDigit(rest[0])
    ensures ReadDigits(ds + rest) == Some((DigitsValue(ds), rest))
  {
    DigitRunOf(ds, rest);
    assert (ds + rest)[..|ds|] == ds;
    assert (ds + rest)[|ds|..] == rest;
  }

  lemma ReadDigitsText(m: nat, rest: string)
    requires rest == [] || !IsDigit(rest[0])
    ensures ReadDigits(NatText(m) + rest) == Some((m, rest))
  {
    ReadDigitsOf(NatText(m), rest);
    DigitsValueOfNatText(m);
  }

  /** A minus sign negates the digits that follow it. */
  lemma ReadSignedMinus(u: string, m: nat, rest: string)
    requires ReadDigits(u) == Some((m, rest))
    ensures ReadSigned("-" + u) == Some((-(m as int), rest))
  {
    assert ("-" + u)[1..] == u;
  }

  /** Digits without a sign read as they are. */
  lemma ReadSignedDigits(u: string, m: nat, rest: string)
    requires ReadDigits(u) == Some((m, rest))
    ensures ReadSigned(u) == Some((m, rest))
  {
    assert IsDigit(u[..DigitRun(u)][0]);
  }

  lemma NegativeTextThen(n: int, rest: string)
    requires n < 0
    ensures IntText(n) + rest == "-" + (NatText(-n) + rest)
  {
    assert IntText(n) == "-" + NatText(-n);
  }

  lemma ReadNegativeText(n: int, rest: string)
    requires n < 0
    requires rest == [] || !IsDigit(rest[0])
    ensures ReadSigned(IntText(n) + rest) == Some((n, rest))
  {
    var u := NatText(-n) + rest;
    ReadDigitsText(-n, rest);
    ReadSignedMinus(u, -n, rest);
    NegativeTextThen(n, rest);
  }

  lemma ReadNonNegativeText(n: int, rest: string)
    requires n >= 0
    requires rest == [] || !IsDigit(rest[0])
    ensures ReadSigned(IntText(n) + rest) == Some((n, rest))
  {
    ReadDigitsText(n, rest);
    ReadSignedDigits(NatText(n) + rest, n, rest);
  }

  /** Reading back the text of an integer yields that integer and leaves
      whatever followed it, as long as a non-digit follows. */
  lemma ReadIntText(n: int, rest: string)
    requires rest == [] || !IsDigit(rest[0])
    ensures ReadInt(IntText(n) + rest) == Some((n, rest))
  {
    var s := IntText(n) + rest;
    assert s[0] == IntText(n)[0];
    assert SkipSpace(s) == s;
    if n < 0 {
      ReadNegativeText(n, rest);
    } else {
      ReadNonNegativeText(n, rest);
    }
  }

  /** Leading whitespace does not change what `ReadInt` reads. */
  lemma ReadIntAfterSpace(c: char, s: string)
    requires IsSpace(c)
    ensures ReadInt([c] + s) == ReadInt(s)
  {
    assert ([c] + s)[1..] == s;
    assert SkipSpace([c] + s) == SkipSpace(s);
  }

  /** An integer written after a space reads back the same way. */
  lemma ReadIntSpaced(n: int, rest: string)
    requires rest == [] || !IsDigit(rest[0])
    ensures ReadInt(" " + (IntText(n) + rest)) == Some((n, rest))
  {
    ReadIntAfterSpace(' ', IntText(n) + rest);
    ReadIntText(n, rest);
  }

  /** Reading a word back yields that word when whitespace or the end
      follows it. */
  lemma ReadWordText(w: string, rest: string)
    requires IsWord(w)
    requires rest == [] || IsSpace(rest[0])
    ensures ReadWord(w + rest) == Some((w, rest))
  {
    var s := w + rest;
    assert SkipSpace(s) == s;
    WordRunOf(w, rest);
    assert s[..|w|] == w;
    assert s[|w|..] == rest;
  }
}
