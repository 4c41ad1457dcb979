/** Byte strings as the HTTP code uses them: first occurrence, tokenising,
    case-insensitive comparison and `strtol`. */
module Text {
  import opened Words

  const CRLF: string := "\r\n"

  predicate MatchAt(s: string, needle: string, i: nat) {
    i + |needle| <= |s| && s[i..i + |needle|] == needle
  }

  /** `std::string::find`: the first occurrence at or after `from`. */
  function FindFrom(s: string, needle: string, from: nat): (r: Option<nat>)
    requires from <= |s|
    ensures r.Some? ==> from <= r.value && MatchAt(s, needle, r.value)
    ensures r.Some? ==> forall j: nat | from <= j < r.value :: !MatchAt(s, needle, j)
    ensures r.None? ==> forall j: nat | from <= j :: !MatchAt(s, needle, j)
    decreases |s| - from
  {
    if MatchAt(s, needle, from) then Some(from)
    else if from == |s| then None
    else FindFrom(s, needle, from + 1)
  }

  function Find(s: string, needle: string): (r: Option<nat>)
    ensures r.Some? ==> MatchAt(s, needle, r.value)
    ensures r.Some? ==> forall j: nat | j < r.value :: !MatchAt(s, needle, j)
    ensures r.None? ==> forall j: nat :: !MatchAt(s, needle, j)
  {
    FindFrom(s, needle, 0)
  }

  lemma FirstMatch(s: string, needle: string, k: nat)
    requires MatchAt(s, needle, k) && forall j: nat | j < k :: !MatchAt(s, needle, j)
    ensures Find(s, needle) == Some(k)
  {
    hide MatchAt;
  }

  /** More text at the end never moves an occurrence already found, and an
      occurrence that appears only with the new text ends inside it. */
  lemma FindGrows(s: string, x: string, needle: string)
    ensures Find(s, needle).Some? ==> Find(s + x, needle) == Find(s, needle)
    ensures Find(s, needle).None? && Find(s + x, needle).Some? ==> Find(s + x, needle).value + |needle| > |s|
  {
    forall j: nat | j + |needle| <= |s|
      ensures MatchAt(s + x, needle, j) == MatchAt(s, needle, j)
    {
      assert (s + x)[j..j + |needle|] == s[j..j + |needle|];
    }
  }

  /** A text without the needle, followed by the needle, has it first at the
      seam, provided no earlier overlap is possible; for CRLF none is. */
  lemma FindLineEnd(line: string, rest: string)
    requires Find(line, CRLF).None?
    ensures Find(line + CRLF + rest, CRLF) == Some(|line|)
  {
    var s := line + CRLF + rest;
    assert s[|line|..|line| + 2] == CRLF;
    assert MatchAt(s, CRLF, |line|);
    forall j: nat | j < |line|
      ensures !MatchAt(s, CRLF, j)
    {
      if j + 2 <= |line| {
        assert s[j..j + 2] == line[j..j + 2];
        assert !MatchAt(line, CRLF, j);
      } else {
        assert s[j..j + 2][1] == CRLF[0];
      }
    }
  }

  // ----- case-insensitive comparison (http_message.cc) -----

  function ToLower(c: char): char {
    if 'A' <= c <= 'Z' then ((c as int) + 32) as char else c
  }

  function StripInitialSpace(s: string): (r: string)
    ensures |r| <= |s| && s[|s| - |r|..] == r
    ensures r != "" ==> r[0] != ' '
    ensures forall i | 0 <= i < |s| - |r| :: s[i] == ' '
  {
    if s == "" then "" else if s[0] == ' ' then StripInitialSpace(s[1..]) else s
  }

  predicate EquivalentStrings(a: string, b: string) {
    var x, y := StripInitialSpace(a), StripInitialSpace(b);
    |x| == |y| && forall i | 0 <= i < |x| :: ToLower(x[i]) == ToLower(y[i])
  }

  // ----- tokenize.hh -----

  /** `split` for a one-character separator. */
  function Split(s: string, sep: char): (r: seq<string>)
    ensures |r| >= 1
  {
    match Find(s, [sep])
    case None => [s]
    case Some(k) =>
      assert s[k..k + 1] == [sep];
      [s[..k]] + Split(s[k + 1..], sep)
  }

  // ----- strtol, as myatoi uses it -----

  function DigitValue(c: char): int {
    if '0' <= c <= '9' then (c as int) - ('0' as int)
    else if 'a' <= c <= 'z' then (c as int) - ('a' as int) + 10
    else if 'A' <= c <= 'Z' then (c as int) - ('A' as int) + 10
    else 99
  }

  predicate AllDigits(s: string, base: int) {
    forall i | 0 <= i < |s| :: DigitValue(s[i]) < base
  }

  function Digits(s: string, base: int): nat
    requires 2 <= base <= 36 && AllDigits(s, base)
  {
    if s == "" then 0 else base * Digits(s[..|s| - 1], base) + DigitValue(s[|s| - 1])
  }

  predicate IsSpace(c: char) {
    c == ' ' || c == '\t' || c == '\n' || c == '\r' || c as int == 11 || c as int == 12
  }

  function SkipSpace(s: string): string {
    if s != "" && IsSpace(s[0]) then SkipSpace(s[1..]) else s
  }

  const LONG_LIMIT: int := 0x8000_0000_0000_0000

  /** `myatoi`: the whole text must be a number that fits a 64-bit long;
      leading white space, a sign and, in base 16, "0x" are accepted. */
  function Myatoi(s: string, base: int): (r: Option<int>)
    requires base == 10 || base == 16
    ensures r.Some? ==> -LONG_LIMIT <= r.value < LONG_LIMIT
    ensures s == "" ==> r.None?
  {
    var t := SkipSpace(s);
    var negative := t != "" && t[0] == '-';
    var u := if t != "" && (t[0] == '-' || t[0] == '+') then t[1..] else t;
    var w := if base == 16 && |u| > 2 && u[0] == '0' && (u[1] == 'x' || u[1] == 'X') then u[2..] else u;
    if w == "" || !AllDigits(w, base) then None
    else
      var n: int := if negative then 0 - Digits(w, base) else Digits(w, base);
      if -LONG_LIMIT <= n < LONG_LIMIT then Some(n) else None
  }

  // ----- numbers as they are written -----

  /** Digits beyond nine are letters, small or capital. */
  function DigitChar(d: nat, capital: bool): char
    requires d < 16
  {
    if d < 10 then (('0' as int) + d) as char else ((if capital then 'A' else 'a') as int + d - 10) as char
  }

  function Written(n: nat, base: int, capital: bool): (s: string)
    requires base == 10 || base == 16
    ensures s != ""
  {
    var last := [DigitChar(n % base, capital)];
    if n < base then last else Written(n / base, base, capital) + last
  }

  lemma {:induction false} WrittenDigits(n: nat, base: int, capital: bool)
    requires base == 10 || base == 16
    ensures AllDigits(Written(n, base, capital), base) && Digits(Written(n, base, capital), base) == n
  {
    hide Digits, DigitChar, DigitValue;
    var d := n % base;
    DigitIsRead(d, capital);
    if n < base {
      LastDigit("", DigitChar(d, capital), base);
      assert "" + [DigitChar(d, capital)] == [DigitChar(d, capital)];
    } else {
      WrittenDigits(n / base, base, capital);
      LastDigit(Written(n / base, base, capital), DigitChar(d, capital), base);
    }
  }

  lemma DigitIsRead(d: nat, capital: bool)
    requires d < 16
    ensures DigitValue(DigitChar(d, capital)) == d
  {
  }

  lemma {:induction false} LastDigit(front: string, c: char, base: int)
    requires (base == 10 || base == 16) && AllDigits(front, base) && 0 <= DigitValue(c) < base
    ensures AllDigits(front + [c], base) && Digits(front + [c], base) == base * Digits(front, base) + DigitValue(c)
    ensures Digits("", base) == 0
  {
    hide DigitValue;
    assert (front + [c])[..|front|] == front;
  }

  /** A number that fits a `long` is read back from its digits. */
  lemma {:induction false} NumberIsRead(n: nat, base: int, capital: bool)
    requires (base == 10 || base == 16) && n < LONG_LIMIT
    ensures Myatoi(Written(n, base, capital), base) == Some(n)
  {
    hide Digits, Written;
    WrittenDigits(n, base, capital);
    var s := Written(n, base, capital);
    assert DigitValue(s[0]) < base && (|s| > 1 ==> DigitValue(s[1]) < base);
    assert SkipSpace(s) == s;
  }
}
