/** The chunked body of RFC 2616 section 3.6.1, header lines unfolded, beside the
    form the decoder accepts; and streams on which the program errs. */
module ChunkedForm {
  import opened Words
  import opened Text
  import opened ChunkedParser
  import opened ChunkedFraming

  // ----- size lines -----

  /** Spaces, then chunk extensions. */
  predicate IsSizeTail(tail: string) {
    tail == "" || tail[0] == ';' || (tail[0] == ' ' && IsSizeTail(tail[1..]))
  }

  /** `1*HEX [ chunk-extension ]`, without the CRLF, for the number `n`. */
  predicate IsSize(digits: string, tail: string, n: nat) {
    && digits != "" && AllDigits(digits, 16) && Digits(digits, 16) == n
    && IsSizeTail(tail) && Find(tail, CRLF).None?
  }

  ghost predicate IsSizeLine(line: string, n: nat) {
    exists k | 0 <= k <= |line| :: IsSize(line[..k], line[k..], n)
  }

  lemma FindChar(s: string, c: char, k: nat)
    requires k < |s| && s[k] == c && c !in s[..k]
    ensures Find(s, [c]) == Some(k)
  {
    assert MatchAt(s, [c], k) by { assert s[k..k + 1] == [c]; }
    forall j: nat | j < k
      ensures !MatchAt(s, [c], j)
    {
      assert s[j..j + 1][0] == s[..k][j];
    }
    FirstMatch(s, [c], k);
  }

  lemma FindAbsent(s: string, needle: string)
    requires needle != ""
    ensures needle[0] !in s ==> Find(s, needle).None?
  {
    if Find(s, needle).Some? {
      var j := Find(s, needle).value;
      assert s[j] == s[j..j + |needle|][0] == needle[0];
    }
  }

  lemma HexCharacters(digits: string)
    requires AllDigits(digits, 16)
    ensures ' ' !in digits && ';' !in digits && '\r' !in digits
  {
  }

  lemma NoLineEnd(digits: string, tail: string)
    requires AllDigits(digits, 16) && Find(tail, CRLF).None?
    ensures Find(digits + tail, CRLF).None?
  {
    HexCharacters(digits);
    var s := digits + tail;
    if Find(s, CRLF).Some? {
      var j := Find(s, CRLF).value;
      assert s[j..j + 2][0] == s[j];
      assert s[j..j + 2] == tail[j - |digits|..j - |digits| + 2];
      assert MatchAt(tail, CRLF, j - |digits|);
    }
  }

  lemma {:induction false} HexNumber(digits: string)
    requires digits != "" && AllDigits(digits, 16) && Digits(digits, 16) < LONG_LIMIT
    ensures Myatoi(digits, 16) == Some(Digits(digits, 16))
  {
    hide Digits;
    assert SkipSpace(digits) == digits;
    assert |digits| > 1 ==> digits[1] != 'x' && digits[1] != 'X';
  }

  /** What `GetChunkSize` cuts out of a size line are its digits. */
  lemma CutsDigits(digits: string, tail: string, n: nat)
    requires IsSize(digits, tail, n)
    ensures var h := digits + tail + CRLF; var stop := match Find(h, ";") { case Some(k) => k case None => |digits + tail| };
            && |digits| <= stop <= |digits + tail|
            && (match Find(h[..stop], " ") case Some(k) => h[..stop][..k] case None => h[..stop]) == digits
  {
    hide Digits, AllDigits, Find;
    HexCharacters(digits);
    var h := digits + tail + CRLF;
    FindAbsent(h, ";");
    if tail == "" {
      assert h[..|digits|] == digits;
      FindAbsent(digits, " ");
    } else if tail[0] == ';' {
      assert h[..|digits|] == digits;
      FindChar(h, ';', |digits|);
      FindAbsent(digits, " ");
    } else {
      CutsAtSpace(digits, tail);
    }
  }

  lemma CutsAtSpace(digits: string, tail: string)
    requires ' ' !in digits && ';' !in digits && tail != "" && tail[0] == ' '
    ensures var h := digits + tail + CRLF; var stop := match Find(h, ";") { case Some(k) => k case None => |digits + tail| };
            |digits| < stop <= |digits + tail| && Find(h[..stop], " ") == Some(|digits|) && h[..stop][..|digits|] == digits
  {
    var h := digits + tail + CRLF;
    var stop := match Find(h, ";") { case Some(k) => k case None => |digits + tail| };
    assert Find(h, ";").Some? ==> h[stop..stop + 1][0] == h[stop] == ';';
    assert h[..stop][..|digits|] == digits;
    FindChar(h[..stop], ' ', |digits|);
  }

  /** The size read from a size line is the number its digits denote, narrowed. */
  lemma SizeIsRead(line: string, n: nat)
    requires IsSizeLine(line, n) && n < LONG_LIMIT
    ensures IsHeader(line, n % U32)
  {
    hide Digits, AllDigits, Find, IsSizeTail, Myatoi;
    var k :| 0 <= k <= |line| && IsSize(line[..k], line[k..], n);
    var digits, tail := line[..k], line[k..];
    assert line == digits + tail;
    NoLineEnd(digits, tail);
    FindLineEnd(line, "");
    assert line + CRLF + "" == line + CRLF;
    CutsDigits(digits, tail, n);
    HexNumber(digits);
  }

  // ----- trailers -----

  /** A header field's text: a line that is not blank. */
  predicate IsField(field: string) {
    field != "" && Find(field, CRLF).None?
  }

  /** `trailer CRLF`, where the trailer is `*(entity-header CRLF)`. */
  function TrailerText(fields: seq<string>): (r: string)
    ensures |r| >= 2
  {
    if fields == [] then CRLF else fields[0] + CRLF + TrailerText(fields[1..])
  }

  const BLANK: string := "\r\n\r\n"

  lemma BlankIsTwoEnds(s: string, j: nat)
    ensures MatchAt(s, BLANK, j) <==> MatchAt(s, CRLF, j) && MatchAt(s, CRLF, j + 2)
  {
    if j + 4 <= |s| {
      assert s[j..j + 4] == s[j..j + 2] + s[j + 2..j + 4];
      assert BLANK == CRLF + CRLF;
      assert s[j..j + 4][..2] == s[j..j + 2] && s[j..j + 4][2..] == s[j + 2..j + 4];
      assert BLANK[..2] == CRLF && BLANK[2..] == CRLF;
    }
  }

  /** A line end strictly behind the one at `k` starts at `k + 2` or later. */
  lemma EndsDoNotOverlap(s: string, k: nat, j: nat)
    requires MatchAt(s, CRLF, k) && j > k && MatchAt(s, CRLF, j)
    ensures j >= k + 2
  {
    assert s[k..k + 2][1] == s[k + 1] && s[j..j + 2][0] == s[j];
  }

  lemma MatchInTail(s: string, n: nat, needle: string, j: nat)
    requires n <= j && n <= |s|
    ensures MatchAt(s, needle, j) == MatchAt(s[n..], needle, j - n)
  {
    if j + |needle| <= |s| {
      assert s[j..j + |needle|] == s[n..][j - n..j - n + |needle|];
    }
  }

  /** The first blank line behind a field: right behind it, or in what follows. */
  lemma BlankAfter(field: string, more: string)
    requires IsField(field)
    ensures var s := field + CRLF + more;
            if MatchAt(more, CRLF, 0) then Find(s, BLANK) == Some(|field|)
            else Find(more, BLANK).Some? ==> Find(s, BLANK) == Some(|field| + 2 + Find(more, BLANK).value)
  {
    hide MatchAt;
    var s, n := field + CRLF + more, |field| + 2;
    FindLineEnd(field, more);
    assert s[n..] == more;
    forall j: nat | j < n
      ensures MatchAt(s, BLANK, j) <==> j == |field| && MatchAt(more, CRLF, 0)
    {
      BlankIsTwoEnds(s, j);
      MatchInTail(s, n, CRLF, n);
      if MatchAt(s, CRLF, j) && j > |field| { EndsDoNotOverlap(s, |field|, j); }
    }
    forall j: nat | n <= j
      ensures MatchAt(s, BLANK, j) == MatchAt(more, BLANK, j - n)
    {
      MatchInTail(s, n, BLANK, j);
    }
    if MatchAt(more, CRLF, 0) {
      FirstMatch(s, BLANK, |field|);
    } else if Find(more, BLANK).Some? {
      FirstMatch(s, BLANK, n + Find(more, BLANK).value);
    }
  }

  /** The trailer's own blank line is the first one, if there is a field. */
  lemma {:induction false} FindsBlankLine(fields: seq<string>, rest: string)
    requires fields != [] && forall f | f in fields :: IsField(f)
    ensures |TrailerText(fields)| >= 4 && Find(TrailerText(fields) + rest, BLANK) == Some(|TrailerText(fields)| - 4)
    decreases |fields|
  {
    hide MatchAt, Find, TrailerText, IsField;
    assert fields[0] in fields;
    FirstField(fields, rest);
    BlankAfter(fields[0], TrailerText(fields[1..]) + rest);
    if |fields| == 1 {
      LineEndFirst(rest);
    } else {
      assert fields[1] in fields && fields[1..][0] == fields[1];
      FirstField(fields[1..], rest);
      FieldFirst(fields[1], TrailerText(fields[1..][1..]) + rest);
      FindsBlankLine(fields[1..], rest);
    }
  }

  lemma {:induction false} FirstField(fields: seq<string>, rest: string)
    requires fields != []
    ensures TrailerText(fields) + rest == fields[0] + CRLF + (TrailerText(fields[1..]) + rest)
    ensures |TrailerText(fields)| == |fields[0]| + 2 + |TrailerText(fields[1..])|
    ensures |fields| == 1 ==> TrailerText(fields[1..]) == CRLF
  {
  }

  lemma LineEndFirst(rest: string)
    ensures MatchAt(CRLF + rest, CRLF, 0)
  {
    assert (CRLF + rest)[0..2] == CRLF;
  }

  lemma FieldFirst(field: string, more: string)
    requires IsField(field)
    ensures !MatchAt(field + CRLF + more, CRLF, 0)
  {
    hide MatchAt;
    FindLineEnd(field, more);
  }

  // ----- whole bodies -----

  ghost predicate IsRfcChunk(p: DataChunk) {
    p.data != "" && IsSizeLine(p.header, |p.data|)
  }

  ghost predicate IsRfcBody(ps: seq<DataChunk>, last: string, fields: seq<string>) {
    (forall p | p in ps :: IsRfcChunk(p)) && IsSizeLine(last, 0) && forall f | f in fields :: IsField(f)
  }

  function RfcText(ps: seq<DataChunk>, last: string, fields: seq<string>): string {
    BodyText(ps, last, TrailerText(fields))
  }

  /** The chunks of a body whose chunks are not oversize are taken one by one, and
      the decoder comes to the trailer. */
  lemma {:induction false} ComesToTrailer(ps: seq<DataChunk>, last: string, more: string, trailers: bool)
    requires IsSizeLine(last, 0) && forall p | p in ps :: IsRfcChunk(p) && |p.data| < U32 - 2
    ensures var s := BodyText(ps, last, more); var d := Config(Trailer, 0, |s| - |more|);
            s[d.pos..] == more && Decode(s, trailers) == Run(d, s, trailers)
  {
    hide Run, IsHeader, IsSizeLine, EncodeChunks;
    var s := BodyText(ps, last, more);
    SizeIsRead(last, 0);
    forall p | p in ps
      ensures IsDataChunk(p)
    {
      SizeIsRead(p.header, |p.data|);
    }
    assert s[0..] == s == EncodeChunks(ps) + (last + CRLF + more);
    TakesChunks(s, INITIAL, ps, last, more, trailers);
  }

  /** The decoder ends at the end of an RFC 2616 body, whatever follows, exactly
      when trailer fields are announced if there are any: it takes an announced
      trailer for one with a field, and cuts an unannounced one off behind its
      first field. */
  lemma EndsAtRfcBodyIff(ps: seq<DataChunk>, last: string, fields: seq<string>, rest: string, trailers: bool)
    requires IsRfcBody(ps, last, fields) && forall p | p in ps :: |p.data| < U32 - 2
    ensures var s, end := RfcText(ps, last, fields) + rest, |RfcText(ps, last, fields)|;
            && (Decode(s, trailers) == Done(end) <==> (trailers <==> fields != []))
            && (!trailers && fields != [] ==> Decode(s, trailers) == Done(end - |TrailerText(fields[1..])|))
            && (trailers && fields == [] && Decode(s, trailers).Done? ==> Decode(s, trailers).end >= end + 2)
  {
    hide Run, Find, IsSizeLine, IsField, BodyText, TrailerText, StepBuffer;
    var s, t := RfcText(ps, last, fields) + rest, TrailerText(fields);
    BodyThen(ps, last, t, rest);
    ComesToTrailer(ps, last, t + rest, trailers);
    var d := Config(Trailer, 0, |s| - |t + rest|);
    OneStep(d, s, t + rest, trailers);
    EndsTrailer(fields, rest, trailers, d);
  }

  lemma BodyThen(ps: seq<DataChunk>, last: string, t: string, rest: string)
    ensures BodyText(ps, last, t) + rest == BodyText(ps, last, t + rest)
    ensures |BodyText(ps, last, t + rest)| >= |t + rest|
  {
    hide EncodeChunks;
  }

  /** The step at the trailer. */
  lemma {:induction false} EndsTrailer(fields: seq<string>, rest: string, trailers: bool, d: Config)
    requires d.phase == Trailer && forall f | f in fields :: IsField(f)
    ensures var r, end := StepBuffer(d, TrailerText(fields) + rest, trailers), d.pos + |TrailerText(fields)|;
            && !r.Move? && !r.Fail?
            && (r == Finish(end) <==> (trailers <==> fields != []))
            && (!trailers && fields != [] ==> r == Finish(end - |TrailerText(fields[1..])|))
            && (trailers && fields == [] && r.Finish? ==> r.end >= end + 2)
  {
    hide Find, IsField;
    FirstLineEnd(fields, rest);
    if fields != [] {
      FirstField(fields, rest);
      FindsBlankLine(fields, rest);
    }
  }

  lemma {:induction false} FirstLineEnd(fields: seq<string>, rest: string)
    requires forall f | f in fields :: IsField(f)
    ensures Find(TrailerText(fields) + rest, CRLF) == Some(if fields == [] then 0 else |fields[0]|)
  {
    hide MatchAt;
    if fields == [] {
      LineEndFirst(rest);
    } else {
      assert fields[0] in fields;
      FindLineEnd(fields[0], TrailerText(fields[1..]) + rest);
      FirstField(fields, rest);
    }
  }

  /** An RFC 2616 body on which the decoder waits for ever. */
  lemma BlankTrailerNeverEnds()
    ensures Decode("0\r\n\r\n", true) == Pending(Config(Trailer, 0, 3))
  {
    hide Run, Find, IsSizeLine;
    ZeroLine();
    assert BodyText([], "0", CRLF) == "0\r\n\r\n";
    ComesToTrailer([], "0", CRLF, true);
    OneStep(Config(Trailer, 0, 3), "0\r\n\r\n", CRLF, true);
  }

  /** And one that it ends two bytes early. */
  lemma FieldsAreCutOff()
    ensures Decode("0\r\nA: b\r\n\r\n", false) == Done(9)
  {
    hide Run, Find, IsSizeLine;
    ZeroLine();
    var fields := ["A: b"];
    FindAbsent("A: b", CRLF);
    assert TrailerText(fields) == "A: b\r\n\r\n" by { assert fields[1..] == []; }
    assert RfcText([], "0", fields) + "" == "0\r\nA: b\r\n\r\n";
    EndsAtRfcBodyIff([], "0", fields, "", false);
    assert fields[1..] == [];
  }

  lemma ZeroLine()
    ensures IsSizeLine("0", 0)
  {
    FindAbsent("", CRLF);
    assert "0"[..1] == "0" && "0"[1..] == "";
    assert IsSize("0"[..1], "0"[1..], 0);
  }

  // ----- oversize chunks -----

  /** A stream longer than four gigabytes whose framing depends on its pieces:
      its first chunk announces 2^32 - 2 bytes, plus two wraps to none, and the
      decoder takes the chunk's data for the next header. */
  function WrappingStream(filler: string): string {
    "fffffffe\r\n" + ("0\r\n\r\n" + filler) + CRLF
  }

  lemma FragmentsCanMatter(filler: string)
    requires |filler| == U32 - 2 - 5
    ensures Oversize(INITIAL, WrappingStream(filler), false)
    ensures Decode(WrappingStream(filler), false) == Done(15)
    ensures !Independent(WrappingStream(filler), false)
  {
    hide GetChunkSize, Find, StepHeader, Run, IsHeader, IsSizeLine, Oversize, Independent;
    var s := WrappingStream(filler);
    var tail := "0\r\n\r\n" + filler + CRLF;
    assert s[0..] == s == "fffffffe" + CRLF + tail;
    EightDigits();
    SizeIsRead("fffffffe", U32 - 2);
    ZeroLine();
    SizeIsRead("0", 0);
    HeaderStep(0, "fffffffe", tail, U32 - 2);
    OneStep(INITIAL, s, s[0..], false);
    var c1 := Config(Chunk, U32 - 2, 10);
    assert s[10..] == tail;
    StepIsOversize(s, c1);
    assert CrlfAfter(tail, U32 - 2) by { assert tail[U32 - 2..U32] == CRLF; }
    OneStep(c1, s, tail, false);
    assert IsTrailer(CRLF, false) by { assert MatchAt(CRLF, CRLF, 0); }
    assert tail == BodyText([], "0", CRLF) + (filler + CRLF);
    DecodesBody(s, Config(ChunkHdr, U32 - 2, 10), [], "0", CRLF, filler + CRLF, false);
    FramingIndependentIff(s, false);
  }

  lemma {:induction false} StepIsOversize(s: string, c: Config)
    requires c.pos <= |s| && Step(INITIAL, s, false) == Move(c)
    requires c.phase == Chunk && c.size + 2 >= U32 && c.pos < |s|
    ensures Oversize(INITIAL, s, false)
  {
    hide Step;
  }

  /** One digit more. */
  lemma {:induction false} AppendDigit(digits: string, c: char)
    requires AllDigits(digits, 16) && DigitValue(c) < 16
    ensures AllDigits(digits + [c], 16) && Digits(digits + [c], 16) == 16 * Digits(digits, 16) + DigitValue(c)
  {
    assert (digits + [c])[..|digits|] == digits;
  }

  /** The number of a run of `f`s. */
  lemma {:induction false} Effs(digits: string)
    requires forall i | 0 <= i < |digits| :: digits[i] == 'f'
    ensures AllDigits(digits, 16) && Digits(digits, 16) == Sixteens(|digits|) - 1
    decreases |digits|
  {
    hide Digits;
    if digits == "" {
      assert Digits(digits, 16) == 0 by { NoDigits(); }
    } else {
      var n := |digits| - 1;
      Effs(digits[..n]);
      AppendDigit(digits[..n], 'f');
      assert digits == digits[..n] + ['f'] by { assert digits[n] == 'f'; }
    }
  }

  lemma NoDigits()
    ensures Digits("", 16) == 0
  {
  }

  function Sixteens(n: nat): nat {
    if n == 0 then 1 else 16 * Sixteens(n - 1)
  }

  lemma EightDigits()
    ensures IsSizeLine("fffffffe", U32 - 2)
  {
    hide Digits;
    Effs("fffffff");
    assert Sixteens(2) == 256;
    assert Sixteens(4) == 65536;
    assert Sixteens(6) == 0x100_0000;
    AppendDigit("fffffff", 'e');
    assert "fffffff" + ['e'] == "fffffffe";
    FindAbsent("", CRLF);
    assert "fffffffe"[..8] == "fffffffe" && "fffffffe"[8..] == "";
    assert IsSize("fffffffe", "", U32 - 2);
  }
}
