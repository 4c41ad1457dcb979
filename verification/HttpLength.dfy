/** Where the body of a message ends: the rules of RFC 2616 section 4.4 as
    http_response.cc and http_request.cc apply them, stated on the text of the
    message and on what the sequence parser takes from the bytes that follow. */
module HttpLength {
  import opened Words
  import opened Text
  import opened ChunkedParser
  import opened HttpMessage
  import opened HttpSequence
  import opened HttpPipeline

  // ----- names -----

  predicate SameLetter(c: char, d: char) {
    || c == d
    || ('A' <= c <= 'Z' && d as int == c as int + 32)
    || ('A' <= d <= 'Z' && c as int == d as int + 32)
  }

  predicate SameLetters(a: string, b: string) {
    |a| == |b| && forall i | 0 <= i < |a| :: SameLetter(a[i], b[i])
  }

  /** What is left of a text behind its leading spaces. */
  predicate IsRest(s: string, i: nat) {
    i <= |s| && (forall j | 0 <= j < i :: s[j] == ' ') && (i < |s| ==> s[i] != ' ')
  }

  /** The same text but for letter case and leading spaces. */
  ghost predicate SameName(a: string, b: string) {
    exists i: nat, j: nat :: IsRest(a, i) && IsRest(b, j) && SameLetters(a[i..], b[j..])
  }

  lemma {:induction false} StripsToRest(s: string, i: nat)
    requires IsRest(s, i)
    ensures StripInitialSpace(s) == s[i..]
    decreases i
  {
    if i > 0 {
      StripsToRest(s[1..], i - 1);
      assert s[1..][i - 1..] == s[i..];
    } else {
      assert s[0..] == s;
    }
  }

  lemma RestOf(s: string) returns (i: nat)
    ensures IsRest(s, i) && StripInitialSpace(s) == s[i..]
  {
    i := |s| - |StripInitialSpace(s)|;
  }

  lemma EquivalentIff(a: string, b: string)
    ensures EquivalentStrings(a, b) <==> SameName(a, b)
  {
    hide StripInitialSpace;
    var i := RestOf(a);
    var j := RestOf(b);
    LettersIff(a[i..], b[j..]);
    if SameName(a, b) {
      var i': nat, j': nat :| IsRest(a, i') && IsRest(b, j') && SameLetters(a[i'..], b[j'..]);
      StripsToRest(a, i');
      StripsToRest(b, j');
    }
  }

  lemma LettersIff(x: string, y: string)
    ensures SameLetters(x, y) <==> |x| == |y| && forall i | 0 <= i < |x| :: ToLower(x[i]) == ToLower(y[i])
  {
    if |x| == |y| {
      assert forall i | 0 <= i < |x| :: SameLetter(x[i], y[i]) == (ToLower(x[i]) == ToLower(y[i]));
    }
  }

  // ----- headers -----

  /** The first header of that name has the value `v`. */
  ghost predicate HasValue(hs: seq<Header>, name: string, v: string) {
    exists i | 0 <= i < |hs| ::
      hs[i].value == v && SameName(hs[i].key, name) && forall j | 0 <= j < i :: !SameName(hs[j].key, name)
  }

  ghost predicate Lacks(hs: seq<Header>, name: string) {
    forall i | 0 <= i < |hs| :: !SameName(hs[i].key, name)
  }

  lemma {:induction false} LookUp(hs: seq<Header>, name: string)
    ensures Lacks(hs, name) <==> HeaderValue(hs, name).None?
    ensures forall v :: HasValue(hs, name, v) <==> HeaderValue(hs, name) == Some(v)
  {
    hide SameName, EquivalentStrings;
    forall i | 0 <= i < |hs|
      ensures EquivalentStrings(hs[i].key, name) == SameName(hs[i].key, name)
    {
      EquivalentIff(hs[i].key, name);
    }
    if HeaderValue(hs, name).Some? {
      var k := FirstValueCounts(hs, name);
      forall v
        ensures HasValue(hs, name, v) <==> v == hs[k].value
      {
        if HasValue(hs, name, v) {
          var i :| 0 <= i < |hs| && hs[i].value == v && SameName(hs[i].key, name) && forall j | 0 <= j < i :: !SameName(hs[j].key, name);
          assert i == k;
        }
      }
    } else {
      assert forall i | 0 <= i < |hs| :: hs[i] in hs;
    }
  }

  // ----- lists -----

  /** No `sep` from `i` up to `j`. */
  predicate Free(s: string, sep: char, i: nat, j: nat)
    requires j <= |s|
  {
    forall m | i <= m < j :: s[m] != sep
  }

  /** The text in front of the first separator. */
  predicate FirstItem(s: string, sep: char, item: string) {
    item <= s && Free(s, sep, 0, |item|) && (|item| < |s| ==> s[|item|] == sep)
  }

  /** The text behind the last separator. */
  predicate LastItem(s: string, sep: char, item: string) {
    && |item| <= |s| && s[|s| - |item|..] == item
    && Free(item, sep, 0, |item|) && (|item| < |s| ==> s[|s| - |item| - 1] == sep)
  }

  lemma {:induction false} FindSeparator(s: string, sep: char)
    ensures match Find(s, [sep])
            case None => Free(s, sep, 0, |s|) && Split(s, sep) == [s]
            case Some(k) => k < |s| && s[k] == sep && Free(s, sep, 0, k) && Split(s, sep) == [s[..k]] + Split(s[k + 1..], sep)
  {
    forall j: nat | j < |s|
      ensures MatchAt(s, [sep], j) == (s[j] == sep)
    {
      assert s[j..j + 1] == [s[j]];
    }
  }

  lemma {:induction false} SplitFirst(s: string, sep: char)
    ensures FirstItem(s, sep, Split(s, sep)[0])
  {
    hide Split, Find;
    FindSeparator(s, sep);
  }

  lemma {:induction false} SplitLast(s: string, sep: char)
    ensures var items := Split(s, sep); LastItem(s, sep, items[|items| - 1])
    decreases |s|
  {
    hide Split, Find;
    FindSeparator(s, sep);
    match Find(s, [sep])
    case None => assert s[0..] == s;
    case Some(k) =>
      var rest := s[k + 1..];
      SplitLast(rest, sep);
      var items := Split(rest, sep);
      LastOfRest(s, sep, k, items[|items| - 1]);
  }

  lemma LastOfRest(s: string, sep: char, k: nat, item: string)
    requires k < |s| && s[k] == sep && LastItem(s[k + 1..], sep, item)
    ensures LastItem(s, sep, item)
  {
    hide Free;
    var rest := s[k + 1..];
    var i := |rest| - |item|;
    assert s[k + 1 + i..] == rest[i..];
    assert i > 0 ==> rest[i - 1] == s[k + i];
  }

  lemma LastIsUnique(s: string, sep: char, x: string, y: string)
    requires LastItem(s, sep, x) && LastItem(s, sep, y)
    ensures x == y
  {
    assert |x| == |y|;
  }

  lemma FirstIsUnique(s: string, sep: char, x: string, y: string)
    requires FirstItem(s, sep, x) && FirstItem(s, sep, y)
    ensures x == y
  {
    assert |x| == |y|;
  }

  // ----- header lines -----

  /** What is behind the leading spaces, or those spaces if there is nothing else. */
  ghost predicate ValueOf(text: string, value: string) {
    exists i: nat :: IsRest(text, i) && value == if i < |text| then text[i..] else text
  }

  lemma {:induction false} ValueIff(text: string, value: string)
    ensures var stripped := StripInitialSpace(text); ValueOf(text, value) <==> value == if stripped == "" then text else stripped
  {
    hide StripInitialSpace, IsRest;
    var i := RestOf(text);
    if ValueOf(text, value) {
      var j: nat :| IsRest(text, j) && value == if j < |text| then text[j..] else text;
      RestIsUnique(text, i, j);
    }
  }

  lemma RestIsUnique(s: string, i: nat, j: nat)
    requires IsRest(s, i) && IsRest(s, j)
    ensures i == j && i <= |s|
  {
  }

  /** The key is the text in front of the first colon, the value what is behind it. */
  ghost predicate ReadsAs(line: string, h: Header) {
    FirstItem(line, ':', h.key) && |h.key| < |line| && ValueOf(line[|h.key| + 1..], h.value)
  }

  lemma HeaderIff(line: string, h: Header)
    ensures ParseHeader(line) == Some(h) <==> ReadsAs(line, h)
  {
    hide Split, Find, StripInitialSpace, ValueOf, FirstItem;
    FindSeparator(line, ':');
    assert ":" == [':'];
    match Find(line, ":")
    case None => if FirstItem(line, ':', h.key) { NoItem(line, ':', h.key); }
    case Some(k) =>
      ItemUpTo(line, ':', k);
      ValueIff(line[k + 1..], h.value);
      if FirstItem(line, ':', h.key) { FirstIsUnique(line, ':', h.key, line[..k]); }
  }

  lemma NoItem(s: string, sep: char, item: string)
    requires Free(s, sep, 0, |s|) && FirstItem(s, sep, item)
    ensures |item| >= |s|
  {
  }

  lemma ItemUpTo(s: string, sep: char, k: nat)
    requires k < |s| && s[k] == sep && Free(s, sep, 0, k)
    ensures FirstItem(s, sep, s[..k])
  {
  }

  // ----- status lines -----

  /** The code stands between the first two spaces of the line. */
  predicate CodeAt(line: string, i: nat, j: nat) {
    i < j < |line| && line[i] == ' ' == line[j] && Free(line, ' ', 0, i) && Free(line, ' ', i + 1, j)
  }

  ghost predicate HasCode(line: string, code: string) {
    exists i: nat, j: nat :: CodeAt(line, i, j) && code == line[i + 1..j]
  }

  lemma CodeAtIsUnique(line: string, i: nat, j: nat, i': nat, j': nat)
    requires CodeAt(line, i, j) && CodeAt(line, i', j')
    ensures i == i' && j == j'
  {
  }

  lemma CodeOf(line: string) returns (i: nat, j: nat)
    ensures StatusCode(line).Some? ==> CodeAt(line, i, j) && StatusCode(line) == Some(line[i + 1..j])
    ensures StatusCode(line).None? ==> forall a: nat, b: nat :: !CodeAt(line, a, b)
  {
    hide Split, Find;
    i, j := 0, 0;
    FindSeparator(line, ' ');
    match Find(line, [' '])
    case None =>
    case Some(k) =>
      var rest := line[k + 1..];
      FindSeparator(rest, ' ');
      assert forall m | 0 <= m < |rest| :: rest[m] == line[k + 1 + m];
      i := k;
      match Find(rest, [' ']) {
        case None => NoSecondSpace(line, k);
        case Some(l) =>
          j := k + 1 + l;
          assert line[k + 1..j] == rest[..l];
          forall m | k + 1 <= m < j
            ensures line[m] != ' '
          {
            assert line[m] == rest[m - k - 1];
          }
      }
  }

  lemma NoSecondSpace(line: string, k: nat)
    requires k < |line| && line[k] == ' ' && Free(line, ' ', 0, k) && Free(line[k + 1..], ' ', 0, |line| - k - 1)
    ensures forall a: nat, b: nat :: !CodeAt(line, a, b)
  {
    var rest := line[k + 1..];
    forall m | k + 1 <= m < |line|
      ensures line[m] != ' '
    {
      assert line[m] == rest[m - k - 1];
    }
  }

  lemma CodeIff(line: string)
    ensures forall code :: HasCode(line, code) <==> StatusCode(line) == Some(code)
  {
    hide StatusCode;
    var i, j := CodeOf(line);
    forall code | HasCode(line, code)
      ensures StatusCode(line) == Some(code)
    {
      var i': nat, j': nat :| CodeAt(line, i', j') && code == line[i' + 1..j'];
      assert StatusCode(line).Some?;
      CodeAtIsUnique(line, i, j, i', j');
    }
  }

  // ----- decimal numbers -----

  predicate Numeral(w: string) {
    w != "" && forall i | 0 <= i < |w| :: '0' <= w[i] <= '9'
  }

  /** A number with its sign, if it has one. */
  predicate Signed(s: string, n: int) {
    if s != "" && s[0] == '-' then Numeral(s[1..]) && AllDigits(s[1..], 10) && n == 0 - Digits(s[1..], 10)
    else
      var w := if s != "" && s[0] == '+' then s[1..] else s;
      Numeral(w) && AllDigits(w, 10) && n == Digits(w, 10)
  }

  /** White space and a number. */
  ghost predicate Denotes(s: string, n: int) {
    exists i: nat :: i <= |s| && (forall j | 0 <= j < i :: IsSpace(s[j])) && Signed(s[i..], n)
  }

  lemma {:induction false} SkipsTo(s: string, i: nat)
    requires i <= |s| && (forall j | 0 <= j < i :: IsSpace(s[j])) && (i < |s| ==> !IsSpace(s[i]))
    ensures SkipSpace(s) == s[i..]
    decreases i
  {
    if i > 0 {
      SkipsTo(s[1..], i - 1);
      assert s[1..][i - 1..] == s[i..];
    } else {
      assert s[0..] == s;
    }
  }

  lemma {:induction false} SkippedTo(s: string) returns (i: nat)
    ensures i <= |s| && (forall j | 0 <= j < i :: IsSpace(s[j])) && SkipSpace(s) == s[i..]
    decreases |s|
  {
    if s != "" && IsSpace(s[0]) {
      i := SkippedTo(s[1..]);
      assert s[1..][i..] == s[i + 1..];
      assert forall j | 0 < j < i + 1 :: s[j] == s[1..][j - 1];
      i := i + 1;
    } else {
      i := 0;
    }
  }

  lemma NumeralIff(w: string)
    ensures Numeral(w) <==> w != "" && AllDigits(w, 10)
  {
    assert forall c: char :: DigitValue(c) < 10 <==> '0' <= c <= '9';
  }

  /** A text is read as a number exactly when it denotes it and it fits a `long`. */
  lemma NumberIff(s: string, n: int)
    ensures Myatoi(s, 10) == Some(n) <==> Denotes(s, n) && -LONG_LIMIT <= n < LONG_LIMIT
  {
    hide SkipSpace, Digits, AllDigits, Numeral, IsSpace;
    var t := SkipSpace(s);
    SignedIff(t, n);
    if Denotes(s, n) {
      var i: nat :| i <= |s| && (forall j | 0 <= j < i :: IsSpace(s[j])) && Signed(s[i..], n);
      SignedIsNotSpace(s[i..], n);
      assert i < |s| ==> s[i..][0] == s[i];
      SkipsTo(s, i);
    }
    if Signed(t, n) {
      var i := SkippedTo(s);
    }
  }

  lemma SignedIff(t: string, n: int)
    ensures Signed(t, n) <==>
              var u := if t != "" && (t[0] == '-' || t[0] == '+') then t[1..] else t;
              u != "" && AllDigits(u, 10) && n == if t != "" && t[0] == '-' then 0 - Digits(u, 10) else Digits(u, 10)
  {
    hide Digits;
    NumeralIff(t);
    if t != "" { NumeralIff(t[1..]); }
  }

  lemma SignedIsNotSpace(s: string, n: int)
    requires Signed(s, n)
    ensures s != "" && !IsSpace(s[0])
  {
  }

  // ----- what is taken of the bytes behind the headers -----

  /** A whole body and the bytes behind it, a body that may go on, or failure. */
  datatype Outcome = Whole(body: string, rest: string) | Open(body: string) | Fails

  predicate AtBlankLine(p: Parser) {
    Ok(p) && p.message.state == HeadersPending && CRLF <= p.buffer
  }

  /** The two steps of the parser behind the headers. */
  function BodyOf(p: Parser): Outcome
    requires AtBlankLine(p)
  {
    match ParseStep(p)
    case Again(q) =>
      StepFacts(p);
      (match ParseStep(q) case Again(r) => Whole(r.message.body, r.buffer) case Rest(r) => Open(r.message.body) case Stop => Fails)
    case _ => Fails
  }

  function KnownLength(n: nat, rest: string): Outcome {
    if n <= |rest| then Whole(rest[..n], rest[n..]) else Open(rest)
  }

  function ChunkedLength(trailers: bool, rest: string): Outcome {
    match Decode(rest, trailers)
    case Done(end) => Whole(rest[..end], rest[end..])
    case Pending(_) => Open(rest)
    case Error => Fails
  }

  lemma BlankLineSteps(p: Parser)
    requires AtBlankLine(p)
    ensures ParseStep(p) == match HeadersDone(p.message)
                            case None => HttpSequence.StepResult.Stop
                            case Some(m) => Again(p.(buffer := p.buffer[2..], message := m))
  {
    hide Find, HeadersDone, ParseHeader, ChunkedParser.Step;
    FindInEmpty();
    var rest := p.buffer[2..];
    assert p.buffer == "" + CRLF + rest;
    LineAt("", rest);
  }

  /** The framing that is decided on and what it takes. */
  lemma FramingTakes(p: Parser)
    requires AtBlankLine(p)
    ensures BodyOf(p) == match ExpectedBody(p.message)
                         case None => Fails
                         case Some(Known(n)) => KnownLength(n, p.buffer[2..])
                         case Some(Chunks(_, trailers)) => ChunkedLength(trailers, p.buffer[2..])
                         case Some(UntilEof) => Open(p.buffer[2..])
  {
    hide ExpectedBody, ParseStep, ChunkedParser.Step, Run;
    BlankLineSteps(p);
    FramingKinds(p.message);
    if HeadersDone(p.message).Some? {
      var rest, m := p.buffer[2..], HeadersDone(p.message).value;
      var q := p.(buffer := rest, message := m);
      StepFacts(p);
      DoneKeeps(p.message);
      TracksFromTheStart(p.message);
      StepTakesBody(q);
      BodyEnds(m, rest);
      assert "" + rest == rest && rest[|rest|..] == "";
    }
  }

  lemma StepTakesBody(p: Parser)
    requires Ok(p) && p.message.state == BodyPending
    ensures ParseStep(p) == TakeBody(p)
  {
    hide TakeBody;
  }

  // ----- responses -----

  /** Codes of responses that never have a body. */
  predicate Bodiless(code: string) {
    code != "" && (code[0] == '1' || code == "204" || code == "304")
  }

  predicate AnswersHead(m: Message) {
    m.request.Some? && "HEAD " <= m.request.value.firstLine
  }

  /** The last transfer coding is chunked. */
  ghost predicate ChunkedLast(hs: seq<Header>) {
    exists v, item :: HasValue(hs, "Transfer-Encoding", v) && LastItem(v, ',', item) && SameName(item, "chunked")
  }

  /** A media type that cannot be handled: none, or multipart/byteranges. */
  ghost predicate BadType(hs: seq<Header>) {
    exists v, mime :: HasValue(hs, "Content-Type", v) && FirstItem(v, ';', mime) && (mime == "" || SameName(mime, "multipart/byteranges"))
  }

  lemma ChunkedLastIff(hs: seq<Header>)
    ensures IsChunked(hs) <==> ChunkedLast(hs)
  {
    hide HeaderValue, Split, SameName, HasValue, LastItem, EquivalentStrings, Lacks;
    LookUp(hs, "Transfer-Encoding");
    match HeaderValue(hs, "Transfer-Encoding")
    case None =>
    case Some(v) =>
      SplitLast(v, ',');
      var codings := Split(v, ',');
      var last := codings[|codings| - 1];
      EquivalentIff(last, "chunked");
      if ChunkedLast(hs) {
        var v', item :| HasValue(hs, "Transfer-Encoding", v') && LastItem(v', ',', item) && SameName(item, "chunked");
        LastIsUnique(v, ',', last, item);
      }
  }

  lemma {:induction false} ChunkedNeedsHeader(hs: seq<Header>)
    ensures IsChunked(hs) ==> HeaderValue(hs, "Transfer-Encoding").Some?
  {
    hide HeaderValue;
  }

  lemma {:induction false} BadTypeIff(hs: seq<Header>)
    ensures BadType(hs) <==> match HeaderValue(hs, "Content-Type")
                             case None => false
                             case Some(v) => var mime := Split(v, ';')[0]; mime == "" || EquivalentStrings(mime, "multipart/byteranges")
  {
    hide HeaderValue, Split, SameName, HasValue, FirstItem, EquivalentStrings, Lacks;
    LookUp(hs, "Content-Type");
    match HeaderValue(hs, "Content-Type")
    case None =>
    case Some(v) =>
      SplitFirst(v, ';');
      var mime := Split(v, ';')[0];
      EquivalentIff(mime, "multipart/byteranges");
      if BadType(hs) {
        var v', item :| HasValue(hs, "Content-Type", v') && FirstItem(v', ';', item) && (item == "" || SameName(item, "multipart/byteranges"));
        FirstIsUnique(v, ';', mime, item);
      }
  }

  /** The first Content-Length denotes a number that fits a `long`. */
  ghost predicate HasLength(hs: seq<Header>, n: int) {
    -LONG_LIMIT <= n < LONG_LIMIT && exists v :: HasValue(hs, "Content-Length", v) && Denotes(v, n)
  }

  /** It denotes none. */
  ghost predicate BadLength(hs: seq<Header>) {
    !Lacks(hs, "Content-Length") && forall n :: !HasLength(hs, n)
  }

  lemma {:induction false} LengthIs(hs: seq<Header>)
    ensures Lacks(hs, "Content-Length") <==> !HasHeader(hs, "Content-Length")
    ensures forall n :: HasLength(hs, n) <==> HeaderValue(hs, "Content-Length").Some?
                                              && Myatoi(HeaderValue(hs, "Content-Length").value, 10) == Some(n)
    ensures BadLength(hs) <==> HeaderValue(hs, "Content-Length").Some? && Myatoi(HeaderValue(hs, "Content-Length").value, 10) == None
    ensures forall n :: HasLength(hs, n) ==> ContentLength(hs) == Some(Framing.Known(n % U64))
    ensures BadLength(hs) || Lacks(hs, "Content-Length") ==> ContentLength(hs) == None
  {
    hide HeaderValue, Myatoi, HasValue, Lacks, Denotes;
    LookUp(hs, "Content-Length");
    var value := HeaderValue(hs, "Content-Length");
    if value.Some? {
      forall n: int
        ensures HasLength(hs, n) <==> Myatoi(value.value, 10) == Some(n)
      {
        NumberIff(value.value, n);
      }
      if Myatoi(value.value, 10).Some? { assert HasLength(hs, Myatoi(value.value, 10).value); }
    }
  }

  /** A response without a status code, with an empty one, or, where the code leaves it open,
      without a request is an exception. */
  lemma NoCodeFails(p: Parser)
    requires AtBlankLine(p) && p.message.kind == Response
    requires (forall code :: !HasCode(p.message.firstLine, code)) || HasCode(p.message.firstLine, "")
    ensures BodyOf(p) == Fails
  {
    hide StatusCode, HeaderValue, Split, BodyOf, HasCode;
    FramingTakes(p);
    CodeIff(p.message.firstLine);
    var code := StatusCode(p.message.firstLine);
    assert code.Some? ==> HasCode(p.message.firstLine, code.value);
  }

  /** The rules for a response with a status code, in their order. */
  lemma ResponseLength(p: Parser, code: string)
    requires AtBlankLine(p) && p.message.kind == Response && HasCode(p.message.firstLine, code) && code != ""
    ensures var m, hs, rest, got := p.message, p.message.headers, p.buffer[2..], BodyOf(p);
            && (Bodiless(code) ==> got == Whole("", rest))
            && (!Bodiless(code) ==>
                  && (m.request.None? ==> got == Fails)
                  && (AnswersHead(m) ==> got == Whole("", rest))
                  && (m.request.Some? && !AnswersHead(m) ==>
                        && (ChunkedLast(hs) ==> got == ChunkedLength(!Lacks(hs, "Trailer"), rest))
                        && (Lacks(hs, "Transfer-Encoding") ==>
                              && (forall n :: HasLength(hs, n) ==> got == KnownLength(n % U64, rest))
                              && (BadLength(hs) ==> got == Fails))
                        && (!ChunkedLast(hs) && (Lacks(hs, "Transfer-Encoding") ==> Lacks(hs, "Content-Length")) ==>
                              got == if BadType(hs) then Fails else Open(rest))))
  {
    hide StatusCode, HeaderValue, Split, Myatoi, BodyOf, HasCode, HasValue, Lacks, HasLength, BadLength, BadType, ChunkedLast, ContentLength,
         ChunkedLength, EquivalentStrings, IsChunked;
    FramingTakes(p);
    CodeIff(p.message.firstLine);
    var hs := p.message.headers;
    LookUp(hs, "Trailer");
    LookUp(hs, "Transfer-Encoding");
    LengthIs(hs);
    ChunkedLastIff(hs);
    BadTypeIff(hs);
    ChunkedNeedsHeader(hs);
    NoneTaken(p.buffer[2..]);
  }

  /** A response takes no byte of what follows exactly when its code or its request
      rules out a body, or its length is given as 0. */
  lemma TakesNothingIff(p: Parser, code: string)
    requires AtBlankLine(p) && p.message.kind == Response && HasCode(p.message.firstLine, code) && code != ""
    ensures var m, hs, rest := p.message, p.message.headers, p.buffer[2..];
            BodyOf(p) == Whole("", rest) <==>
              || Bodiless(code)
              || AnswersHead(m)
              || (m.request.Some? && Lacks(hs, "Transfer-Encoding") && HasLength(hs, 0))
  {
    hide BodyOf, HasCode, HasValue, Lacks, HasLength, BadLength, BadType, ChunkedLast, Decode, Myatoi, SameName;
    var hs, rest := p.message.headers, p.buffer[2..];
    ResponseLength(p, code);
    LengthKinds(hs);
    SomethingIsRead(rest, !Lacks(hs, "Trailer"));
    ChunkedIsEncoded(hs);
  }

  lemma NoneTaken(rest: string)
    ensures KnownLength(0, rest) == Whole("", rest)
  {
    assert rest[0..] == rest;
  }

  /** A chunked body has a byte at least. */
  lemma SomethingIsRead(rest: string, trailers: bool)
    ensures ChunkedLength(trailers, rest) != Whole("", rest)
  {
    hide Run, ChunkedParser.Step;
    OneStep(INITIAL, "", "", trailers);
    assert "" + rest == rest;
    EndIsNew(INITIAL, "", rest, trailers);
  }

  lemma ChunkedIsEncoded(hs: seq<Header>)
    ensures ChunkedLast(hs) ==> !Lacks(hs, "Transfer-Encoding")
  {
    hide SameName;
  }

  /** A Content-Length is missing, read as one number that fits a `long`, or not read. */
  lemma LengthKinds(hs: seq<Header>)
    ensures Lacks(hs, "Content-Length") || BadLength(hs) || exists n :: HasLength(hs, n)
    ensures forall n :: HasLength(hs, n) ==> -LONG_LIMIT <= n < LONG_LIMIT && !Lacks(hs, "Content-Length") && !BadLength(hs)
    ensures forall n, k :: HasLength(hs, n) && HasLength(hs, k) ==> n == k
  {
    hide HeaderValue, Myatoi, HasValue, Lacks;
    LengthIs(hs);
    if HasHeader(hs, "Content-Length") {
      match Myatoi(HeaderValue(hs, "Content-Length").value, 10)
      case None =>
      case Some(n) => assert HasLength(hs, n);
    }
  }

  // ----- requests -----

  /** The rules for a request: by its method, which is spelled in capitals. */
  lemma RequestLength(p: Parser)
    requires AtBlankLine(p) && p.message.kind == Request
    ensures var line, hs, rest, got := p.message.firstLine, p.message.headers, p.buffer[2..], BodyOf(p);
            && ("GET " <= line || "HEAD " <= line ==> got == Whole("", rest))
            && ("POST " <= line ==>
                  && (forall n :: HasLength(hs, n) ==> got == KnownLength(n % U64, rest))
                  && (Lacks(hs, "Content-Length") || BadLength(hs) ==> got == Fails))
            && (!("GET " <= line) && !("HEAD " <= line) && !("POST " <= line) ==> got == Fails)
  {
    hide HeaderValue, Myatoi, BodyOf, HasValue, Lacks, HasLength, BadLength, ContentLength, KnownLength;
    FramingTakes(p);
    var line := p.message.firstLine;
    LengthIs(p.message.headers);
    NoneTaken(p.buffer[2..]);
    assert "POST " <= line ==> line[0] == 'P';
  }
}
