/** Which messages survive printing and parsing: exactly the well-formed ones. */
module HttpRoundTrip {
  import opened Words
  import opened Text
  import opened ChunkedParser
  import opened HttpMessage
  import opened HttpSequence
  import opened HttpPipeline

  /** The printed message comes back, with its request, and nothing else. */
  predicate ComesBack(p: Parser, msg: Printable)
    requires Idle(p) && Ok(p)
  {
    Settle(p.(buffer := Print(msg))) == Some(AfterMessage(p, msg, ""))
  }

  // ----- what later steps cannot change -----

  /** The message that completes next has the first line already read, the headers
      already read first, and no others once the body is being read. */
  predicate Continues(m: Message, msg: Printable) {
    && msg.firstLine == m.firstLine && m.headers <= msg.headers && m.body <= msg.body
    && (m.state == BodyPending || m.state == Complete ==> msg.headers == m.headers)
    && (m.state == Complete ==> msg.body == m.body)
  }

  lemma StepContinues(p: Parser, q: Parser, msg: Printable)
    requires Ok(p) && p.message.state != FirstLinePending && p.message.state != Complete
    requires ParseStep(p) == Again(q) && Continues(q.message, msg)
    ensures q.message.state != FirstLinePending && q.message.request == p.message.request && Continues(p.message, msg)
  {
    hide Find, ExpectedBody, ParseHeader, Run, ChunkedParser.Step;
  }

  lemma {:induction false} NextCompleted(p: Parser, end: Parser)
    requires Ok(p) && Settle(p) == Some(end) && |end.complete| > |p.complete| && p.message.state != FirstLinePending
    ensures Continues(p.message, end.complete[|p.complete|].message)
    decreases |p.buffer|, StateRank(p.message.state)
  {
    hide ParseStep, Continues, ChunkedParser.Step;
    StepFacts(p);
    StepComplete(p);
    match ParseStep(p)
    case Again(q) =>
      if p.message.state == Complete {
        Handed(p, q);
        CompleteGrows(q);
        assert end.complete[|p.complete|] == q.complete[|p.complete|];
      } else {
        AgainState(p, q);
        NextCompleted(q, end);
        StepContinues(p, q, end.complete[|p.complete|].message);
      }
    case Rest(_) =>
  }

  lemma AgainState(p: Parser, q: Parser)
    requires Ok(p) && ParseStep(p) == Again(q) && p.message.state != FirstLinePending && p.message.state != Complete
    ensures q.message.state != FirstLinePending
  {
    hide Find, ExpectedBody, ParseHeader, BodyRead, ChunkedParser.Step;
  }

  lemma Handed(p: Parser, q: Parser)
    requires Ok(p) && p.message.state == Complete && ParseStep(p) == Again(q)
    ensures |q.complete| == |p.complete| + 1 && Continues(p.message, q.complete[|p.complete|].message)
  {
  }

  // ----- from the outcome back to the message -----

  lemma {:induction false} AgainSettles(p: Parser, end: Parser)
    requires Ok(p) && Settle(p) == Some(end) && p.message.state != BodyPending && Find(p.buffer, CRLF).Some?
    ensures ParseStep(p).Again? && Ok(ParseStep(p).p) && Settle(ParseStep(p).p) == Some(end)
  {
    hide Find, ExpectedBody, ParseHeader, ChunkedParser.Step;
    StepFacts(p);
  }

  /** A text with a line end in it: its first line, and that it is no longer. */
  lemma FirstLineOf(line: string, rest: string) returns (k: nat)
    ensures var s := line + CRLF + rest;
            && Find(s, CRLF) == Some(k) && k <= |line| && s[..k] == line[..k] && k + 2 <= |s|
            && (k == |line| <==> Find(line, CRLF).None?) && (k < |line| ==> k + 2 <= |line|)
            && (k == |line| ==> s[k + 2..] == rest)
  {
    var s := line + CRLF + rest;
    assert s[|line|..|line| + 2] == CRLF;
    assert MatchAt(s, CRLF, |line|);
    k := Find(s, CRLF).value;
    assert s == line + (CRLF + rest);
    FindGrows(line, CRLF + rest, CRLF);
    if Find(line, CRLF).None? {
      FindLineEnd(line, rest);
    }
  }

  /** A header that came back from the first line of its print is plain. */
  lemma HeaderIsPlain(h: Header, k: nat)
    requires k <= |PrintHeader(h)| && ParseHeader(PrintHeader(h)[..k]) == Some(h)
    requires k == |PrintHeader(h)| <==> Find(PrintHeader(h), CRLF).None?
    requires k < |PrintHeader(h)| ==> k + 2 <= |PrintHeader(h)|
    ensures PlainHeader(h)
  {
    hide Find;
    HeaderLength(PrintHeader(h)[..k], h);
    assert PrintHeader(h)[..|PrintHeader(h)|] == PrintHeader(h);
    HeaderRoundTripIff(h);
  }

  lemma HeaderLength(line: string, h: Header)
    requires ParseHeader(line) == Some(h)
    ensures |line| >= |h.key| + 1 + |h.value|
  {
  }

  lemma {:induction false} HeadersWerePlain(p: Parser, end: Parser, msg: Printable, hs: seq<Header>, tail: string)
    requires Ok(p) && p.message.state == HeadersPending && Settle(p) == Some(end)
    requires |end.complete| > |p.complete| && end.complete[|p.complete|].message == msg
    requires msg.headers == p.message.headers + hs && p.buffer == PrintHeaders(hs) + tail
    ensures forall h | h in hs :: PlainHeader(h)
    ensures var q := p.(buffer := tail, message := p.message.(headers := msg.headers)); Ok(q) && Settle(q) == Some(end)
    decreases |hs|
  {
    hide Find, ParseStep, Settle, Ok, PlainHeader, ParseHeader, HeadersDone, ChunkedParser.Step;
    if hs == [] {
      assert p.message.headers + [] == p.message.headers;
      assert p.buffer == tail;
    } else {
      var h, rest := hs[0], PrintHeaders(hs[1..]) + tail;
      assert p.buffer == PrintHeader(h) + CRLF + rest;
      var q := HeaderWasPlain(p, end, msg, h, rest);
      assert q.message.headers + hs[1..] == p.message.headers + hs;
      HeadersWerePlain(q, end, msg, hs[1..], tail);
      assert forall g | g in hs :: g == h || g in hs[1..];
    }
  }

  lemma BlankLineEnds(p: Parser, k: nat)
    requires Ok(p) && p.message.state == HeadersPending && Find(p.buffer, CRLF) == Some(k) && ParseStep(p).Again?
    ensures var q := ParseStep(p).p;
            p.buffer[..k] == "" ==> q.message.state == BodyPending && q.message.headers == p.message.headers
  {
    hide Find, ExpectedBody, ParseHeader, ChunkedParser.Step;
  }

  lemma HeaderWasPlain(p: Parser, end: Parser, msg: Printable, h: Header, rest: string) returns (q: Parser)
    requires Ok(p) && p.message.state == HeadersPending && Settle(p) == Some(end)
    requires |end.complete| > |p.complete| && end.complete[|p.complete|].message == msg
    requires |msg.headers| > |p.message.headers| && msg.headers[|p.message.headers|] == h
    requires p.buffer == PrintHeader(h) + CRLF + rest
    ensures PlainHeader(h) && Ok(q) && Settle(q) == Some(end)
    ensures q == p.(buffer := rest, message := p.message.(headers := p.message.headers + [h]))
  {
    hide Find, Settle, Ok, PlainHeader, ParseHeader, ExpectedBody, ChunkedParser.Step;
    var k := FirstLineOf(PrintHeader(h), rest);
    AgainSettles(p, end);
    q := ParseStep(p).p;
    StepComplete(p);
    StepFacts(p);
    NextCompleted(q, end);
    var line := p.buffer[..k];
    BlankLineEnds(p, k);
    assert WithHeader(p.message, line) == Some(q.message);
    var h' := ParseHeader(line).value;
    assert q.message.headers[|p.message.headers|] == h';
    assert h' == h;
    HeaderIsPlain(h, k);
    assert k == |PrintHeader(h)| by { PlainHasNoEnd(h); }
  }

  lemma PlainHasNoEnd(h: Header)
    requires PlainHeader(h)
    ensures Find(PrintHeader(h), CRLF).None?
  {
  }

  /** A body that came back whole is delimited by its headers. */
  lemma {:induction false} BodyWasDelimited(p: Parser, end: Parser, msg: Printable)
    requires Ok(p) && p.message == Headed(p.message.kind, p.message.request, msg) && p.buffer == CRLF + msg.body
    requires Settle(p) == Some(end) && |end.complete| > |p.complete| && end.complete[|p.complete|].message == msg
    ensures Delimited(p.message.kind, p.message.request, msg)
  {
    hide Find, Settle, ExpectedBody, ChunkedParser.Step, Run;
    assert CRLF + msg.body == "" + CRLF + msg.body;
    FindInEmpty();
    LineAt("", msg.body);
    AgainSettles(p, end);
    var q := ParseStep(p).p;
    StepComplete(p);
    FramingKinds(p.message);
    DoneKeeps(p.message);
    assert q == p.(buffer := msg.body, message := HeadersDone(p.message).value);
    StepFacts(q);
    StepComplete(q);
    RestSettles(q);
    assert "" + msg.body == msg.body;
    assert ParseStep(q).Again?;
    var r := ParseStep(q).p;
    NextCompleted(r, end);
    assert r.message.state == Complete && r.message.body == msg.body;
    var n := BodyRead(q.message, msg.body).value.1;
    assert msg.body[..n] == msg.body ==> n == |msg.body|;
  }

  lemma {:induction false} RestSettles(p: Parser)
    requires Ok(p)
    ensures ParseStep(p).Rest? ==> Settle(p) == Some(ParseStep(p).p)
    ensures ParseStep(p).Stop? ==> Settle(p) == None
    ensures ParseStep(p).Again? ==> Ok(ParseStep(p).p) && Settle(p) == Settle(ParseStep(p).p)
  {
    hide ParseStep;
    StepFacts(p);
  }

  /** A message comes back from its own print exactly when it is well formed: no
      line end in its first line or headers, header keys without colon, header
      values not empty and not starting with a space, and a body that its own
      headers delimit. */
  lemma ComesBackIff(p: Parser, msg: Printable)
    requires Idle(p) && Ok(p) && (p.message.kind == Response ==> p.requests != [])
    ensures ComesBack(p, msg) <==> WellFormed(p.message.kind, NextRequest(p), msg)
  {
    hide Settle, WellFormed, Print, ChunkedParser.Step;
    var start := p.(buffer := Print(msg));
    assert Print(msg) + "" == Print(msg);
    if WellFormed(p.message.kind, NextRequest(p), msg) {
      ReadsMessage(start, msg, "");
      StartRests(AfterMessage(p, msg, ""));
      assert AfterMessage(start, msg, "") == AfterMessage(p, msg, "");
    }
    if ComesBack(p, msg) {
      CameBack(start, AfterMessage(p, msg, ""), msg);
    }
  }

  lemma {:induction false} CameBack(p: Parser, end: Parser, msg: Printable)
    requires Idle(p) && Ok(p) && (p.message.kind == Response ==> p.requests != []) && p.buffer == Print(msg)
    requires Settle(p) == Some(end) && |end.complete| > |p.complete| && end.complete[|p.complete|].message == msg
    ensures WellFormed(p.message.kind, NextRequest(p), msg)
  {
    hide Find, Settle, Ok, PlainHeader, Delimited, ExpectedBody, ChunkedParser.Step;
    var rest := PrintHeaders(msg.headers) + (CRLF + msg.body);
    assert p.buffer == msg.firstLine + CRLF + rest;
    var k := FirstLineOf(msg.firstLine, rest);
    AgainSettles(p, end);
    var q := ParseStep(p).p;
    StepComplete(p);
    assert q.message.state == HeadersPending && q.message.firstLine == msg.firstLine[..k];
    NextCompleted(q, end);
    assert k == |msg.firstLine|;
    assert [] + msg.headers == msg.headers;
    HeadersWerePlain(q, end, msg, msg.headers, CRLF + msg.body);
    var r := q.(buffer := CRLF + msg.body, message := q.message.(headers := msg.headers));
    assert r.message == Headed(p.message.kind, NextRequest(p), msg);
    BodyWasDelimited(r, end, msg);
  }
}
