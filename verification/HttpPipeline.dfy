/** What the sequence parser promises over whole streams: fragments do not
    matter, and printed messages come back in order. */
module HttpPipeline {
  import opened Words
  import opened Text
  import opened ChunkedParser
  import opened ChunkedFraming
  import opened HttpMessage
  import opened HttpSequence

  // ----- packet boundaries -----

  predicate NonEmpty(pieces: seq<string>) {
    forall i | 0 <= i < |pieces| :: pieces[i] != ""
  }

  /** One call of `parse` for each piece; `None` once the program stops. */
  function ParseAll(p: Parser, pieces: seq<string>): Option<Parser>
    requires Ok(p)
    decreases |pieces|
  {
    if pieces == [] then Some(p)
    else
      match Parsed(p, pieces[0])
      case None => None
      case Some(q) => EofKeepsOk(p, pieces[0]); ParseAll(q, pieces[1..])
  }

  lemma EofKeepsOk(p: Parser, buf: string)
    requires Ok(p) && Parsed(p, buf).Some?
    ensures Ok(Parsed(p, buf).value)
  {
  }

  /** The chunked body being read goes on into a chunk of 2^32 - 2 bytes or more. */
  predicate BodyOversize(p: Parser)
    requires Ok(p)
  {
    p.message.state == BodyPending && p.message.framing.Chunks?
    && Oversize(p.message.framing.config, p.message.body + p.buffer, p.message.framing.trailers)
  }

  /** Parsing what is in the buffer looks into such a chunk. */
  predicate LooksOversize(p: Parser)
    requires Ok(p)
    decreases |p.buffer|, StateRank(p.message.state)
  {
    StepFacts(p);
    BodyOversize(p) || (ParseStep(p).Again? && LooksOversize(ParseStep(p).p))
  }

  lemma LineStepGrows(p: Parser, x: string)
    requires Ok(p) && (p.message.state == FirstLinePending || p.message.state == HeadersPending)
    requires !ParseStep(p).Rest?
    ensures ParseStep(More(p, x)) == match ParseStep(p) case Again(q) => Again(More(q, x)) case r => r
  {
    hide Find, ExpectedBody, ParseHeader, ChunkedParser.Step;
    FindGrows(p.buffer, x, CRLF);
    var k := Find(p.buffer, CRLF).value;
    assert (p.buffer + x)[..k] == p.buffer[..k];
    assert (p.buffer + x)[k + 2..] == p.buffer[k + 2..] + x;
  }

  /** A body reads the same bytes whether they come at once or in two parts. */
  predicate ReadsOn(m: Message, s: string, x: string)
    requires m.state == BodyPending && Sound(m)
  {
    match BodyRead(m, s)
    case None =>
      BodyRead(m, s + x) == None
      || (m.framing.Chunks? && Oversize(m.framing.config, m.body + (s + x), m.framing.trailers))
    case Some((m', n)) =>
      if m'.state == Complete then BodyRead(m, s + x) == BodyRead(m, s)
      else
        match BodyRead(m', x)
        case None => BodyRead(m, s + x) == None
        case Some((m'', k)) => BodyRead(m, s + x) == Some((m'', |s| + k))
  }

  lemma KnownGrows(m: Message, s: string, x: string)
    requires m.state == BodyPending && Sound(m) && m.framing.Known?
    ensures ReadsOn(m, s, x)
  {
    var left := m.framing.size - |m.body|;
    if left <= |s| {
      assert (s + x)[..left] == s[..left];
    } else {
      var all := if left < |s + x| then left else |s + x|;
      assert s[..|s|] == s;
      assert (s + x)[..all] == s + x[..all - |s|];
      assert m.body + (s + x[..all - |s|]) == m.body + s + x[..all - |s|];
    }
  }

  lemma ChunksGrow(m: Message, s: string, x: string)
    requires m.state == BodyPending && Sound(m) && m.framing.Chunks?
    ensures ReadsOn(m, s, x)
  {
    hide Run, ChunkedParser.Step, Oversize, HitsHazard;
    var c, trailers := m.framing.config, m.framing.trailers;
    assert m.body + (s + x) == m.body + s + x;
    RunGrows(c, m.body + s, x, trailers);
    match Run(c, m.body + s, trailers)
    case Error =>
      if HitsHazard(c, m.body + s, trailers) { HazardIsOversize(c, m.body + s, x, trailers); }
    case Done(end) =>
      EndIsNew(c, m.body, s, trailers);
      assert (s + x)[..end - |m.body|] == s[..end - |m.body|];
    case Pending(c') =>
      ChunksGrowOn(m, s, x, c');
  }

  lemma {:induction false} ChunksGrowOn(m: Message, s: string, x: string, c': Config)
    requires m.state == BodyPending && Sound(m) && m.framing.Chunks?
    requires Run(m.framing.config, m.body + s, m.framing.trailers) == Pending(c')
    requires m.body + (s + x) == m.body + s + x
    requires Run(m.framing.config, m.body + s + x, m.framing.trailers) == Run(c', m.body + s + x, m.framing.trailers)
    ensures ReadsOn(m, s, x)
  {
    hide Run, ChunkedParser.Step;
    var c, trailers := m.framing.config, m.framing.trailers;
    var o, all := Run(c', m.body + s + x, trailers), m.body + s + x;
    assert BodyRead(m, s) == Some((m.(body := m.body + s, framing := Chunks(c', trailers)), |s|));
    if o.Done? {
      EndIsNew(c', m.body + s, x, trailers);
      TakeAcross(m.body, s, x, o.end - |m.body|);
    }
  }

  lemma TakeAcross(b: string, s: string, x: string, n: nat)
    requires |s| <= n <= |s + x|
    ensures b + (s + x)[..n] == b + s + x[..n - |s|]
  {
    assert (s + x)[..n] == s + x[..n - |s|];
  }

  lemma BodyGrows(m: Message, s: string, x: string)
    requires m.state == BodyPending && Sound(m)
    ensures ReadsOn(m, s, x)
  {
    hide ChunkedParser.Step;
    match m.framing
    case Known(_) => KnownGrows(m, s, x);
    case Chunks(_, _) => ChunksGrow(m, s, x);
    case UntilEof => assert m.body + (s + x) == m.body + s + x;
  }

  lemma BodyStepGrows(p: Parser, x: string)
    requires Ok(p) && p.message.state == BodyPending
    ensures Ok(More(p, x))
    ensures match TakeBody(p)
            case Again(q) => TakeBody(More(p, x)) == Again(More(q, x))
            case Rest(q) => q.message.state == BodyPending && Sound(q.message) && TakeBody(More(p, x)) == TakeBody(More(q, x))
            case Stop => TakeBody(More(p, x)) == Stop || BodyOversize(More(p, x))
  {
    hide BodyRead, ChunkedParser.Step, Oversize;
    MoreOk(p, x);
    BodyGrows(p.message, p.buffer, x);
    match BodyRead(p.message, p.buffer)
    case None =>
    case Some((m, n)) =>
      if m.state == Complete {
        assert (p.buffer + x)[n..] == p.buffer[n..] + x;
      } else {
        assert p.buffer[n..] + x == x;
        match BodyRead(m, x)
        case None =>
        case Some((m', k)) => assert (p.buffer + x)[n + k..] == x[k..];
      }
  }

  /** More bytes at the end do not change what a step does; after a step that
      rests, they are as good as if they had been there before it. */
  lemma StepGrows(p: Parser, x: string)
    requires Ok(p)
    ensures Ok(More(p, x))
    ensures match ParseStep(p)
            case Again(q) => ParseStep(More(p, x)) == Again(More(q, x))
            case Rest(q) => Ok(q) && ParseStep(More(p, x)) == ParseStep(More(q, x))
            case Stop => ParseStep(More(p, x)) == Stop || BodyOversize(More(p, x))
  {
    hide TakeBody, Find, ExpectedBody, ParseHeader, ChunkedParser.Step, BodyOversize;
    StepFacts(p);
    MoreOk(p, x);
    if p.message.state == BodyPending {
      BodyStepGrows(p, x);
    } else if p.message.state != Complete && !ParseStep(p).Rest? {
      LineStepGrows(p, x);
    }
  }

  /** Resting in between is the same as going on at once; and stopping on what
      there is means stopping on more, unless the body has an oversize chunk. */
  lemma {:induction false} SettleGrows(p: Parser, x: string)
    requires Ok(p)
    ensures Ok(More(p, x))
    ensures match Settle(p)
            case Some(q) =>
              && Ok(More(q, x)) && Settle(More(p, x)) == Settle(More(q, x))
              && (LooksOversize(More(q, x)) ==> LooksOversize(More(p, x)))
            case None => Settle(More(p, x)) == None || LooksOversize(More(p, x))
    decreases |p.buffer|, StateRank(p.message.state)
  {
    hide ParseStep, ChunkedParser.Step, BodyOversize;
    StepFacts(p);
    StepGrows(p, x);
    match ParseStep(p)
    case Again(q) => SettleGrows(q, x);
    case Rest(q) =>
      SettleOnce(More(p, x), More(q, x));
      OversizeOnce(p, x);
    case Stop =>
  }

  /** A chunk that looks oversize after a rest would have done so before it. */
  lemma OversizeOnce(p: Parser, x: string)
    requires Ok(p) && ParseStep(p).Rest?
    ensures var q := ParseStep(p).p; Ok(More(p, x)) && Ok(More(q, x)) && (BodyOversize(More(q, x)) ==> BodyOversize(More(p, x)))
  {
    hide Find, ExpectedBody, ParseHeader, Run, Oversize, ChunkedParser.Step;
    StepFacts(p);
    MoreOk(p, x);
    MoreOk(ParseStep(p).p, x);
    if p.message.state == BodyPending && p.message.framing.Chunks? {
      var m := p.message;
      assert m.body + (p.buffer + x) == m.body + p.buffer + x;
      assert ParseStep(p).p.buffer + x == x;
      if BodyOversize(More(ParseStep(p).p, x)) {
        OversizeLater(m.framing.config, m.body + p.buffer, x, m.framing.trailers);
      }
    }
  }

  lemma {:induction false} SettleOnce(p: Parser, q: Parser)
    requires Ok(p) && Ok(q) && ParseStep(p) == ParseStep(q)
    ensures Settle(p) == Settle(q)
  {
    hide ParseStep;
  }

  /** Packet boundaries do not matter: calling `parse` on the pieces of a stream
      gives the same complete messages, the same message in progress and the
      same buffer as parsing the stream at once, or stops as it does; or it stops
      early at an oversize chunk. */
  lemma {:induction false} FragmentsDoNotMatter(p: Parser, pieces: seq<string>)
    requires Ok(p) && NonEmpty(pieces) && Settle(p) == Some(p)
    ensures Ok(More(p, Concat(pieces)))
    ensures ParseAll(p, pieces) == Settle(More(p, Concat(pieces)))
         || (ParseAll(p, pieces) == None && LooksOversize(More(p, Concat(pieces))))
    decreases |pieces|
  {
    hide Settle, Ok, LooksOversize;
    if pieces == [] {
      assert p.buffer + "" == p.buffer;
      assert More(p, "") == p;
    } else {
      var a, b := pieces[0], Concat(pieces[1..]);
      MoreOk(p, a);
      assert More(p, Concat(pieces)) == More(More(p, a), b) by { assert p.buffer + (a + b) == p.buffer + a + b; }
      SettleGrows(More(p, a), b);
      match Settle(More(p, a))
      case None =>
      case Some(q) =>
        Settled(More(p, a), q);
        FragmentsDoNotMatter(q, pieces[1..]);
    }
  }

  /** Where parsing rests, it stays. */
  lemma {:induction false} Settled(p: Parser, q: Parser)
    requires Ok(p) && Settle(p) == Some(q)
    ensures Settle(q) == Some(q)
    decreases |p.buffer|, StateRank(p.message.state)
  {
    hide ChunkedParser.Step;
    StepFacts(p);
    match ParseStep(p)
    case Again(p') => Settled(p', q);
    case Rest(_) => RestStays(p);
  }

  lemma RestStays(p: Parser)
    requires Ok(p) && ParseStep(p).Rest?
    ensures Ok(ParseStep(p).p) && Settle(ParseStep(p).p) == Some(ParseStep(p).p)
  {
    hide Find, ExpectedBody, ParseHeader, Run, ChunkedParser.Step;
    StepFacts(p);
    var q := ParseStep(p).p;
    if p.message.state == BodyPending {
      BodyStays(q.message);
      assert q.buffer == "";
    }
  }

  lemma BodyStays(m: Message)
    requires m.state == BodyPending && Sound(m) && (m.framing.Known? ==> |m.body| < m.framing.size)
    ensures BodyRead(m, "") == Some((m, 0))
  {
    hide ChunkedParser.Step;
    assert m.body + "" == m.body;
    assert ""[..0] == "";
  }

  // ----- the end of the stream -----

  /** The end of the stream between calls of `parse`: nothing happens before a
      message, a message in its headers or short of a known length is an error,
      and any other body is complete as it stands, a chunked one included. */
  lemma {:induction false} EndOfStream(p: Parser)
    requires Ok(p) && Settle(p) == Some(p)
    ensures p.message.state != Complete
    ensures Parsed(p, "") ==
            match p.message.state
            case FirstLinePending => Some(p)
            case BodyPending =>
              if p.message.framing.Known? then None
              else Some(p.(message := Fresh(p.message.kind),
                           complete := p.complete + [Completed(p.message.request, ToPrintable(p.message))]))
            case _ => None
  {
    hide Find, ExpectedBody, ParseHeader, BodyRead, ChunkedParser.Step, Settle;
    if p.message.state == BodyPending && !p.message.framing.Known? {
      var q := p.(message := Finished(p.message, p.message.body));
      var r := q.(message := Fresh(p.message.kind), complete := q.complete + [Completed(q.message.request, ToPrintable(q.message))]);
      StepSettles(q, r);
      RestsEmpty(p);
      StartRests(r);
    }
  }

  lemma {:induction false} RestsEmpty(p: Parser)
    requires Ok(p) && Settle(p) == Some(p) && p.message.state == BodyPending
    ensures p.buffer == ""
  {
    hide ParseStep, ChunkedParser.Step;
    StepFacts(p);
    if ParseStep(p).Again? { AgainGrows(p); }
  }

  /** A body step that completes hands the message over before it rests. */
  lemma {:induction false} AgainGrows(p: Parser)
    requires Ok(p) && p.message.state == BodyPending && ParseStep(p).Again?
    ensures Settle(p).Some? ==> |Settle(p).value.complete| > |p.complete|
  {
    hide BodyRead, ChunkedParser.Step, Find, ExpectedBody, ParseHeader;
    var q := ParseStep(p).p;
    StepSettles(p, q);
    var r := q.(message := Fresh(q.message.kind), complete := q.complete + [Completed(q.message.request, ToPrintable(q.message))]);
    StepSettles(q, r);
    CompleteGrows(r);
  }

  lemma {:induction false} CompleteGrows(p: Parser)
    requires Ok(p)
    ensures Settle(p).Some? ==> p.complete <= Settle(p).value.complete
    decreases |p.buffer|, StateRank(p.message.state)
  {
    hide ParseStep, ChunkedParser.Step;
    StepFacts(p);
    StepComplete(p);
    if ParseStep(p).Again? { CompleteGrows(ParseStep(p).p); }
  }

  lemma StepComplete(p: Parser)
    requires Ok(p)
    ensures match ParseStep(p)
            case Again(q) => p.complete <= q.complete && (p.message.state != Complete ==> q.complete == p.complete)
            case Rest(q) => q.complete == p.complete
            case Stop => true
  {
    hide Find, ExpectedBody, ParseHeader, BodyRead, ChunkedParser.Step;
  }

  // ----- printed messages come back -----

  predicate PlainHeader(h: Header) {
    ':' !in h.key && h.value != "" && h.value[0] != ' ' && Find(PrintHeader(h), CRLF).None?
  }

  /** The message as it stands when its headers are complete. */
  function Headed(kind: Kind, request: Option<Printable>, msg: Printable): Message {
    Message(kind, request, HeadersPending, msg.firstLine, msg.headers, "", UntilEof)
  }

  /** The message's own headers say where its body ends. */
  predicate Delimited(kind: Kind, request: Option<Printable>, msg: Printable) {
    match ExpectedBody(Headed(kind, request, msg))
    case Some(Known(n)) => |msg.body| == n
    case Some(Chunks(_, trailers)) => Decode(msg.body, trailers) == Done(|msg.body|)
    case _ => false
  }

  /** A chunked body has no chunk of 2^32 - 2 bytes or more. */
  predicate Tame(kind: Kind, request: Option<Printable>, msg: Printable) {
    match ExpectedBody(Headed(kind, request, msg))
    case Some(Chunks(_, trailers)) => !Oversize(INITIAL, msg.body, trailers)
    case _ => true
  }

  predicate WellFormed(kind: Kind, request: Option<Printable>, msg: Printable) {
    Find(msg.firstLine, CRLF).None? && (forall h | h in msg.headers :: PlainHeader(h)) && Delimited(kind, request, msg)
  }

  lemma {:induction false} StepSettles(p: Parser, q: Parser)
    requires Ok(p) && ParseStep(p) == Again(q)
    ensures Ok(q) && Settle(p) == Settle(q)
    ensures LooksOversize(p) <==> BodyOversize(p) || LooksOversize(q)
    ensures p.message.state != BodyPending ==> !BodyOversize(p)
  {
    hide ParseStep, Oversize;
    StepFacts(p);
  }

  lemma LineAt(line: string, rest: string)
    requires Find(line, CRLF).None?
    ensures var s := line + CRLF + rest; Find(s, CRLF) == Some(|line|) && s[..|line|] == line && s[|line| + 2..] == rest
  {
    FindLineEnd(line, rest);
  }

  lemma {:induction false} ReadsHeaders(p: Parser, hs: seq<Header>, tail: string)
    requires Ok(p) && p.message.state == HeadersPending && p.buffer == PrintHeaders(hs) + tail
    requires forall h | h in hs :: PlainHeader(h)
    ensures var q := p.(buffer := tail, message := p.message.(headers := p.message.headers + hs));
            Ok(q) && Settle(p) == Settle(q) && LooksOversize(p) == LooksOversize(q)
    decreases |hs|
  {
    hide Find, Settle, ParseStep, PlainHeader, Ok, LooksOversize, BodyOversize, ChunkedParser.Step;
    if hs == [] {
      assert p.message.headers + hs == p.message.headers;
      assert p.buffer == tail;
    } else {
      var h, rest := hs[0], PrintHeaders(hs[1..]) + tail;
      assert h in hs;
      var q := p.(buffer := rest, message := p.message.(headers := p.message.headers + [h]));
      assert p.buffer == PrintHeader(h) + CRLF + rest;
      ReadsHeader(p, h, rest);
      StepSettles(p, q);
      ReadsHeaders(q, hs[1..], tail);
      assert q.message.headers + hs[1..] == p.message.headers + hs;
    }
  }

  lemma ReadsHeader(p: Parser, h: Header, rest: string)
    requires Ok(p) && p.message.state == HeadersPending && p.buffer == PrintHeader(h) + CRLF + rest && PlainHeader(h)
    ensures ParseStep(p) == Again(p.(buffer := rest, message := p.message.(headers := p.message.headers + [h])))
  {
    hide Find, ParseHeader, ChunkedParser.Step;
    LineAt(PrintHeader(h), rest);
    HeaderRoundTripIff(h);
  }

  lemma ReadsBody(m: Message, msg: Printable, rest: string)
    requires m == Headed(m.kind, m.request, msg) && Delimited(m.kind, m.request, msg)
    ensures HeadersDone(m).Some? && Sound(HeadersDone(m).value)
    ensures var b := HeadersDone(m).value; BodyRead(b, msg.body + rest) == Some((Finished(b, msg.body), |msg.body|))
  {
    hide ExpectedBody, ChunkedParser.Step, Run;
    FramingKinds(m);
    assert (msg.body + rest)[..|msg.body|] == msg.body;
    assert "" + msg.body == msg.body && "" + (msg.body + rest) == msg.body + rest;
    match ExpectedBody(m)
    case Some(Chunks(c, trailers)) => RunGrows(INITIAL, msg.body, rest, trailers);
    case _ =>
  }

  /** The request that the next message answers. */
  function NextRequest(p: Parser): Option<Printable> {
    if p.message.kind == Response && p.requests != [] then Some(p.requests[0]) else None
  }

  function AfterMessage(p: Parser, msg: Printable, rest: string): Parser {
    p.(buffer := rest, complete := p.complete + [Completed(NextRequest(p), msg)],
       requests := if NextRequest(p).Some? then p.requests[1..] else p.requests)
  }

  predicate Idle(p: Parser) {
    p.message == Fresh(p.message.kind)
  }

  /** The first line of a message, from an idle parser. */
  lemma ReadsFirstLine(p: Parser, msg: Printable, rest: string)
    requires Idle(p) && Find(msg.firstLine, CRLF).None? && p.buffer == msg.firstLine + CRLF + rest
    requires p.message.kind == Response ==> p.requests != []
    ensures var m := Headed(p.message.kind, NextRequest(p), msg).(headers := []);
            ParseStep(p) == Again(AfterMessage(p, msg, rest).(complete := p.complete, message := m))
  {
    hide Find, ChunkedParser.Step;
    LineAt(msg.firstLine, rest);
  }

  /** The blank line after the headers. */
  lemma ReadsBlankLine(p: Parser, m: Message, rest: string)
    requires Ok(p) && p.message.state == HeadersPending && p.buffer == CRLF + rest && HeadersDone(p.message) == Some(m)
    ensures ParseStep(p) == Again(p.(buffer := rest, message := m))
  {
    hide Find, HeadersDone, ChunkedParser.Step;
    assert "" + CRLF + rest == CRLF + rest;
    assert Find("", CRLF).None? by { FindInEmpty(); }
    LineAt("", rest);
  }

  lemma FindInEmpty()
    ensures Find("", CRLF).None?
  {
    assert forall j: nat :: !MatchAt("", CRLF, j);
  }

  /** The body and the hand-over of the complete message. */
  lemma {:induction false} ReadsRest(p: Parser, body: string, rest: string)
    requires Ok(p) && p.message.state == BodyPending && p.buffer == body + rest
    requires BodyRead(p.message, p.buffer) == Some((Finished(p.message, body), |body|))
    ensures var q := p.(buffer := rest, message := Fresh(p.message.kind),
                        complete := p.complete + [Completed(p.message.request, ToPrintable(Finished(p.message, body)))]);
            Settle(p) == Settle(q) && (LooksOversize(p) <==> BodyOversize(p) || LooksOversize(q))
  {
    hide BodyRead, Settle, LooksOversize, BodyOversize, ChunkedParser.Step;
    var p' := p.(buffer := rest, message := Finished(p.message, body));
    assert p.buffer[|body|..] == rest;
    StepSettles(p, p');
    StepSettles(p', p'.(message := Fresh(p.message.kind),
                        complete := p.complete + [Completed(p.message.request, ToPrintable(p'.message))]));
  }

  /** One printed message at the front of the buffer becomes one complete message. */
  lemma {:induction false} ReadsMessage(p: Parser, msg: Printable, rest: string)
    requires Idle(p) && p.buffer == Print(msg) + rest
    requires p.message.kind == Response ==> p.requests != []
    requires WellFormed(p.message.kind, NextRequest(p), msg)
    ensures Settle(p) == Settle(AfterMessage(p, msg, rest))
    ensures LooksOversize(p) <==> !Tame(p.message.kind, NextRequest(p), msg) || LooksOversize(AfterMessage(p, msg, rest))
  {
    hide Find, Settle, LooksOversize, BodyOversize, Tame, ExpectedBody, HeadersDone, BodyRead, Delimited, PlainHeader, ParseStep,
         ChunkedParser.Step;
    var body := msg.body + rest;
    var afterLine := PrintHeaders(msg.headers) + (CRLF + body);
    var m := Headed(p.message.kind, NextRequest(p), msg);
    assert p.buffer == msg.firstLine + CRLF + afterLine;
    ReadsFirstLine(p, msg, afterLine);
    var p1 := AfterMessage(p, msg, afterLine).(complete := p.complete, message := m.(headers := []));
    StepSettles(p, p1);
    ReadsHeaders(p1, msg.headers, CRLF + body);
    assert [] + msg.headers == msg.headers;
    var p2 := p1.(buffer := CRLF + body, message := m);
    ReadsBody(m, msg, rest);
    DoneKeeps(m);
    var p3 := p2.(buffer := body, message := HeadersDone(m).value);
    ReadsBlankLine(p2, p3.message, body);
    LooksIntoBody(p3, m, msg, rest);
    StepSettles(p2, p3);
    ReadsRest(p3, msg.body, rest);
  }

  /** Whether the body of a printed message has an oversize chunk does not depend
      on what follows. */
  lemma LooksIntoBody(p: Parser, m: Message, msg: Printable, rest: string)
    requires m == Headed(m.kind, m.request, msg) && Delimited(m.kind, m.request, msg)
    requires HeadersDone(m) == Some(p.message) && Ok(p) && p.buffer == msg.body + rest
    ensures BodyOversize(p) <==> !Tame(m.kind, m.request, msg)
  {
    hide ExpectedBody, ChunkedParser.Step, Run, Oversize;
    FramingKinds(m);
    assert "" + (msg.body + rest) == msg.body + rest;
    match ExpectedBody(m)
    case Some(Chunks(c, trailers)) => OversizeIsInside(INITIAL, msg.body, rest, trailers);
    case _ =>
  }

  lemma {:induction false} OversizeIsInside(c: Config, s: string, x: string, trailers: bool)
    requires c.pos <= |s| && c.size < U32 && Run(c, s, trailers).Done?
    ensures Oversize(c, s + x, trailers) == Oversize(c, s, trailers)
    decreases |s| - c.pos, Rank(c.phase)
  {
    hide ChunkedParser.Step;
    ChunkedParser.StepGrows(c, s, x, trailers);
    if ChunkedParser.Step(c, s, trailers).Move? {
      OversizeIsInside(ChunkedParser.Step(c, s, trailers).next, s, x, trailers);
    } else {
      FinishMeansMore(c, s, trailers);
    }
  }

  lemma FinishMeansMore(c: Config, s: string, trailers: bool)
    requires c.pos <= |s| && ChunkedParser.Step(c, s, trailers).Finish?
    ensures c.phase == Trailer && c.pos < |s|
  {
    hide StepHeader, Find;
  }

  lemma DoneKeeps(m: Message)
    requires HeadersDone(m).Some?
    ensures HeadersDone(m).value == m.(state := BodyPending, framing := HeadersDone(m).value.framing)
  {
    hide ExpectedBody;
  }

  function PrintAll(msgs: seq<Printable>): string {
    if msgs == [] then "" else Print(msgs[0]) + PrintAll(msgs[1..])
  }

  /** Message `i` is well formed as an answer to request `i`. */
  predicate AllWellFormed(kind: Kind, requests: seq<Printable>, msgs: seq<Printable>) {
    && (kind == Response ==> |msgs| <= |requests|)
    && forall i | 0 <= i < |msgs| :: WellFormed(kind, RequestFor(kind, requests, i), msgs[i])
  }

  predicate AllTame(kind: Kind, requests: seq<Printable>, msgs: seq<Printable>) {
    forall i | 0 <= i < |msgs| :: Tame(kind, RequestFor(kind, requests, i), msgs[i])
  }

  function RequestFor(kind: Kind, requests: seq<Printable>, i: nat): Option<Printable> {
    if kind == Response && i < |requests| then Some(requests[i]) else None
  }

  function Answers(kind: Kind, requests: seq<Printable>, msgs: seq<Printable>): (r: seq<Completed>) {
    seq(|msgs|, i requires 0 <= i < |msgs| => Completed(RequestFor(kind, requests, i), msgs[i]))
  }

  /** The requests left when the first message has been paired. */
  function LaterRequests(kind: Kind, requests: seq<Printable>): seq<Printable> {
    if kind == Response && requests != [] then requests[1..] else requests
  }

  lemma FirstAnswer(kind: Kind, requests: seq<Printable>, msgs: seq<Printable>)
    requires msgs != [] && AllWellFormed(kind, requests, msgs)
    ensures WellFormed(kind, RequestFor(kind, requests, 0), msgs[0])
    ensures AllWellFormed(kind, LaterRequests(kind, requests), msgs[1..])
    ensures AllTame(kind, requests, msgs) <==>
            Tame(kind, RequestFor(kind, requests, 0), msgs[0]) && AllTame(kind, LaterRequests(kind, requests), msgs[1..])
    ensures Answers(kind, requests, msgs)
            == [Completed(RequestFor(kind, requests, 0), msgs[0])] + Answers(kind, LaterRequests(kind, requests), msgs[1..])
  {
    hide WellFormed, Tame;
    var later := LaterRequests(kind, requests);
    forall i | 0 <= i < |msgs| - 1
      ensures RequestFor(kind, later, i) == RequestFor(kind, requests, i + 1)
      ensures WellFormed(kind, RequestFor(kind, later, i), msgs[1..][i])
      ensures Tame(kind, RequestFor(kind, later, i), msgs[1..][i]) == Tame(kind, RequestFor(kind, requests, i + 1), msgs[i + 1])
    {
    }
    if Tame(kind, RequestFor(kind, requests, 0), msgs[0]) && AllTame(kind, later, msgs[1..]) {
      forall i | 0 <= i < |msgs|
        ensures Tame(kind, RequestFor(kind, requests, i), msgs[i])
      {
        if i > 0 { assert msgs[1..][i - 1] == msgs[i]; }
      }
    }
  }

  /** Everything read: all messages complete, nothing left over. */
  function AllRead(p: Parser, msgs: seq<Printable>): Parser
    requires p.message.kind == Response ==> |msgs| <= |p.requests|
  {
    p.(buffer := "", complete := p.complete + Answers(p.message.kind, p.requests, msgs),
       requests := if p.message.kind == Response then p.requests[|msgs|..] else p.requests)
  }

  lemma {:induction false} ReadsAll(p: Parser, msgs: seq<Printable>)
    requires Idle(p) && p.buffer == PrintAll(msgs) && AllWellFormed(p.message.kind, p.requests, msgs)
    ensures Settle(p) == Some(AllRead(p, msgs)) && (LooksOversize(p) <==> !AllTame(p.message.kind, p.requests, msgs))
    decreases |msgs|
  {
    hide Find, WellFormed, ChunkedParser.Step, Print, Answers, ParseStep, Settle, LooksOversize, Tame;
    var kind := p.message.kind;
    if msgs == [] {
      assert Answers(kind, p.requests, msgs) == [] by { NoAnswers(kind, p.requests); }
      assert p.complete + [] == p.complete;
      StartRests(p);
    } else {
      FirstAnswer(kind, p.requests, msgs);
      ReadsMessage(p, msgs[0], PrintAll(msgs[1..]));
      var q := AfterMessage(p, msgs[0], PrintAll(msgs[1..]));
      ReadsAll(q, msgs[1..]);
      assert q.complete + Answers(kind, q.requests, msgs[1..]) == p.complete + Answers(kind, p.requests, msgs);
    }
  }

  lemma NoAnswers(kind: Kind, requests: seq<Printable>)
    ensures Answers(kind, requests, []) == []
  {
  }

  /** The parser when all printed messages have come back. */
  function AllBack(kind: Kind, requests: seq<Printable>, msgs: seq<Printable>): Parser
    requires kind == Response ==> |msgs| <= |requests|
  {
    Parser("", Fresh(kind), Answers(kind, requests, msgs), if kind == Response then requests[|msgs|..] else requests)
  }

  /** The round trip under pipelining: printed messages, concatenated and cut
      into any non-empty pieces, come out of the parser in order, each response
      paired with its request, and nothing is left over; a chunk of 2^32 - 2
      bytes or more is the only reason to stop instead. */
  lemma {:induction false} PrintParseRoundTrip(kind: Kind, requests: seq<Printable>, msgs: seq<Printable>, pieces: seq<string>)
    requires AllWellFormed(kind, requests, msgs)
    requires NonEmpty(pieces) && Concat(pieces) == PrintAll(msgs)
    ensures ParseAll(Start(kind, requests), pieces) == Some(AllBack(kind, requests, msgs))
         || (ParseAll(Start(kind, requests), pieces) == None && !AllTame(kind, requests, msgs))
  {
    hide ParseAll, AllWellFormed, AllTame, ChunkedParser.Step, Settle, LooksOversize, Answers, PrintAll, Concat, NonEmpty;
    StartRests(Start(kind, requests));
    FragmentsDoNotMatter(Start(kind, requests), pieces);
    ReadsPrint(kind, requests, msgs);
  }

  /** The printed messages at once. */
  lemma {:induction false} ReadsPrint(kind: Kind, requests: seq<Printable>, msgs: seq<Printable>)
    requires AllWellFormed(kind, requests, msgs)
    ensures var p := More(Start(kind, requests), PrintAll(msgs));
            Settle(p) == Some(AllBack(kind, requests, msgs)) && (LooksOversize(p) <==> !AllTame(kind, requests, msgs))
  {
    hide AllTame, ChunkedParser.Step, Settle, LooksOversize, Answers, PrintAll, WellFormed;
    var p := More(Start(kind, requests), PrintAll(msgs));
    assert p.buffer == PrintAll(msgs);
    ReadsAll(p, msgs);
    assert [] + Answers(kind, requests, msgs) == Answers(kind, requests, msgs);
  }

  lemma {:induction false} StartRests(p: Parser)
    requires Idle(p) && p.buffer == ""
    ensures Settle(p) == Some(p) && !LooksOversize(p)
  {
    FindInEmpty();
    assert ParseStep(p) == Rest(p);
  }
}
