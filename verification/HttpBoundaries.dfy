/** Exactly when packet boundaries do not matter to the sequence parser: unless an
    oversize chunk is looked into, and then they do. */
module HttpBoundaries {
  import opened Words
  import opened Text
  import opened ChunkedParser
  import opened ChunkedFraming
  import opened ChunkedForm
  import opened HttpMessage
  import opened HttpSequence
  import opened HttpPipeline

  /** The parser before it has got all of its buffer. */
  function Shortened(p: Parser, k: nat): Parser
    requires k <= |p.buffer|
  {
    p.(buffer := p.buffer[..k])
  }

  lemma ShortenedOk(p: Parser, k: nat)
    requires Ok(p) && k <= |p.buffer|
    ensures Ok(Shortened(p, k)) && More(Shortened(p, k), p.buffer[k..]) == p
  {
    hide ChunkedParser.Step;
    assert p.buffer[..k] + p.buffer[k..] == p.buffer;
  }

  /** One byte into the oversize chunk the body parser stops. */
  lemma StopsInBody(p: Parser) returns (k: nat)
    requires Ok(p) && BodyOversize(p)
    ensures k <= |p.buffer| && Ok(Shortened(p, k)) && ParseStep(Shortened(p, k)) == Stop
  {
    hide Run, Oversize, ChunkedParser.Step;
    var c, trailers, b := p.message.framing.config, p.message.framing.trailers, p.message.body;
    var s := b + p.buffer;
    var m := StopsEarly(c, s, trailers);
    StopsLater(c, b, p.buffer, m, trailers);
    k := m - |b|;
    ShortenedOk(p, k);
    assert s[..m] == b + p.buffer[..k];
  }

  /** Not before the bytes that come now: on those already read, it waits. */
  lemma {:induction false} StopsLater(c: Config, b: string, x: string, m: nat, trailers: bool)
    requires c.pos <= |b| && c.size < U32 && ChunkedParser.Step(c, b, trailers) == Wait
    requires c.pos < m <= |b + x| && Run(c, (b + x)[..m], trailers) == Error
    ensures m > |b|
  {
    hide ChunkedParser.Step;
    assert m <= |b| ==> (b + x)[..m] == b[..m];
    if m <= |b| { WaitsOnPart(c, b, m, trailers); }
  }

  lemma WaitsOnPart(c: Config, b: string, m: nat, trailers: bool)
    requires c.pos <= m <= |b| && c.size < U32 && ChunkedParser.Step(c, b, trailers) == Wait
    ensures ChunkedParser.Step(c, b[..m], trailers) == Wait
  {
    hide ChunkedParser.Step;
    WaitsBeforeOversize(c, b, trailers);
    assert b[..m] + b[m..] == b;
    ChunkedParser.StepGrows(c, b[..m], b[m..], trailers);
  }

  /** A step that loops on the whole buffer loops, or stops, on any part of it
      that holds what the step took. */
  lemma StepOnPart(p: Parser, q: Parser, k: nat)
    requires Ok(p) && ParseStep(p) == Again(q) && k <= |q.buffer|
    ensures var n := |p.buffer| - |q.buffer|;
            && 0 <= n && Ok(Shortened(p, n + k))
            && ParseStep(Shortened(p, n + k)) in {Again(Shortened(q, k)), Stop}
  {
    hide ParseStep, ChunkedParser.Step;
    StepFacts(p);
    var n := |p.buffer| - |q.buffer|;
    var short, rest := Shortened(p, n + k), p.buffer[n + k..];
    ShortenedOk(p, n + k);
    HttpPipeline.StepGrows(short, rest);
    match ParseStep(short)
    case Again(q') =>
      assert q'.buffer + rest == q.buffer;
      assert q'.buffer == q.buffer[..k];
    case Rest(r) => RestsNoLonger(p, q, k);
    case Stop =>
  }

  lemma RestsNoLonger(p: Parser, q: Parser, k: nat)
    requires Ok(p) && ParseStep(p) == Again(q) && k <= |q.buffer| <= |p.buffer|
    requires Ok(Shortened(p, |p.buffer| - |q.buffer| + k))
    ensures !ParseStep(Shortened(p, |p.buffer| - |q.buffer| + k)).Rest?
  {
    hide Find, ExpectedBody, ParseHeader, Run, ChunkedParser.Step;
    var short := Shortened(p, |p.buffer| - |q.buffer| + k);
    if p.message.state == BodyPending {
      assert short.buffer + p.buffer[|short.buffer|..] == p.buffer;
      BodyRestsNoLonger(p.message, short.buffer, p.buffer[|short.buffer|..]);
    } else if p.message.state != Complete {
      var i := Find(p.buffer, CRLF).value;
      assert short.buffer + p.buffer[|short.buffer|..] == p.buffer;
      FindGrows(short.buffer, p.buffer[|short.buffer|..], CRLF);
      assert |short.buffer| >= i + 2;
    }
  }

  /** A body that completes with what comes takes at least one byte of it. */
  lemma BodyRestsNoLonger(m: Message, s: string, x: string)
    requires m.state == BodyPending && Sound(m) && BodyRead(m, s + x).Some?
    requires BodyRead(m, s + x).value.0.state == Complete && BodyRead(m, s + x).value.1 <= |s|
    ensures BodyRead(m, s).None? || BodyRead(m, s).value.0.state == Complete
  {
    hide Run, Oversize, ChunkedParser.Step;
    BodyGrows(m, s, x);
    if BodyRead(m, s).Some? && BodyRead(m, s).value.0.state != Complete {
      CompletesForward(BodyRead(m, s).value.0, x);
    }
  }

  lemma CompletesForward(m: Message, x: string)
    requires m.state == BodyPending && Sound(m) && (m.framing.Known? ==> |m.body| < m.framing.size)
    ensures BodyRead(m, x).Some? && BodyRead(m, x).value.0.state == Complete ==> BodyRead(m, x).value.1 > 0
  {
    hide Run, ChunkedParser.Step;
    if m.framing.Chunks? { EndIsNew(m.framing.config, m.body, x, m.framing.trailers); }
  }

  /** Some first part of the buffer makes the parser stop. */
  lemma {:induction false} StopsOnPart(p: Parser) returns (k: nat)
    requires Ok(p) && LooksOversize(p)
    ensures k <= |p.buffer| && Ok(Shortened(p, k)) && Settle(Shortened(p, k)) == None
    decreases |p.buffer|, StateRank(p.message.state)
  {
    hide ParseStep, BodyOversize, ChunkedParser.Step;
    StepFacts(p);
    if BodyOversize(p) {
      k := StopsInBody(p);
    } else {
      var q := ParseStep(p).p;
      var i := StopsOnPart(q);
      StepOnPart(p, q, i);
      k := |p.buffer| - |q.buffer| + i;
    }
    StepFacts(Shortened(p, k));
  }

  /** However a stream is cut into pieces, the outcome is that of the whole. */
  ghost predicate BoundariesDoNotMatter(p: Parser, s: string)
    requires Ok(p)
  {
    Ok(More(p, s)) &&
    forall pieces: seq<string> | NonEmpty(pieces) && Concat(pieces) == s :: ParseAll(p, pieces) == Settle(More(p, s))
  }

  /** Packet boundaries do not matter exactly when no oversize chunk is looked
      into, or the parser stops on the whole as well. */
  lemma {:induction false} BoundariesMatterIff(p: Parser, s: string)
    requires Ok(p) && Settle(p) == Some(p)
    ensures Ok(More(p, s))
    ensures BoundariesDoNotMatter(p, s) <==> (!LooksOversize(More(p, s)) || Settle(More(p, s)) == None)
  {
    hide Ok, Settle, LooksOversize, ParseAll, NonEmpty, Concat;
    MoreOk(p, s);
    forall pieces | NonEmpty(pieces) && Concat(pieces) == s
      ensures ParseAll(p, pieces) == Settle(More(p, s)) || (ParseAll(p, pieces) == None && LooksOversize(More(p, s)))
    {
      FragmentsDoNotMatter(p, pieces);
    }
    if LooksOversize(More(p, s)) && Settle(More(p, s)) != None {
      var pieces := CutWhereItStops(p, s);
      assert ParseAll(p, pieces) != Settle(More(p, s));
    }
  }

  lemma CutWhereItStops(p: Parser, s: string) returns (pieces: seq<string>)
    requires Ok(p) && Ok(More(p, s)) && Settle(p) == Some(p) && LooksOversize(More(p, s)) && Settle(More(p, s)) != None
    ensures NonEmpty(pieces) && Concat(pieces) == s && ParseAll(p, pieces) == None
  {
    hide Ok, Settle, LooksOversize;
    var k := StopsOnPart(More(p, s));
    var short := Shortened(More(p, s), k);
    if k <= |p.buffer| {
      assert short == Shortened(p, k);
      ShortenedOk(p, k);
      SettleGrows(short, p.buffer[k..]);
      RestLooksNowhere(p);
    }
    var n := k - |p.buffer|;
    assert short.buffer == p.buffer + s[..n];
    assert short == More(p, s[..n]);
    assert s[..|s|] == s;
    pieces := [s[..n], s[n..]];
    assert pieces[1..] == [s[n..]] && pieces[1..][1..] == [];
    assert Concat(pieces[1..]) == s[n..] + "" == s[n..];
    assert Concat(pieces) == s[..n] + s[n..] == s;
  }

  /** Settling that loops at all leaves a shorter buffer or a lower rank. */
  lemma {:induction false} SettleShrinks(p: Parser)
    requires Ok(p) && Settle(p).Some?
    ensures var q := Settle(p).value;
            && |q.buffer| <= |p.buffer|
            && (ParseStep(p).Again? ==> |q.buffer| < |p.buffer| || StateRank(q.message.state) < StateRank(p.message.state))
            && (|q.buffer| == |p.buffer| ==> StateRank(q.message.state) <= StateRank(p.message.state))
    decreases |p.buffer|, StateRank(p.message.state)
  {
    hide ParseStep, ChunkedParser.Step;
    StepFacts(p);
    match ParseStep(p)
    case Again(q) => SettleShrinks(q);
    case Rest(q) => RestKeeps(p);
  }

  lemma RestKeeps(p: Parser)
    requires Ok(p) && ParseStep(p).Rest?
    ensures var q := ParseStep(p).p; |q.buffer| <= |p.buffer| && q.message.state == p.message.state
  {
    hide Find, ExpectedBody, ParseHeader, BodyRead, ChunkedParser.Step;
  }

  lemma {:induction false} RestLooksNowhere(p: Parser)
    requires Ok(p) && Settle(p) == Some(p)
    ensures !LooksOversize(p)
  {
    hide ParseStep, Oversize, ChunkedParser.Step, Settle;
    SettleShrinks(p);
    if BodyOversize(p) {
      RestsEmpty(p);
      var m := p.message;
      assert m.body + "" == m.body;
      WaitsBeforeOversize(m.framing.config, m.body, m.framing.trailers);
    }
  }

  lemma {:induction false} WaitsBeforeOversize(c: Config, s: string, trailers: bool)
    requires c.pos <= |s| && c.size < U32 && ChunkedParser.Step(c, s, trailers) == Wait
    ensures !Oversize(c, s, trailers)
  {
    hide StepHeader, Find;
  }

  /** With fewer than 2^32 bytes in hand, an oversize chunk makes the parser stop on
      the whole as well. */
  lemma {:induction false} ShortStops(p: Parser)
    requires Ok(p) && Held(p) < U32 && LooksOversize(p)
    ensures Settle(p) == None
    decreases |p.buffer|, StateRank(p.message.state)
  {
    hide ParseStep, BodyOversize, ChunkedParser.Step;
    StepFacts(p);
    if BodyOversize(p) {
      ShortBodyStops(p);
    } else {
      ShortStops(ParseStep(p).p);
    }
  }

  lemma ShortBodyStops(p: Parser)
    requires Ok(p) && Held(p) < U32 && BodyOversize(p)
    ensures ParseStep(p) == Stop
  {
    hide Run, Oversize, ChunkedParser.Step;
    var c, trailers, s := p.message.framing.config, p.message.framing.trailers, p.message.body + p.buffer;
    var m := StopsEarly(c, s, trailers);
    assert s[..m] + s[m..] == s;
    ErrorStays(c, s[..m], s[m..], trailers);
  }

  /** So below 2^32 bytes packet boundaries never matter. */
  lemma {:induction false} ShortStreamsHaveNoBoundaries(p: Parser, s: string)
    requires Ok(p) && Settle(p) == Some(p) && Held(p) + |s| < U32
    ensures BoundariesDoNotMatter(p, s)
  {
    hide Ok, Settle, LooksOversize, BoundariesDoNotMatter;
    BoundariesMatterIff(p, s);
    if LooksOversize(More(p, s)) { ShortStops(More(p, s)); }
  }

  // ----- printed messages -----

  /** However the printed messages are cut into pieces, they all come back. */
  ghost predicate AlwaysBack(kind: Kind, requests: seq<Printable>, msgs: seq<Printable>)
    requires kind == Response ==> |msgs| <= |requests|
  {
    forall pieces: seq<string> | NonEmpty(pieces) && Concat(pieces) == PrintAll(msgs) ::
      ParseAll(Start(kind, requests), pieces) == Some(AllBack(kind, requests, msgs))
  }

  /** Well-formed messages survive printing and parsing in any pieces exactly when
      none of them has a chunk of 2^32 - 2 bytes or more. */
  lemma RoundTripIff(kind: Kind, requests: seq<Printable>, msgs: seq<Printable>)
    requires AllWellFormed(kind, requests, msgs)
    ensures AlwaysBack(kind, requests, msgs) <==> AllTame(kind, requests, msgs)
  {
    hide ParseAll, AllTame, ChunkedParser.Step, Settle, LooksOversize, Answers, PrintAll, Concat, NonEmpty, WellFormed;
    var p := Start(kind, requests);
    StartRests(p);
    ReadsPrint(kind, requests, msgs);
    BoundariesMatterIff(p, PrintAll(msgs));
  }

  // ----- a stream on which they matter -----

  /** A chunked response whose headers have been read. */
  predicate AtChunks(p: Parser) {
    && p.message.kind == Response && p.message.state == BodyPending && p.message.body == ""
    && p.message.framing == Chunks(INITIAL, false) && p.buffer == ""
  }

  /** A stream of more than four gigabytes on which the parser goes on or stops,
      depending on how it is cut. */
  lemma BoundariesCanMatter(p: Parser, filler: string)
    requires AtChunks(p) && p.requests != [] && |filler| == U32 - 2 - 5 && Find(filler, CRLF).None?
    ensures Ok(p) && !BoundariesDoNotMatter(p, WrappingStream(filler))
  {
    hide Run, Oversize, ChunkedParser.Step, Find;
    var s := WrappingStream(filler);
    AtChunksRests(p);
    FragmentsCanMatter(filler);
    var all := More(p, s);
    MoreOk(p, s);
    assert "" + s == s;
    assert LooksOversize(all) by { assert BodyOversize(all); }
    GoesOn(p, filler);
    BoundariesMatterIff(p, s);
  }

  lemma {:induction false} AtChunksRests(p: Parser)
    requires AtChunks(p)
    ensures Ok(p) && Settle(p) == Some(p)
  {
  }

  /** On the whole stream it takes the body, and a first line behind it. */
  lemma GoesOn(p: Parser, filler: string)
    requires AtChunks(p) && Ok(p) && p.requests != [] && Find(filler, CRLF).None?
    requires Decode(WrappingStream(filler), false) == Done(15)
    ensures Ok(More(p, WrappingStream(filler))) && Settle(More(p, WrappingStream(filler))).Some?
  {
    hide Run, ChunkedParser.Step, Find, Settle, WrappingStream, LooksOversize, BodyOversize, BodyRead, ParseStep;
    var s := WrappingStream(filler);
    MoreOk(p, s);
    var all := More(p, s);
    assert all.buffer == s;
    BehindTheEnd(filler);
    TakesBody(all.message, s);
    ReadsRest(all, s[..15], s[15..]);
    TakesLine(all.(buffer := s[15..], message := Fresh(Response),
                   complete := all.complete + [Completed(all.message.request, ToPrintable(Finished(all.message, s[..15])))]), filler);
  }

  lemma BehindTheEnd(filler: string)
    ensures |WrappingStream(filler)| >= 15 && WrappingStream(filler)[15..] == filler + CRLF + ""
  {
  }

  lemma TakesBody(m: Message, s: string)
    requires m.state == BodyPending && Sound(m) && m.body == "" && m.framing == Chunks(INITIAL, false)
    requires Decode(s, false) == Done(15)
    ensures |s| >= 15 && s == s[..15] + s[15..] && BodyRead(m, s) == Some((Finished(m, s[..15]), 15))
  {
    hide Run, ChunkedParser.Step;
    assert "" + s == s && "" + s[..15] == s[..15];
  }

  lemma {:induction false} TakesLine(p: Parser, line: string)
    requires Idle(p) && p.message.kind == Response && p.requests != [] && Find(line, CRLF).None? && p.buffer == line + CRLF + ""
    ensures Settle(p).Some?
  {
    hide Find, Settle, ChunkedParser.Step;
    LineAt(line, "");
    FindInEmpty();
    var q := ParseStep(p).p;
    StepSettles(p, q);
    assert ParseStep(q) == Rest(q);
    assert Settle(q) == Some(q) by { SettleRests(q); }
  }

  lemma {:induction false} SettleRests(p: Parser)
    requires Ok(p) && ParseStep(p) == Rest(p)
    ensures Settle(p) == Some(p)
  {
    hide ParseStep;
  }
}
