/** The sequence parser (mahimahi/src/http/http_message_sequence.hh and
    http_response_parser.cc): bytes in, complete messages out. */
module HttpSequence {
  import opened Words
  import opened Text
  import opened ChunkedParser
  import opened ChunkedFraming
  import opened HttpMessage

  /** A message in the queue of complete messages, with the request it answers. */
  datatype Completed = Completed(request: Option<Printable>, message: Printable)

  /** The whole parser: bytes not parsed yet, the message being read, the
      complete messages, and (for responses) the requests still to be matched. */
  datatype Parser = Parser(buffer: string, message: Message, complete: seq<Completed>, requests: seq<Printable>)

  function Start(kind: Kind, requests: seq<Printable>): Parser {
    Parser("", Fresh(kind), [], requests)
  }

  predicate Ok(p: Parser) {
    Sound(p.message) && (p.message.state != BodyPending && p.message.state != Complete ==> p.message.body == "")
  }

  function ToPrintable(m: Message): Printable {
    Printable(m.firstLine, m.headers, m.body)
  }

  function More(p: Parser, x: string): Parser {
    p.(buffer := p.buffer + x)
  }

  // ----- one parsing step -----

  /** `Again` loops, `Rest` waits for more bytes, `Stop` is an exception. */
  datatype StepResult = Again(p: Parser) | Rest(p: Parser) | Stop

  function TakeFirstLine(p: Parser, k: nat): StepResult
    requires k + 2 <= |p.buffer|
  {
    var line, rest := p.buffer[..k], p.buffer[k + 2..];
    match p.message.kind
    case Request => Again(p.(buffer := rest, message := WithFirstLine(p.message, line)))
    case Response =>
      if p.requests == [] then Stop
      else Again(p.(buffer := rest, requests := p.requests[1..],
                    message := WithFirstLine(WithRequest(p.message, Some(p.requests[0])), line)))
  }

  function TakeHeaderLine(p: Parser, k: nat): StepResult
    requires k + 2 <= |p.buffer|
  {
    var line, rest := p.buffer[..k], p.buffer[k + 2..];
    match if line == "" then HeadersDone(p.message) else WithHeader(p.message, line)
    case None => Stop
    case Some(m) => Again(p.(buffer := rest, message := m))
  }

  function TakeBody(p: Parser): StepResult
    requires p.message.state == BodyPending && Sound(p.message)
  {
    match BodyRead(p.message, p.buffer)
    case None => Stop
    case Some((m, taken)) =>
      var p' := p.(buffer := p.buffer[taken..], message := m);
      if m.state == Complete then Again(p') else Rest(p')
  }

  function ParseStep(p: Parser): (r: StepResult)
    requires Ok(p)
  {
    match p.message.state
    case FirstLinePending =>
      (match Find(p.buffer, CRLF) case None => Rest(p) case Some(k) => TakeFirstLine(p, k))
    case HeadersPending =>
      (match Find(p.buffer, CRLF) case None => Rest(p) case Some(k) => TakeHeaderLine(p, k))
    case BodyPending => TakeBody(p)
    case Complete =>
      Again(p.(message := Fresh(p.message.kind), complete := p.complete + [Completed(p.message.request, ToPrintable(p.message))]))
  }

  function StateRank(s: State): nat {
    match s case BodyPending => 2 case Complete => 1 case _ => 0
  }

  /** Bytes held: the body read so far and what is not parsed yet. */
  function Held(p: Parser): nat {
    |p.message.body| + |p.buffer|
  }

  /** Every step that loops makes the buffer shorter or the rank smaller, no
      step holds more bytes than before, and resting is never in Complete. */
  lemma StepFacts(p: Parser)
    requires Ok(p)
    ensures match ParseStep(p)
            case Again(q) =>
              && Ok(q) && Held(q) <= Held(p) && q.message.kind == p.message.kind
              && (|q.buffer| < |p.buffer| || (q.buffer == p.buffer && StateRank(q.message.state) < StateRank(p.message.state)))
            case Rest(q) =>
              && Ok(q) && Held(q) <= Held(p) && q.message.kind == p.message.kind
              && q.message.state != Complete && (q.message.state == BodyPending ==> q.buffer == "")
            case Stop => true
  {
    hide ExpectedBody, ParseHeader, ChunkedParser.Step, Find, Run;
    assert p.buffer[|p.buffer|..] == "";
  }

  /** Parsing until it rests; `None` when the program stops. */
  function Settle(p: Parser): (r: Option<Parser>)
    requires Ok(p)
    ensures r.Some? ==> Ok(r.value) && r.value.message.state != Complete && r.value.message.kind == p.message.kind
    ensures r.Some? ==> Held(r.value) <= Held(p)
    decreases |p.buffer|, StateRank(p.message.state)
  {
    StepFacts(p);
    match ParseStep(p)
    case Again(q) => Settle(q)
    case Rest(q) => Some(q)
    case Stop => None
  }

  /** `parse`: an empty input is the end of the stream. */
  function Parsed(p: Parser, buf: string): Option<Parser>
    requires Ok(p)
  {
    if buf == "" then
      match AtEof(p.message)
      case None => None
      case Some(m) => Settle(p.(message := m))
    else Settle(More(p, buf))
  }

  lemma EofOk(p: Parser)
    requires Ok(p)
    ensures AtEof(p.message).Some? ==> Ok(p.(message := AtEof(p.message).value))
  {
    hide ChunkedParser.Step;
  }

  lemma MoreOk(p: Parser, buf: string)
    requires Ok(p)
    ensures Ok(More(p, buf))
  {
    hide ChunkedParser.Step;
  }

  // ----- the object -----

  class HttpMessageSequence {
    const kind: Kind
    var buffer: string
    var message: HttpMessage
    var complete: seq<Completed>
    var requests: seq<Printable>

    ghost function Owned(): set<object>
      reads this, message
    {
      {this} + message.Owned()
    }

    ghost predicate Inside()
      reads this, message, message.Owned()
    {
      && this !in message.Owned()
      && message.Valid() && message.kind == kind && Ok(Value())
    }

    /** What holds between calls: the parser is never left in Complete. */
    ghost predicate Valid()
      reads this, message, message.Owned()
    {
      Inside() && message.state != Complete
    }

    ghost function Value(): Parser
      reads this, message, message.Owned()
    {
      Parser(buffer, message.Value(), complete, requests)
    }

    constructor (k: Kind)
      ensures Valid() && Value() == Start(k, []) && fresh(Owned())
    {
      kind := k;
      buffer := "";
      message := new HttpMessage(k);
      complete, requests := [], [];
    }

    method NewRequestArrived(request: Printable)
      requires Valid()
      modifies this
      ensures Valid() && Value() == old(Value()).(requests := old(requests) + [request]) && message == old(message)
    {
      hide ChunkedParser.Step;
      requests := requests + [request];
    }

    method Pop() returns (m: Completed)
      requires Valid() && complete != []
      modifies this
      ensures Valid() && m == old(complete)[0] && Value() == old(Value()).(complete := old(complete)[1..]) && message == old(message)
    {
      hide ChunkedParser.Step;
      m := complete[0];
      complete := complete[1..];
    }

    /** `get_and_pop_line`, on a buffer whose first line ends at `k`. */
    method GetAndPopLine(ghost k: nat) returns (line: string)
      requires Find(buffer, CRLF) == Some(k)
      modifies `buffer
      ensures line == old(buffer)[..k] && buffer == old(buffer)[k + 2..]
    {
      var ending := Find(buffer, CRLF).value;
      line := buffer[..ending];
      buffer := buffer[ending + |CRLF|..];
    }

    /** The state after a step is the one its result names. */
    twostate predicate Stepped(r: StepResult, ok: bool, again: bool)
      reads this, message, message.Owned()
    {
      && fresh(Owned() - old(Owned()))
      && ok == !r.Stop? && again == r.Again?
      && (ok ==> Inside() && Value() == r.p)
    }

    method FirstLineStep(ghost k: nat) returns (ok: bool)
      requires Inside() && message.state == FirstLinePending && Find(buffer, CRLF) == Some(k)
      modifies Owned()
      ensures Stepped(old(TakeFirstLine(Value(), k)), ok, ok)
    {
      hide ChunkedParser.Step, Find;
      if kind == Response {
        if requests == [] {
          return false;
        }
        message.SetRequest(requests[0]);
        requests := requests[1..];
      }
      var line := GetAndPopLine(k);
      message.SetFirstLine(line);
      return true;
    }

    method HeaderStep(ghost k: nat) returns (ok: bool)
      requires Inside() && message.state == HeadersPending && Find(buffer, CRLF) == Some(k)
      modifies Owned()
      ensures Stepped(old(TakeHeaderLine(Value(), k)), ok, ok)
    {
      hide Find, ExpectedBody, ParseHeader, ChunkedParser.Step;
      var line := GetAndPopLine(k);
      if line == "" {
        ok := message.DoneWithHeaders();
      } else {
        ok := message.AddHeader(line);
      }
    }

    method BodyStep() returns (ok: bool, again: bool)
      requires Inside() && message.state == BodyPending
      modifies Owned()
      ensures Stepped(old(TakeBody(Value())), ok, again)
    {
      hide BodyRead, ChunkedParser.Step;
      var taken;
      ok, taken := message.ReadInBody(buffer);
      if !ok {
        return false, false;
      }
      buffer := buffer[taken..];
      again := message.state == Complete;
    }

    method ParsingStep() returns (ok: bool, again: bool)
      requires Inside()
      modifies Owned()
      ensures Stepped(old(ParseStep(Value())), ok, again)
    {
      hide Find, TakeFirstLine, TakeHeaderLine, TakeBody, ChunkedParser.Step;
      match message.state
      case FirstLinePending =>
        if Find(buffer, CRLF).None? {
          return true, false;
        }
        ok := FirstLineStep(Find(buffer, CRLF).value);
        again := ok;
      case HeadersPending =>
        if Find(buffer, CRLF).None? {
          return true, false;
        }
        ok := HeaderStep(Find(buffer, CRLF).value);
        again := ok;
      case BodyPending =>
        ok, again := BodyStep();
      case Complete =>
        complete := complete + [Completed(message.request, Printable(message.firstLine, message.headers, message.body))];
        message := new HttpMessage(kind);
        return true, true;
    }

    method Parse(buf: string) returns (ok: bool)
      requires Valid()
      modifies Owned()
      ensures fresh(Owned() - old(Owned()))
      ensures ok == Parsed(old(Value()), buf).Some?
      ensures ok ==> Valid() && Value() == Parsed(old(Value()), buf).value
    {
      hide Settle, AtEof, Ok;
      if buf == "" {
        ok := message.Eof();
        if !ok { return; }
        assert buffer + buf == buffer;
        assert Ok(Value()) by { EofOk(old(Value())); }
      } else {
        assert Ok(More(Value(), buf)) by { MoreOk(Value(), buf); }
      }
      buffer := buffer + buf;
      assert Parsed(old(Value()), buf) == Settle(Value());
      ok := ParseAsMuchAsPossible();
    }

    /** The loop of `parse`. */
    method ParseAsMuchAsPossible() returns (ok: bool)
      requires Inside()
      modifies Owned()
      ensures fresh(Owned() - old(Owned()))
      ensures ok == Settle(old(Value())).Some?
      ensures ok ==> Valid() && Value() == Settle(old(Value())).value
    {
      hide ParseStep, ChunkedParser.Step;
      ghost var start := Value();
      var again := true;
      while again
        invariant fresh(Owned() - old(Owned()))
        invariant Inside()
        invariant if again then Settle(start) == Settle(Value()) else Settle(start) == Some(Value())
        decreases again, |buffer|, StateRank(message.state)
      {
        StepFacts(Value());
        ok, again := ParsingStep();
        if !ok { return; }
      }
      return true;
    }
  }
}
