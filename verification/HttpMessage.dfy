/** One HTTP message as it is read (mahimahi/src/http/http_message.cc,
    http_header.cc, http_request.cc, http_response.cc): its value and what each
    call does to it, and the object that the sequence parser fills in. */
module HttpMessage {
  import opened Words
  import opened Text
  import opened ChunkedParser

  datatype State = FirstLinePending | HeadersPending | BodyPending | Complete

  datatype Header = Header(key: string, value: string)

  datatype Kind = Request | Response

  /** What a complete message is printed from. */
  datatype Printable = Printable(firstLine: string, headers: seq<Header>, body: string)

  /** How the end of a body is found. */
  datatype Framing = Known(size: nat) | Chunks(config: Config, trailers: bool) | UntilEof

  /** A message being read; `request` is the request a response answers, and
      `framing` counts while the body is pending. */
  datatype Message = Message(
    kind: Kind, request: Option<Printable>,
    state: State, firstLine: string, headers: seq<Header>, body: string, framing: Framing)

  function Fresh(kind: Kind): Message {
    Message(kind, None, FirstLinePending, "", [], "", UntilEof)
  }

  // ----- headers -----

  /** The value text without its leading spaces, unless it is nothing else. */
  function ParseHeader(line: string): Option<Header> {
    match Find(line, ":")
    case None => None
    case Some(colon) =>
      var rest := line[colon + 1..];
      var stripped := StripInitialSpace(rest);
      Some(Header(line[..colon], if stripped == "" then rest else stripped))
  }

  function PrintHeader(h: Header): string {
    h.key + ": " + h.value
  }

  /** The value of the first header with an equivalent name. */
  function HeaderValue(hs: seq<Header>, name: string): (r: Option<string>)
    ensures r.None? <==> forall h | h in hs :: !EquivalentStrings(h.key, name)
  {
    if hs == [] then None
    else if EquivalentStrings(hs[0].key, name) then Some(hs[0].value)
    else HeaderValue(hs[1..], name)
  }

  /** Of several headers with that name, the first one counts. */
  lemma {:induction false} FirstValueCounts(hs: seq<Header>, name: string) returns (i: nat)
    requires HeaderValue(hs, name).Some?
    ensures i < |hs| && EquivalentStrings(hs[i].key, name) && HeaderValue(hs, name) == Some(hs[i].value)
    ensures forall j | 0 <= j < i :: !EquivalentStrings(hs[j].key, name)
    decreases |hs|
  {
    hide EquivalentStrings;
    if EquivalentStrings(hs[0].key, name) {
      i := 0;
    } else {
      i := FirstValueCounts(hs[1..], name);
      assert forall j | 0 < j < i + 1 :: hs[j] == hs[1..][j - 1];
      i := i + 1;
    }
  }

  /** Two spellings of the same headers: names differ in letter case and in
      leading spaces, values not at all. */
  predicate SameHeaders(hs: seq<Header>, hs': seq<Header>) {
    |hs| == |hs'| && forall i | 0 <= i < |hs| :: EquivalentStrings(hs[i].key, hs'[i].key) && hs[i].value == hs'[i].value
  }

  lemma EquivalentTransfers(a: string, b: string, name: string)
    requires EquivalentStrings(a, b)
    ensures EquivalentStrings(a, name) == EquivalentStrings(b, name)
  {
    hide StripInitialSpace, ToLower;
    var x, y, z := StripInitialSpace(a), StripInitialSpace(b), StripInitialSpace(name);
    if |x| == |z| {
      assert forall i | 0 <= i < |x| :: (ToLower(x[i]) == ToLower(z[i])) == (ToLower(y[i]) == ToLower(z[i]));
    }
  }

  lemma {:induction false} SpellingDoesNotMatter(hs: seq<Header>, hs': seq<Header>, name: string)
    requires SameHeaders(hs, hs')
    ensures HeaderValue(hs, name) == HeaderValue(hs', name)
    decreases |hs|
  {
    hide EquivalentStrings;
    if hs != [] {
      EquivalentTransfers(hs[0].key, hs'[0].key, name);
      SpellingDoesNotMatter(hs[1..], hs'[1..], name);
    }
  }

  /** How a body ends does not depend on how header names are spelled. */
  lemma FramingIgnoresSpelling(m: Message, m': Message)
    requires m' == m.(headers := m'.headers) && SameHeaders(m.headers, m'.headers)
    ensures ExpectedBody(m') == ExpectedBody(m)
  {
    hide HeaderValue, EquivalentStrings, SameHeaders, Split, Myatoi, StatusCode, StartsWith;
    SpellingDoesNotMatter(m.headers, m'.headers, "Content-Length");
    SpellingDoesNotMatter(m.headers, m'.headers, "Transfer-Encoding");
    SpellingDoesNotMatter(m.headers, m'.headers, "Trailer");
    SpellingDoesNotMatter(m.headers, m'.headers, "Content-Type");
  }

  predicate HasHeader(hs: seq<Header>, name: string) {
    HeaderValue(hs, name).Some?
  }

  predicate StartsWith(s: string, prefix: string) {
    |prefix| <= |s| && s[..|prefix|] == prefix
  }

  predicate IsHead(request: Printable) {
    StartsWith(request.firstLine, "HEAD ")
  }

  // ----- calculate_expected_body_size -----

  /** A `long` given to a `size_t`. */
  function ToSize(n: int): nat {
    n % U64
  }

  function ContentLength(hs: seq<Header>): Option<Framing> {
    match HeaderValue(hs, "Content-Length")
    case None => None
    case Some(v) => (match Myatoi(v, 10) case None => None case Some(n) => Some(Known(ToSize(n))))
  }

  function RequestFraming(firstLine: string, hs: seq<Header>): Option<Framing> {
    if StartsWith(firstLine, "GET ") || StartsWith(firstLine, "HEAD ") then Some(Known(0))
    else if StartsWith(firstLine, "POST ") then ContentLength(hs)
    else None
  }

  function StatusCode(firstLine: string): Option<string> {
    var tokens := Split(firstLine, ' ');
    if |tokens| < 3 then None else Some(tokens[1])
  }

  predicate IsChunked(hs: seq<Header>) {
    match HeaderValue(hs, "Transfer-Encoding")
    case None => false
    case Some(v) => var codings := Split(v, ','); EquivalentStrings(codings[|codings| - 1], "chunked")
  }

  /** The rules of RFC 2616 section 4.4, in order; `None` is an exception. */
  function ResponseFraming(request: Option<Printable>, firstLine: string, hs: seq<Header>): Option<Framing> {
    match StatusCode(firstLine)
    case None => None
    case Some(code) =>
      if code == "" then None
      else if code[0] == '1' || code == "204" || code == "304" then Some(Known(0))
      else if request.None? then None
      else if IsHead(request.value) then Some(Known(0))
      else if IsChunked(hs) then Some(Chunks(INITIAL, HasHeader(hs, "Trailer")))
      else if !HasHeader(hs, "Transfer-Encoding") && HasHeader(hs, "Content-Length") then ContentLength(hs)
      else
        match HeaderValue(hs, "Content-Type")
        case None => Some(UntilEof)
        case Some(v) =>
          var mime := Split(v, ';')[0];
          if mime == "" || EquivalentStrings(mime, "multipart/byteranges") then None else Some(UntilEof)
  }

  function ExpectedBody(m: Message): Option<Framing> {
    match m.kind
    case Request => RequestFraming(m.firstLine, m.headers)
    case Response => ResponseFraming(m.request, m.firstLine, m.headers)
  }

  // ----- what each call does; `None` is an exception or a failed assertion -----

  function WithRequest(m: Message, r: Option<Printable>): Message {
    m.(request := r)
  }

  function WithFirstLine(m: Message, line: string): Message {
    m.(firstLine := line, state := HeadersPending)
  }

  function WithHeader(m: Message, line: string): Option<Message> {
    match ParseHeader(line)
    case None => None
    case Some(h) => Some(m.(headers := m.headers + [h]))
  }

  function HeadersDone(m: Message): (r: Option<Message>)
    ensures r.Some? ==> r.value.state == BodyPending && (m.body == "" ==> Sound(r.value))
    ensures r.Some? && m.kind == Request ==> r.value.framing.Known?
  {
    match ExpectedBody(m)
    case None => None
    case Some(f) => Some(m.(state := BodyPending, framing := f))
  }

  /** Chunked decoding stands where the body read so far has brought it. */
  predicate Sound(m: Message) {
    m.state == BodyPending ==>
      match m.framing
      case Known(n) => |m.body| <= n
      case Chunks(c, trailers) => m.kind == Response && c.pos <= |m.body| && c.size < U32 && Step(c, m.body, trailers) == Wait
      case UntilEof => m.kind == Response
  }

  function Finished(m: Message, body: string): Message {
    m.(body := body, state := Complete, framing := UntilEof)
  }

  /** `read_in_body`: the new message and how many bytes it took. */
  function BodyRead(m: Message, s: string): (r: Option<(Message, nat)>)
    requires m.state == BodyPending && Sound(m)
    ensures r.Some? ==> r.value.1 <= |s| && r.value.0.body == m.body + s[..r.value.1]
    ensures r.Some? && r.value.0.state == Complete ==> r.value.0 == Finished(m, r.value.0.body)
    ensures r.Some? && r.value.0.state != Complete ==>
              r.value.1 == |s| && r.value.0 == m.(body := m.body + s, framing := r.value.0.framing) && Sound(r.value.0)
  {
    assert s[..|s|] == s;
    match m.framing
    case Known(n) =>
      var amount := if n - |m.body| < |s| then n - |m.body| else |s|;
      var body := m.body + s[..amount];
      Some((if |body| == n then Finished(m, body) else m.(body := body), amount))
    case Chunks(c, trailers) =>
      (match Run(c, m.body + s, trailers)
       case Pending(c') => Some((m.(body := m.body + s, framing := Chunks(c', trailers)), |s|))
       case Done(end) =>
         EndIsNew(c, m.body, s, trailers);
         Some((Finished(m, m.body + s[..end - |m.body|]), end - |m.body|))
       case Error => None)
    case UntilEof => Some((m.(body := m.body + s), |s|))
  }

  /** Chunked decoding stands where decoding the body from its start leads. */
  predicate Tracks(m: Message) {
    m.framing.Chunks? ==> Decode(m.body, m.framing.trailers) == Pending(m.framing.config)
  }

  /** A body of known size is complete exactly with its last byte and takes none
      after it; a chunked body is where decoding all of it from the start ends it,
      or fails with that; any other body takes everything and never completes. */
  lemma BodyEnds(m: Message, s: string)
    requires m.state == BodyPending && Sound(m) && Tracks(m)
    ensures var r, missing := BodyRead(m, s), if m.framing.Known? then m.framing.size - |m.body| else 0;
            match m.framing
            case Known(n) => r.Some? && r.value.1 == Min(missing, |s|) && (r.value.0.state == Complete <==> |s| >= missing)
            case Chunks(_, trailers) =>
              (match Decode(m.body + s, trailers)
               case Pending(_) => r.Some? && r.value.1 == |s| && r.value.0.state == BodyPending && Tracks(r.value.0)
               case Done(end) => r.Some? && r.value.1 == end - |m.body| && r.value.0.state == Complete
               case Error => r == None)
            case UntilEof => r.Some? && r.value.1 == |s| && r.value.0.state == BodyPending
  {
    hide Run, Step;
    assert s[..|s|] == s;
    if m.framing.Chunks? {
      var c, trailers := m.framing.config, m.framing.trailers;
      RunGrows(INITIAL, m.body, s, trailers);
      EndIsNew(c, m.body, s, trailers);
    }
  }

  lemma TracksFromTheStart(m: Message)
    requires m.body == "" && HeadersDone(m).Some?
    ensures Tracks(HeadersDone(m).value)
  {
    hide ExpectedBody, Step;
    FramingKinds(m);
    OneStep(INITIAL, "", "", true);
    OneStep(INITIAL, "", "", false);
  }

  function AtEof(m: Message): Option<Message> {
    match m.state
    case FirstLinePending => Some(m)
    case HeadersPending => None
    case BodyPending => if m.kind == Response && !m.framing.Known? then Some(Finished(m, m.body)) else None
    case Complete => None
  }

  /** `str`, for a complete message. */
  function PrintHeaders(hs: seq<Header>): string {
    if hs == [] then "" else PrintHeader(hs[0]) + CRLF + PrintHeaders(hs[1..])
  }

  function Print(p: Printable): string {
    p.firstLine + CRLF + (PrintHeaders(p.headers) + (CRLF + p.body))
  }

  // ----- header lines -----

  lemma {:induction false} StripsNothing(s: string)
    requires s != "" && s[0] != ' '
    ensures StripInitialSpace(s) == s && StripInitialSpace(" " + s) == s
  {
    assert (" " + s)[1..] == s;
  }

  /** The first colon of a printed header: the one behind its key, unless the key
      has one. */
  lemma PrintedColon(h: Header) returns (c: nat)
    ensures c <= |h.key| && (c == |h.key| <==> ':' !in h.key)
    ensures var line := PrintHeader(h); Find(line, ":") == Some(c) && line[..c] == h.key[..c]
    ensures c == |h.key| ==> PrintHeader(h)[c + 1..] == " " + h.value
  {
    var line, k := PrintHeader(h), |h.key|;
    assert line[k..k + 1] == ":";
    assert MatchAt(line, ":", k);
    c := Find(line, ":").value;
    assert line[c..c + 1][0] == line[c] == ':';
    if ':' in h.key {
      var j :| 0 <= j < k && h.key[j] == ':';
      assert line[j..j + 1] == ":";
      assert MatchAt(line, ":", j);
    }
    assert c < k ==> line[c] == h.key[c];
  }

  /** What is kept of a printed value. */
  lemma ValueBack(value: string)
    ensures var rest := " " + value; var stripped := StripInitialSpace(rest);
            (if stripped == "" then rest else stripped) == value <==> value != "" && value[0] != ' '
  {
    hide StripInitialSpace;
    if value != "" && value[0] != ' ' { StripsNothing(value); }
    assert |" " + value| == |value| + 1;
  }

  /** Printing and parsing a header gives it back exactly when its key has no
      colon and its value is not empty and does not start with a space. */
  lemma HeaderRoundTripIff(h: Header)
    ensures ParseHeader(PrintHeader(h)) == Some(h) <==> ':' !in h.key && h.value != "" && h.value[0] != ' '
  {
    hide StripInitialSpace, Find, PrintHeader;
    var c := PrintedColon(h);
    ValueBack(h.value);
    assert h.key[..|h.key|] == h.key;
  }

  // ----- the object -----

  /** `body_parser_`, the owned parser of a body without a known size. */
  datatype BodyParser = NoParser | Rule5Parser | ChunkedBody(parser: ChunkedBodyParser)

  class HttpMessage {
    const kind: Kind
    var request: Option<Printable>
    var state: State
    var firstLine: string
    var headers: seq<Header>
    var body: string
    var sizeKnown: bool
    var expectedSize: nat
    var bodyParser: BodyParser

    ghost function Owned(): set<object>
      reads this
    {
      if bodyParser.ChunkedBody? then {this, bodyParser.parser} else {this}
    }

    /** While a chunked body is pending, its parser has seen exactly the body. */
    ghost predicate Valid()
      reads this, Owned()
    {
      && (state == FirstLinePending || state == HeadersPending ==> !sizeKnown && bodyParser == NoParser && body == "")
      && (state == BodyPending ==>
            if sizeKnown then bodyParser == NoParser && |body| <= expectedSize
            else
              && kind == Response && bodyParser != NoParser
              && (bodyParser.ChunkedBody? ==> bodyParser.parser.Valid() && bodyParser.parser.seen == body))
    }

    ghost function CurrentFraming(): Framing
      reads this, Owned()
    {
      if state != BodyPending then UntilEof
      else if sizeKnown then Known(expectedSize)
      else if bodyParser.ChunkedBody? then Chunks(bodyParser.parser.Cfg(), bodyParser.parser.trailersEnabled)
      else UntilEof
    }

    /** The value this object stands for. */
    ghost function Value(): Message
      reads this, Owned()
    {
      Message(kind, request, state, firstLine, headers, body, CurrentFraming())
    }

    constructor (k: Kind)
      ensures Valid() && Value() == Fresh(k) && fresh(Owned())
    {
      kind := k;
      request := None;
      state := FirstLinePending;
      firstLine, headers, body := "", [], "";
      sizeKnown, expectedSize, bodyParser := false, 0, NoParser;
    }

    method SetRequest(r: Printable)
      requires Valid() && state == FirstLinePending
      modifies this
      ensures Valid() && Value() == WithRequest(old(Value()), Some(r)) && Owned() == old(Owned())
    {
      hide Step;
      request := Some(r);
    }

    method SetFirstLine(line: string)
      requires Valid() && state == FirstLinePending
      modifies this
      ensures Valid() && Value() == WithFirstLine(old(Value()), line) && Owned() == old(Owned())
    {
      hide Step;
      firstLine := line;
      state := HeadersPending;
    }

    method AddHeader(line: string) returns (ok: bool)
      requires Valid() && state == HeadersPending
      modifies this
      ensures Owned() == old(Owned())
      ensures ok == WithHeader(old(Value()), line).Some?
      ensures ok ==> Valid() && Value() == WithHeader(old(Value()), line).value
    {
      hide ParseHeader, Step, Find;
      match ParseHeader(line)
      case None => return false;
      case Some(h) =>
        headers := headers + [h];
        return true;
    }

    method DoneWithHeaders() returns (ok: bool)
      requires Valid() && state == HeadersPending
      modifies this
      ensures fresh(Owned() - old(Owned()))
      ensures ok == HeadersDone(old(Value())).Some?
      ensures ok ==> Valid() && Value() == HeadersDone(old(Value())).value
    {
      hide RequestFraming, ResponseFraming, Step;
      ghost var before := Value();
      state := BodyPending;
      var f := if kind == Request then RequestFraming(firstLine, headers) else ResponseFraming(request, firstLine, headers);
      assert f == ExpectedBody(before);
      FramingKinds(before);
      ok := f.Some?;
      match f {
        case None =>
        case Some(Known(n)) =>
          sizeKnown, expectedSize := true, n;
        case Some(Chunks(c, trailers)) =>
          var p := new ChunkedBodyParser(trailers);
          bodyParser := ChunkedBody(p);
        case Some(UntilEof) =>
          bodyParser := Rule5Parser;
      }
    }

    method ReadInBody(s: string) returns (ok: bool, taken: nat)
      requires Valid() && state == BodyPending
      modifies Owned()
      ensures Sound(old(Value())) && Owned() == old(Owned())
      ensures ok == BodyRead(old(Value()), s).Some?
      ensures ok ==> Valid() && (Value(), taken) == BodyRead(old(Value()), s).value
    {
      hide Step;
      if sizeKnown {
        var amount := if expectedSize - |body| < |s| then expectedSize - |body| else |s|;
        body := body + s[..amount];
        if |body| == expectedSize {
          state := Complete;
        }
        return true, amount;
      } else {
        ok, taken := ReadInComplexBody(s);
      }
    }

    method ReadInComplexBody(s: string) returns (ok: bool, taken: nat)
      requires Valid() && state == BodyPending && !sizeKnown
      modifies Owned()
      ensures Sound(old(Value())) && Owned() == old(Owned())
      ensures ok == BodyRead(old(Value()), s).Some?
      ensures ok ==> Valid() && (Value(), taken) == BodyRead(old(Value()), s).value
    {
      hide Run, Step;
      var amount := AllBody;
      match bodyParser {
        case ChunkedBody(p) => amount := p.Read(s);
        case _ =>
      }
      match amount
      case AllBody =>
        body := body + s;
        assert s[..|s|] == s;
        return true, |s|;
      case Ack(n) =>
        body := body + s[..n];
        state := Complete;
        return true, n;
      case Failed =>
        return false, 0;
    }

    method Eof() returns (ok: bool)
      requires Valid()
      modifies this
      ensures Owned() == old(Owned())
      ensures ok == AtEof(old(Value())).Some?
      ensures ok ==> Valid() && Value() == AtEof(old(Value())).value
    {
      hide Step;
      match state
      case FirstLinePending => return true;
      case HeadersPending => return false;
      case BodyPending =>
        if kind == Request || bodyParser == NoParser {
          return false;
        }
        state := Complete;
        return true;
      case Complete => return false;
    }
  }

  lemma FramingKinds(m: Message)
    ensures match ExpectedBody(m)
            case Some(Chunks(c, _)) => m.kind == Response && c == INITIAL
            case Some(UntilEof) => m.kind == Response
            case _ => true
  {
  }
}
