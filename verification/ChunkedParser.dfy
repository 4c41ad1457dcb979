/** The framing of a chunked body (mahimahi/src/http/chunked_parser.cc).

    `Run` decodes a whole stream in one pass; `ChunkedBodyParser.Read` is the
    incremental parser that keeps undecoded bytes in a buffer. */
module ChunkedParser {
  import opened Words
  import opened Text

  datatype Phase = ChunkHdr | Chunk | Trailer

  /** Where decoding stands: the phase, the size of the current chunk and the
      number of bytes of the stream decoded so far. */
  datatype Config = Config(phase: Phase, size: nat, pos: nat)

  const INITIAL: Config := Config(ChunkHdr, 0, 0)

  datatype Outcome = Pending(config: Config) | Done(end: nat) | Error

  /** The size in a chunk header line, which ends with CRLF; the text before
      ';' or CRLF, cut at its first space, is a base-16 number, narrowed to 32 bits. */
  function GetChunkSize(header: string): (r: Option<nat>)
    requires Find(header, CRLF).Some?
    ensures r.Some? ==> r.value < U32
  {
    var stop := match Find(header, ";") { case Some(k) => k case None => Find(header, CRLF).value };
    var hex := header[..stop];
    var digits := match Find(hex, " ") { case Some(k) => hex[..k] case None => hex };
    match Myatoi(digits, 16)
    case Some(n) => Some(n % U32)
    case None => None
  }

  /** `current_chunk_size_ + 2` in 32-bit arithmetic. */
  function Needed(size: nat): nat {
    (size + 2) % U32
  }

  function Terminator(trailers: bool): string {
    if trailers then "\r\n\r\n" else CRLF
  }

  // ----- one step of decoding, on a stream that starts at byte 0 of the body -----

  datatype StepResult = Move(next: Config) | Wait | Finish(end: nat) | Fail

  /** One step on the undecoded bytes. */
  function StepBuffer(c: Config, buffer: string, trailers: bool): (r: StepResult)
    ensures r.Move? ==> c.pos <= r.next.pos <= c.pos + |buffer|
    ensures r.Move? ==> r.next.pos > c.pos || (c.phase == Chunk && r.next.phase == ChunkHdr)
    ensures r.Move? && c.size < U32 ==> r.next.size < U32
    ensures r.Finish? ==> c.pos + 2 <= r.end <= c.pos + |buffer|
  {
    if buffer == "" then Wait else
    match c.phase
    case ChunkHdr => StepHeader(c.pos, buffer)
    case Chunk =>
      if |buffer| < Needed(c.size) then Wait
      else if CrlfAfter(buffer, c.size) then Move(Config(ChunkHdr, c.size, c.pos + Needed(c.size)))
      else Fail
    case Trailer =>
      match Find(buffer, Terminator(trailers))
      case None => Wait
      case Some(k) => Finish(c.pos + k + |Terminator(trailers)|)
  }

  function StepHeader(pos: nat, buffer: string): (r: StepResult)
    ensures r.Move? ==> pos + 2 <= r.next.pos <= pos + |buffer| && r.next.phase != ChunkHdr && r.next.size < U32
    ensures !r.Finish?
  {
    match Find(buffer, CRLF)
    case None => Wait
    case Some(k) =>
      HeaderHasLineEnd(buffer, k);
      match GetChunkSize(buffer[..k + 2])
      case None => Fail
      case Some(n) => Move(Config(if n == 0 then Trailer else Chunk, n, pos + k + 2))
  }

  /** `substr(size, 2) == CRLF`, false also where `substr` is out of range. */
  predicate CrlfAfter(buffer: string, size: nat) {
    size + 2 <= |buffer| && buffer[size..size + 2] == CRLF
  }

  function Step(c: Config, s: string, trailers: bool): (r: StepResult)
    requires c.pos <= |s|
    ensures r.Move? ==> c.pos <= r.next.pos <= |s|
    ensures r.Move? ==> r.next.pos > c.pos || (c.phase == Chunk && r.next.phase == ChunkHdr)
    ensures r.Move? && c.size < U32 ==> r.next.size < U32
    ensures r.Finish? ==> c.pos + 2 <= r.end <= |s|
  {
    StepBuffer(c, s[c.pos..], trailers)
  }

  lemma HeaderHasLineEnd(buffer: string, k: nat)
    requires Find(buffer, CRLF) == Some(k)
    ensures Find(buffer[..k + 2], CRLF) == Some(k)
  {
    var h := buffer[..k + 2];
    assert h + buffer[k + 2..] == buffer;
    FindGrows(h, buffer[k + 2..], CRLF);
    assert h[k..k + 2] == buffer[k..k + 2];
    assert MatchAt(h, CRLF, k);
  }

  function Rank(p: Phase): nat { if p == Chunk then 1 else 0 }

  /** One-pass decoding from a configuration. */
  function Run(c: Config, s: string, trailers: bool): (r: Outcome)
    requires c.pos <= |s|
    ensures r.Pending? ==> c.pos <= r.config.pos <= |s| && Step(r.config, s, trailers) == Wait
    ensures r.Pending? && c.size < U32 ==> r.config.size < U32
    ensures r.Done? ==> c.pos + 2 <= r.end <= |s|
    decreases |s| - c.pos, Rank(c.phase)
  {
    match Step(c, s, trailers)
    case Move(next) => Run(next, s, trailers)
    case Wait => Pending(c)
    case Finish(end) => Done(end)
    case Fail => Error
  }

  function Decode(s: string, trailers: bool): Outcome {
    Run(INITIAL, s, trailers)
  }

  // ----- growing the stream -----

  /** A chunk whose size plus two wraps around 32 bits is checked before its
      bytes have arrived. */
  predicate Hazard(c: Config, s: string)
    requires c.pos <= |s|
  {
    c.phase == Chunk && c.size + 2 >= U32 && c.pos < |s| < c.pos + c.size + 2
  }

  lemma HeaderGrows(pos: nat, b: string, x: string)
    ensures StepHeader(pos, b) != Wait ==> StepHeader(pos, b + x) == StepHeader(pos, b)
    ensures StepHeader(pos, b) == Wait && StepHeader(pos, b + x).Move? ==> StepHeader(pos, b + x).next.pos > pos + |b|
  {
    FindGrows(b, x, CRLF);
    if Find(b, CRLF).Some? {
      var k := Find(b, CRLF).value;
      assert (b + x)[..k + 2] == b[..k + 2];
    }
  }

  lemma CrlfGrows(b: string, x: string, size: nat)
    ensures size + 2 <= |b| ==> CrlfAfter(b + x, size) == CrlfAfter(b, size)
  {
    if size + 2 <= |b| {
      assert (b + x)[size..size + 2] == b[size..size + 2];
    }
  }

  lemma StepGrows(c: Config, s: string, x: string, trailers: bool)
    requires c.pos <= |s| && c.size < U32
    ensures var r, r' := Step(c, s, trailers), Step(c, s + x, trailers);
            && (r.Move? || r.Finish? || (r.Fail? && !Hazard(c, s)) ==> r' == r)
            && (r.Wait? && r'.Move? ==> r'.next.pos >= |s|)
            && (r.Wait? && r'.Finish? ==> r'.end > |s|)
  {
    hide StepHeader, Find;
    var b := s[c.pos..];
    assert (s + x)[c.pos..] == b + x;
    match c.phase
    case ChunkHdr => HeaderGrows(c.pos, b, x);
    case Chunk => CrlfGrows(b, x, c.size);
    case Trailer => FindGrows(b, x, Terminator(trailers));
  }

  /** Where a run on `s` first meets a chunk it checks too early. */
  predicate HitsHazard(c: Config, s: string, trailers: bool)
    requires c.pos <= |s|
    decreases |s| - c.pos, Rank(c.phase)
  {
    Hazard(c, s) || (Step(c, s, trailers).Move? && HitsHazard(Step(c, s, trailers).next, s, trailers))
  }

  /** Stopping at `s` and going on with `x` is decoding `s + x` at once. */
  lemma {:induction false} RunGrows(c: Config, s: string, x: string, trailers: bool)
    requires c.pos <= |s| && c.size < U32
    ensures Run(c, s, trailers).Pending? ==>
              Run(c, s + x, trailers) == Run(Run(c, s, trailers).config, s + x, trailers)
    ensures Run(c, s, trailers).Done? ==> Run(c, s + x, trailers) == Run(c, s, trailers)
    ensures Run(c, s, trailers).Error? && !HitsHazard(c, s, trailers) ==> Run(c, s + x, trailers).Error?
    decreases |s| - c.pos, Rank(c.phase)
  {
    StepGrows(c, s, x, trailers);
    if Step(c, s, trailers).Move? {
      RunGrows(Step(c, s, trailers).next, s, x, trailers);
    }
  }

  /** A body that was still open at the end of `s` ends inside what comes after. */
  lemma {:induction false} EndIsNew(c: Config, s: string, x: string, trailers: bool)
    requires c.pos <= |s| && c.size < U32
    requires Step(c, s, trailers) == Wait
    ensures Run(c, s + x, trailers).Done? ==> Run(c, s + x, trailers).end > |s|
  {
    StepGrows(c, s, x, trailers);
  }

  /** The first step of a run, seen from the buffer. */
  lemma {:induction false} OneStep(c: Config, s: string, buffer: string, trailers: bool)
    requires c.pos <= |s| && buffer == s[c.pos..]
    ensures Step(c, s, trailers) == StepBuffer(c, buffer, trailers)
    ensures buffer == "" ==> StepBuffer(c, buffer, trailers) == Wait
    ensures buffer != "" && c.phase == ChunkHdr ==> StepBuffer(c, buffer, trailers) == StepHeader(c.pos, buffer)
    ensures var r := Step(c, s, trailers);
            && (r.Move? ==> Run(c, s, trailers) == Run(r.next, s, trailers))
            && (r.Wait? ==> Run(c, s, trailers) == Pending(c))
            && (r.Finish? ==> Run(c, s, trailers) == Done(r.end))
            && (r.Fail? ==> Run(c, s, trailers) == Error)
  {
    hide StepHeader, Find;
  }

  lemma Suffixes(s: string, i: nat, j: nat)
    requires i <= |s|
    ensures i <= j <= |s| ==> s[i..][j - i..] == s[j..]
  {
  }

  // ----- the incremental parser -----

  /** What `read` reports: everything so far is body, only `n` bytes of this
      input are, or the program stopped (assertion or exception). */
  datatype ReadResult = AllBody | Ack(n: nat) | Failed

  /** The report for an input that follows `before` acknowledged bytes: an
      acknowledged end always lies inside that input. */
  predicate Reports(o: Outcome, before: nat, r: ReadResult) {
    match o
    case Pending(_) => r == AllBody
    case Done(end) => before < end && r == Ack(end - before)
    case Error => r == Failed
  }

  class ChunkedBodyParser {
    var parserBuffer: string
    var currentChunkSize: nat
    var ackedSoFar: nat
    var parsedSoFar: nat
    var phase: Phase
    const trailersEnabled: bool

    /** Every byte given to `Read`. */
    ghost var seen: string

    ghost function Cfg(): Config
      reads this
    {
      Config(phase, currentChunkSize, parsedSoFar)
    }

    /** The buffer is what has not been decoded, all of `seen` has been
        acknowledged, and nothing more can be decoded. */
    ghost predicate Valid()
      reads this
    {
      && Buffered()
      && ackedSoFar == |seen|
      && Step(Cfg(), seen, trailersEnabled) == Wait
    }

    constructor (trailers: bool)
      ensures Valid() && seen == "" && Cfg() == INITIAL && trailersEnabled == trailers
    {
      parserBuffer := "";
      currentChunkSize := 0;
      ackedSoFar := 0;
      parsedSoFar := 0;
      phase := ChunkHdr;
      trailersEnabled := trailers;
      seen := "";
    }

    method Read(input: string) returns (r: ReadResult)
      requires Valid()
      modifies this
      ensures seen == old(seen) + input
      ensures Reports(Run(old(Cfg()), seen, trailersEnabled), |old(seen)|, r)
      ensures r == AllBody ==> Valid() && Run(old(Cfg()), seen, trailersEnabled) == Pending(Cfg())
    {
      hide Run, StepBuffer, Step;
      ghost var start := Cfg();
      EndIsNew(start, seen, input, trailersEnabled);
      seen := seen + input;
      parserBuffer := parserBuffer + input;
      while parserBuffer != ""
        invariant Buffered() && seen == old(seen) + input && ackedSoFar == |old(seen)|
        invariant Run(start, seen, trailersEnabled) == Run(Cfg(), seen, trailersEnabled)
        decreases |parserBuffer|, Rank(phase)
      {
        var stop := OnePass(|input|);
        if stop.Some? {
          return stop.value;
        }
      }
      OneStep(Cfg(), seen, "", trailersEnabled);
      ackedSoFar := ackedSoFar + |input|;
      return AllBody;
    }

    /** The buffer is what has not been decoded. */
    ghost predicate Buffered()
      reads this
    {
      currentChunkSize < U32 && parsedSoFar <= |seen| && parserBuffer == seen[parsedSoFar..]
    }

    /** One pass of the loop of `Read`: `None` goes round again. */
    method OnePass(inputSize: nat) returns (r: Option<ReadResult>)
      requires parserBuffer != "" && Buffered() && ackedSoFar + inputSize == |seen|
      modifies this
      ensures Passed(r)
    {
      hide Run, StepHeader, StepBuffer, Step, Find, Terminator, Passed, Took;
      OneStep(Cfg(), seen, parserBuffer, trailersEnabled);
      match phase {
        case ChunkHdr => r := TakeHeader(inputSize);
        case Chunk => r := TakeChunk(inputSize);
        case Trailer => r := ComputeAckSize(Terminator(trailersEnabled), inputSize);
      }
      TookPasses(inputSize, r);
    }

    /** A pass that goes round again leaves what is still to be decoded, in a
        shorter buffer or a lower phase; any other reports what decoding says. */
    twostate predicate Passed(new r: Option<ReadResult>)
      reads this
    {
      && seen == old(seen)
      && (r.None? ==>
            && Buffered() && ackedSoFar == old(ackedSoFar)
            && old(parsedSoFar) <= |seen| && Run(old(Cfg()), seen, trailersEnabled) == Run(Cfg(), seen, trailersEnabled)
            && (|parserBuffer| < |old(parserBuffer)|
                || (|parserBuffer| == |old(parserBuffer)| && Rank(phase) < Rank(old(phase)))))
      && (r.Some? ==>
            old(parsedSoFar) <= |seen|
            && match Run(old(Cfg()), seen, trailersEnabled)
               case Pending(_) => r.value == AllBody
               case Done(end) => r.value == if end > old(ackedSoFar) then Ack(end - old(ackedSoFar)) else Failed
               case Error => r.value == Failed)
      && (r == Some(AllBody) ==> Valid() && Run(old(Cfg()), seen, trailersEnabled) == Pending(Cfg()))
    }

    twostate lemma TookPasses(inputSize: nat, new r: Option<ReadResult>)
      requires old(parserBuffer) != "" && old(Buffered()) && old(ackedSoFar) + inputSize == |old(seen)|
      requires Took(StepBuffer(old(Cfg()), old(parserBuffer), trailersEnabled), inputSize, r)
      ensures Passed(r)
    {
      hide Run, StepBuffer, Step;
      OneStep(old(Cfg()), old(seen), old(parserBuffer), trailersEnabled);
      if r.None? { Suffixes(seen, old(parsedSoFar), parsedSoFar); }
    }

    /** What a phase of the loop of `Read` leaves behind for the step that the
        undecoded bytes call for: `None` goes round the loop again. */
    twostate predicate Took(step: StepResult, inputSize: nat, new r: Option<ReadResult>)
      reads this
    {
      && seen == old(seen)
      && match step
         case Move(c) =>
           && r == None && Cfg() == c && ackedSoFar == old(ackedSoFar)
           && old(parsedSoFar) <= c.pos <= old(parsedSoFar + |parserBuffer|)
           && parserBuffer == old(parserBuffer)[c.pos - old(parsedSoFar)..]
         case Wait =>
           && r == Some(AllBody) && ackedSoFar == old(ackedSoFar) + inputSize
           && Cfg() == old(Cfg()) && parserBuffer == old(parserBuffer)
         case Finish(end) => r == Some(if end > ackedSoFar then Ack(end - ackedSoFar) else Failed) && ackedSoFar == old(ackedSoFar)
         case Fail => r == Some(Failed)
    }

    /** If there is a CRLF, read the chunk size and go to Chunk or Trailer. */
    method TakeHeader(inputSize: nat) returns (r: Option<ReadResult>)
      requires phase == ChunkHdr
      modifies this
      ensures Took(old(StepHeader(parsedSoFar, parserBuffer)), inputSize, r)
    {
      hide GetChunkSize, Find;
      match Find(parserBuffer, CRLF)
      case Some(it) =>
        HeaderHasLineEnd(parserBuffer, it);
        match GetChunkSize(parserBuffer[..it + 2]) {
          case None => return Some(Failed);
          case Some(n) => currentChunkSize := n;
        }
        phase := if currentChunkSize == 0 then Trailer else Chunk;
        parsedSoFar := parsedSoFar + it + 2;
        parserBuffer := parserBuffer[it + 2..];
        return None;
      case None =>
        ackedSoFar := ackedSoFar + inputSize;
        return Some(AllBody);
    }

    /** If the whole chunk is there, check the CRLF behind it and drop it. */
    method TakeChunk(inputSize: nat) returns (r: Option<ReadResult>)
      requires phase == Chunk && parserBuffer != ""
      modifies this
      ensures Took(old(StepBuffer(Cfg(), parserBuffer, trailersEnabled)), inputSize, r)
    {
      if |parserBuffer| >= Needed(currentChunkSize) {
        if !CrlfAfter(parserBuffer, currentChunkSize) {
          return Some(Failed);  // assert, or substr out of range
        }
        phase := ChunkHdr;
        parsedSoFar := parsedSoFar + Needed(currentChunkSize);
        parserBuffer := parserBuffer[Needed(currentChunkSize)..];
        return None;
      } else {
        ackedSoFar := ackedSoFar + inputSize;
        return Some(AllBody);
      }
    }

    /** Computes how much of the current input belongs to the body, if the
        terminator is there; `parsedSoFar <= ackedSoFar` is a failed assertion. */
    method ComputeAckSize(needle: string, inputSize: nat) returns (r: Option<ReadResult>)
      requires phase == Trailer && parserBuffer != "" && needle == Terminator(trailersEnabled)
      modifies this
      ensures Took(old(StepBuffer(Cfg(), parserBuffer, trailersEnabled)), inputSize, r)
    {
      hide Find;
      match Find(parserBuffer, needle)
      case Some(loc) =>
        parsedSoFar := parsedSoFar + loc + |needle|;
        if parsedSoFar <= ackedSoFar {
          return Some(Failed);
        }
        return Some(Ack(parsedSoFar - ackedSoFar));
      case None =>
        ackedSoFar := ackedSoFar + inputSize;
        return Some(AllBody);
    }
  }
}
