/** What chunked framing means, whatever the fragments: the end of body found
    piece by piece is the one found in one pass, and it is the end of a body of
    the form the decoder accepts. `ChunkedForm` compares that form with RFC 2616. */
module ChunkedFraming {
  import opened Words
  import opened Text
  import opened ChunkedParser

  function Concat(pieces: seq<string>): string {
    if pieces == [] then "" else pieces[0] + Concat(pieces[1..])
  }

  /** Reading piece after piece until the parser reports an end or stops; each
      piece is one call of `ChunkedBodyParser.Read`, which goes from one
      configuration to the next as `Run` does. */
  function Feed(c: Config, s: string, pieces: seq<string>, trailers: bool): Outcome
    requires c.pos <= |s|
    decreases |pieces|
  {
    if pieces == [] then Pending(c)
    else
      match Run(c, s + pieces[0], trailers)
      case Pending(c') => Feed(c', s + pieces[0], pieces[1..], trailers)
      case Done(end) => Done(end)
      case Error => Error
  }

  /** Decoding `s` looks into a chunk whose size plus two does not fit 32 bits. */
  predicate Oversize(c: Config, s: string, trailers: bool)
    requires c.pos <= |s|
    decreases |s| - c.pos, Rank(c.phase)
  {
    || (c.phase == Chunk && c.size + 2 >= U32 && c.pos < |s|)
    || (Step(c, s, trailers).Move? && Oversize(Step(c, s, trailers).next, s, trailers))
  }

  lemma {:induction false} HazardIsOversize(c: Config, s: string, x: string, trailers: bool)
    requires c.pos <= |s| && c.size < U32 && HitsHazard(c, s, trailers)
    ensures Oversize(c, s + x, trailers)
    decreases |s| - c.pos, Rank(c.phase)
  {
    hide Step;
    if !Hazard(c, s) {
      StepGrows(c, s, x, trailers);
      HazardIsOversize(Step(c, s, trailers).next, s, x, trailers);
    }
  }

  lemma {:induction false} OversizeLater(c: Config, s: string, x: string, trailers: bool)
    requires c.pos <= |s| && c.size < U32 && Run(c, s, trailers).Pending?
    requires Oversize(Run(c, s, trailers).config, s + x, trailers)
    ensures Oversize(c, s + x, trailers)
    decreases |s| - c.pos, Rank(c.phase)
  {
    hide Step;
    if Step(c, s, trailers).Move? {
      StepGrows(c, s, x, trailers);
      OversizeLater(Step(c, s, trailers).next, s, x, trailers);
    }
  }

  /** Fragments change nothing, except that an oversize chunk can make the
      piecewise parser stop where the one-pass decoder goes on. */
  lemma {:induction false} FeedIsRun(c: Config, s: string, pieces: seq<string>, trailers: bool)
    requires c.pos <= |s| && c.size < U32 && Step(c, s, trailers) == Wait
    ensures var whole := s + Concat(pieces);
            || Feed(c, s, pieces, trailers) == Run(c, whole, trailers)
            || (Feed(c, s, pieces, trailers) == Error && Oversize(c, whole, trailers))
    decreases |pieces|
  {
    hide Step;
    if pieces == [] {
      assert s + Concat(pieces) == s;
    } else {
      var s', x := s + pieces[0], Concat(pieces[1..]);
      assert s + Concat(pieces) == s' + x;
      RunGrows(c, s', x, trailers);
      match Run(c, s', trailers)
      case Pending(c') =>
        FeedIsRun(c', s', pieces[1..], trailers);
        if Oversize(c', s' + x, trailers) {
          OversizeLater(c, s', x, trailers);
        }
      case Done(end) =>
      case Error =>
        if HitsHazard(c, s', trailers) {
          HazardIsOversize(c, s', x, trailers);
        }
    }
  }

  /** Below four gigabytes nothing is lost: an oversize chunk then makes the
      one-pass decoder stop as well. */
  lemma {:induction false} ErrorStays(c: Config, s: string, x: string, trailers: bool)
    requires c.pos <= |s| && c.size < U32 && |s + x| < U32
    requires Run(c, s, trailers) == Error
    ensures Run(c, s + x, trailers) == Error
    decreases |s| - c.pos, Rank(c.phase)
  {
    hide GetChunkSize, Find;
    StepGrows(c, s, x, trailers);
    if Step(c, s, trailers).Move? {
      ErrorStays(Step(c, s, trailers).next, s, x, trailers);
    } else if Hazard(c, s) {
      OneStep(c, s + x, (s + x)[c.pos..], trailers);
    }
  }

  // ----- the exact condition for independence of fragments -----

  lemma StepShrinks(c: Config, s: string, m: nat, trailers: bool)
    requires c.pos <= |s| && Step(c, s, trailers).Move?
    requires !(c.phase == Chunk && c.size + 2 >= U32)
    requires Step(c, s, trailers).next.pos <= m <= |s|
    ensures Step(c, s[..m], trailers) == Step(c, s, trailers)
  {
    hide GetChunkSize, Find;
    var n := Step(c, s, trailers).next;
    var b, b' := s[c.pos..], s[..m][c.pos..];
    assert b == b' + s[m..];
    match c.phase
    case ChunkHdr =>
      FindGrows(b', s[m..], CRLF);
      assert b'[..n.pos - c.pos] == b[..n.pos - c.pos];
    case Chunk =>
      assert b'[c.size..c.size + 2] == b[c.size..c.size + 2];
    case Trailer =>
  }

  /** The position of the first oversize chunk, and that one byte of it is
      enough to make the parser stop. */
  lemma {:induction false} StopsEarly(c: Config, s: string, trailers: bool) returns (m: nat)
    requires c.pos <= |s| && c.size < U32 && Oversize(c, s, trailers)
    ensures c.pos < m <= |s| && Run(c, s[..m], trailers) == Error
    decreases |s| - c.pos, Rank(c.phase)
  {
    if c.phase == Chunk && c.size + 2 >= U32 && c.pos < |s| {
      m := c.pos + 1;
      assert |s[..m][c.pos..]| == 1;
      assert Needed(c.size) <= 1;
      assert Step(c, s[..m], trailers) == Fail;
    } else {
      hide Step;
      m := StopsEarly(Step(c, s, trailers).next, s, trailers);
      StepShrinks(c, s, m, trailers);
    }
  }

  ghost predicate Independent(s: string, trailers: bool) {
    forall pieces: seq<string> | Concat(pieces) == s :: Feed(INITIAL, "", pieces, trailers) == Decode(s, trailers)
  }

  /** Framing of `s` is the same under every fragmentation exactly when no
      oversize chunk is looked into, or the one-pass decoder stops as well. */
  lemma {:induction false} FramingIndependentIff(s: string, trailers: bool)
    ensures Independent(s, trailers) <==> (!Oversize(INITIAL, s, trailers) || Decode(s, trailers) == Error)
  {
    hide Step;
    assert Step(INITIAL, "", trailers) == Wait by { OneStep(INITIAL, "", "", trailers); }
    forall pieces: seq<string> | Concat(pieces) == s
      ensures var f := Feed(INITIAL, "", pieces, trailers);
              f == Decode(s, trailers) || (f == Error && Oversize(INITIAL, s, trailers))
    {
      FeedIsRun(INITIAL, "", pieces, trailers);
      assert "" + s == s;
    }
    if Oversize(INITIAL, s, trailers) && Decode(s, trailers) != Error {
      var m := StopsEarly(INITIAL, s, trailers);
      var pieces := [s[..m], s[m..]];
      assert pieces[1..] == [s[m..]] && pieces[1..][1..] == [];
      assert Concat(pieces[1..]) == s[m..] + "";
      assert Concat(pieces) == s[..m] + (s[m..] + "") == s;
      assert "" + pieces[0] == s[..m];
      assert Feed(INITIAL, "", pieces, trailers) == Error;
      assert !Independent(s, trailers);
    }
  }

  /** So a stream of fewer than 2^32 bytes is framed the same in any pieces. */
  lemma ShortStreamsAreIndependent(s: string, trailers: bool)
    requires |s| < U32
    ensures Independent(s, trailers)
  {
    hide Independent, Step;
    FramingIndependentIff(s, trailers);
    if Oversize(INITIAL, s, trailers) {
      var m := StopsEarly(INITIAL, s, trailers);
      assert s[..m] + s[m..] == s;
      ErrorStays(INITIAL, s[..m], s[m..], trailers);
    }
  }

  /** Pieces given to a fresh parser until it reports an end or stops: the bytes
      acknowledged add up to the end of the body. */
  method ReadPieces(pieces: seq<string>, trailers: bool) returns (acked: nat, last: ReadResult)
    ensures match Feed(INITIAL, "", pieces, trailers)
            case Pending(_) => last == AllBody && acked == |Concat(pieces)|
            case Done(end) => last.Ack? && acked == end
            case Error => last == Failed
  {
    hide Run, Step;
    var parser := new ChunkedBodyParser(trailers);
    acked, last := 0, AllBody;
    ConcatSplits(pieces, 0);
    for i := 0 to |pieces|
      invariant parser.Valid() && fresh(parser) && parser.trailersEnabled == trailers
      invariant last == AllBody && acked == |parser.seen| && parser.seen == Concat(pieces[..i])
      invariant Feed(INITIAL, "", pieces, trailers) == Feed(parser.Cfg(), parser.seen, pieces[i..], trailers)
    {
      ConcatSplits(pieces, i);
      last := parser.Read(pieces[i]);
      match last {
        case AllBody => acked := acked + |pieces[i]|;
        case Ack(n) => return acked + n, last;
        case Failed => return acked, last;
      }
    }
    assert pieces[..|pieces|] == pieces;
  }

  lemma ConcatSplits(pieces: seq<string>, i: nat)
    requires i <= |pieces|
    ensures Concat(pieces[..0]) == "" && pieces[0..] == pieces
    ensures i < |pieces| ==> pieces[i..][0] == pieces[i] && pieces[i..][1..] == pieces[i + 1..]
    ensures i < |pieces| ==> Concat(pieces[..i + 1]) == Concat(pieces[..i]) + pieces[i]
  {
    if i < |pieces| {
      ConcatPush(pieces[..i], pieces[i]);
      assert pieces[..i + 1] == pieces[..i] + [pieces[i]];
    }
  }

  lemma {:induction false} ConcatPush(pieces: seq<string>, piece: string)
    ensures Concat(pieces + [piece]) == Concat(pieces) + piece
  {
    if pieces == [] {
      assert pieces + [piece] == [piece];
      assert piece + "" == "" + piece;
    } else {
      ConcatPush(pieces[1..], piece);
      assert (pieces + [piece])[1..] == pieces[1..] + [piece];
      assert pieces[0] + (Concat(pieces[1..]) + piece) == pieces[0] + Concat(pieces[1..]) + piece;
    }
  }

  // ----- the form of a body -----

  /** A chunk: its header line, extensions and all, without CRLF, and its data. */
  datatype DataChunk = DataChunk(header: string, data: string)

  predicate IsHeader(header: string, size: nat) {
    Find(header, CRLF).None? && HeaderSize(header) == Some(size)
  }

  function HeaderSize(header: string): Option<nat>
    requires Find(header, CRLF).None?
  {
    FindLineEnd(header, "");
    assert header + CRLF + "" == header + CRLF;
    GetChunkSize(header + CRLF)
  }

  predicate IsDataChunk(p: DataChunk) {
    0 < |p.data| < U32 - 2 && IsHeader(p.header, |p.data|)
  }

  function EncodeChunks(ps: seq<DataChunk>): string {
    if ps == [] then "" else ps[0].header + CRLF + ps[0].data + CRLF + EncodeChunks(ps[1..])
  }

  /** The text after the last chunk's line, up to and with its first terminator. */
  predicate IsTrailer(t: string, trailers: bool) {
    |Terminator(trailers)| <= |t| && Find(t, Terminator(trailers)) == Some(|t| - |Terminator(trailers)|)
  }

  ghost predicate IsBodyOf(s: string, trailers: bool, ps: seq<DataChunk>, last: string, t: string) {
    && (forall p | p in ps :: IsDataChunk(p))
    && IsHeader(last, 0) && IsTrailer(t, trailers)
    && s == BodyText(ps, last, t)
  }

  function BodyText(ps: seq<DataChunk>, last: string, t: string): string {
    EncodeChunks(ps) + (last + CRLF + t)
  }

  ghost predicate IsBody(s: string, trailers: bool) {
    exists ps, last, t :: IsBodyOf(s, trailers, ps, last, t)
  }

  lemma HeaderStep(pos: nat, header: string, rest: string, size: nat)
    requires IsHeader(header, size)
    ensures StepHeader(pos, header + CRLF + rest) == Move(Config(if size == 0 then Trailer else Chunk, size, pos + |header| + 2))
  {
    hide GetChunkSize;
    FindLineEnd(header, rest);
    assert (header + CRLF + rest)[..|header| + 2] == header + CRLF;
  }

  /** The last chunk's line leads to the trailer. */
  lemma TakesLastLine(s: string, c: Config, last: string, more: string, trailers: bool)
    requires c.pos <= |s| && c.phase == ChunkHdr && s[c.pos..] == last + CRLF + more && IsHeader(last, 0)
    ensures |more| <= |s| && Run(c, s, trailers) == Run(Config(Trailer, 0, |s| - |more|), s, trailers)
  {
    hide GetChunkSize, Find, StepHeader, Run, IsHeader;
    HeaderStep(c.pos, last, more, 0);
    OneStep(c, s, s[c.pos..], trailers);
  }

  /** The trailer ends with its first terminator. */
  lemma {:induction false} TakesTrailer(s: string, d: Config, t: string, rest: string, trailers: bool)
    requires d.pos <= |s| && d.phase == Trailer && s[d.pos..] == t + rest && IsTrailer(t, trailers)
    ensures Run(d, s, trailers) == Done(|s| - |rest|)
  {
    hide Find, Run;
    FindGrows(t, rest, Terminator(trailers));
    OneStep(d, s, t + rest, trailers);
  }

  lemma TakesChunk(s: string, c: Config, p: DataChunk, rest: string, trailers: bool)
    requires c.pos <= |s| && c.phase == ChunkHdr && IsDataChunk(p)
    requires s[c.pos..] == p.header + CRLF + (p.data + CRLF + rest)
    ensures Run(c, s, trailers) == Run(Config(ChunkHdr, |p.data|, |s| - |rest|), s, trailers)
  {
    hide GetChunkSize, Find, StepHeader, Run, IsHeader;
    var size, tail := |p.data|, p.data + CRLF + rest;
    HeaderStep(c.pos, p.header, tail, size);
    OneStep(c, s, s[c.pos..], trailers);
    var d := Config(Chunk, size, c.pos + |p.header| + 2);
    assert s[d.pos..] == tail by { assert s[d.pos..] == s[c.pos..][|p.header| + 2..]; }
    assert CrlfAfter(tail, size) by { assert tail[size..size + 2] == CRLF; }
    OneStep(d, s, tail, trailers);
  }

  /** Chunks and the last chunk's line lead to the trailer. */
  lemma {:induction false} TakesChunks(s: string, c: Config, ps: seq<DataChunk>, last: string, more: string, trailers: bool)
    requires c.pos <= |s| && c.phase == ChunkHdr
    requires (forall p | p in ps :: IsDataChunk(p)) && IsHeader(last, 0)
    requires s[c.pos..] == EncodeChunks(ps) + (last + CRLF + more)
    ensures |more| <= |s| && Run(c, s, trailers) == Run(Config(Trailer, 0, |s| - |more|), s, trailers)
    decreases |ps|
  {
    hide IsHeader, Run, IsDataChunk;
    if ps == [] {
      assert s[c.pos..] == last + CRLF + more;
      TakesLastLine(s, c, last, more, trailers);
    } else {
      var p, rest := ps[0], EncodeChunks(ps[1..]) + (last + CRLF + more);
      assert p in ps;
      assert s[c.pos..] == p.header + CRLF + (p.data + CRLF + rest);
      TakesChunk(s, c, p, rest, trailers);
      var c' := Config(ChunkHdr, |p.data|, |s| - |rest|);
      assert s[c'.pos..] == rest by { assert s[c'.pos..] == s[c.pos..][|p.header| + 2 + |p.data| + 2..]; }
      TakesChunks(s, c', ps[1..], last, more, trailers);
    }
  }

  /** Every body of the right form ends where the decoder says, whatever follows. */
  lemma {:induction false} DecodesBody(s: string, c: Config, ps: seq<DataChunk>, last: string, t: string, rest: string, trailers: bool)
    requires c.pos <= |s| && c.phase == ChunkHdr
    requires forall p | p in ps :: IsDataChunk(p)
    requires IsHeader(last, 0) && IsTrailer(t, trailers)
    requires s[c.pos..] == BodyText(ps, last, t) + rest
    ensures Run(c, s, trailers) == Done(|s| - |rest|)
  {
    hide IsHeader, IsTrailer, Run, IsDataChunk, BodyText;
    var more := t + rest;
    BodyBefore(ps, last, t, rest);
    TakesChunks(s, c, ps, last, more, trailers);
    EndOf(s, c.pos, more);
    TakesTrailer(s, Config(Trailer, 0, |s| - |more|), t, rest, trailers);
  }

  lemma {:induction false} BodyBefore(ps: seq<DataChunk>, last: string, t: string, rest: string)
    ensures BodyText(ps, last, t) + rest == EncodeChunks(ps) + (last + CRLF + (t + rest))
  {
    hide EncodeChunks;
  }

  lemma EndOf(s: string, i: nat, more: string)
    requires i <= |s| && |more| <= |s| - i && s[i..][|s| - i - |more|..] == more
    ensures s[|s| - |more|..] == more
  {
  }

  /** Conversely, where the decoder ends without looking into an oversize chunk,
      what it has read from `c` on has the right form. */
  lemma {:induction false} DecodedIsBody(s: string, c: Config, trailers: bool)
    returns (ps: seq<DataChunk>, last: string, t: string)
    requires c.pos <= |s| && c.phase == ChunkHdr && Run(c, s, trailers).Done? && !Oversize(c, s, trailers)
    ensures IsBodyOf(s[c.pos..Run(c, s, trailers).end], trailers, ps, last, t)
    decreases |s| - c.pos
  {
    hide Oversize, Run, Step, IsBodyOf, IsHeader, IsDataChunk;
    var e := Run(c, s, trailers).end;
    var d, header := HeaderTaken(s, c, trailers);
    TamePasses(c, s, trailers);
    if d.size == 0 {
      t := LastTaken(s, c, d, header, trailers);
      ps, last := [], header;
    } else {
      TamePasses(d, s, trailers);
      var c', data := DataTaken(s, d, trailers);
      var more;
      more, last, t := DecodedIsBody(s, c', trailers);
      ps := [DataChunk(header, data)] + more;
      IsDataChunkOf(header, data);
      AddChunk(s, c.pos, d.pos, c'.pos, e, DataChunk(header, data), trailers, more, last, t);
    }
  }

  lemma IsDataChunkOf(header: string, data: string)
    requires IsHeader(header, |data|) && 0 < |data| < U32 - 2
    ensures IsDataChunk(DataChunk(header, data))
  {
    hide IsHeader;
  }

  /** A chunk in front of a body that ends at `l`. */
  lemma AddChunk(s: string, i: nat, j: nat, k: nat, l: nat, p: DataChunk, trailers: bool, more: seq<DataChunk>, last: string, t: string)
    requires i <= j <= k <= l <= |s| && IsDataChunk(p) && IsBodyOf(s[k..l], trailers, more, last, t)
    requires s[i..j] == p.header + CRLF && s[j..k] == p.data + CRLF
    ensures IsBodyOf(s[i..l], trailers, [p] + more, last, t)
  {
    hide IsBodyOf, IsDataChunk;
    Slices(s, i, j, k, l);
    PrependChunk(p, s[k..l], trailers, more, last, t);
  }

  lemma Slices(s: string, i: nat, j: nat, k: nat, l: nat)
    requires i <= j <= k <= l <= |s|
    ensures s[i..l] == s[i..j] + s[j..k] + s[k..l]
  {
  }

  lemma PrependChunk(p: DataChunk, body: string, trailers: bool, more: seq<DataChunk>, last: string, t: string)
    requires IsDataChunk(p) && IsBodyOf(body, trailers, more, last, t)
    ensures IsBodyOf((p.header + CRLF) + (p.data + CRLF) + body, trailers, [p] + more, last, t)
  {
    hide IsHeader, IsTrailer, IsDataChunk;
    assert ([p] + more)[1..] == more;
  }

  /** A header line that was taken, without its CRLF. */
  lemma HeaderTaken(s: string, c: Config, trailers: bool) returns (d: Config, header: string)
    requires c.pos <= |s| && c.phase == ChunkHdr && Run(c, s, trailers).Done?
    ensures Step(c, s, trailers) == Move(d) && Run(c, s, trailers) == Run(d, s, trailers)
    ensures c.pos < d.pos <= |s| && IsHeader(header, d.size) && s[c.pos..d.pos] == header + CRLF
    ensures d.phase == (if d.size == 0 then Trailer else Chunk)
  {
    hide GetChunkSize, Find, Run;
    var b := s[c.pos..];
    OneStep(c, s, b, trailers);
    d := Step(c, s, trailers).next;
    var k := Find(b, CRLF).value;
    header := b[..k];
    assert b[k..k + 2] == CRLF;
    assert b[..k + 2] == b[..k] + b[k..k + 2];
    assert b == b[..k] + b[k..];
    FindGrows(b[..k], b[k..], CRLF);
  }

  /** The last chunk's line and the trailer after it. */
  lemma LastTaken(s: string, c: Config, d: Config, last: string, trailers: bool) returns (t: string)
    requires c.pos <= d.pos <= |s| && d.phase == Trailer && Run(d, s, trailers).Done?
    requires IsHeader(last, 0) && s[c.pos..d.pos] == last + CRLF
    ensures IsBodyOf(s[c.pos..Run(d, s, trailers).end], trailers, [], last, t)
  {
    hide Find, IsHeader;
    var b, needle := s[d.pos..], Terminator(trailers);
    var n := Run(d, s, trailers).end - d.pos;
    t := b[..n];
    assert b == t + b[n..];
    FindGrows(t, b[n..], needle);
    assert t[n - |needle|..n] == b[n - |needle|..n];
    assert MatchAt(t, needle, n - |needle|);
    assert s[c.pos..d.pos + n] == s[c.pos..d.pos] + t;
  }

  lemma DataTaken(s: string, d: Config, trailers: bool) returns (c: Config, data: string)
    requires d.pos <= |s| && d.phase == Chunk && 0 < d.size && Run(d, s, trailers).Done?
    requires !(d.size + 2 >= U32 && d.pos < |s|)
    ensures Step(d, s, trailers) == Move(c) && c.phase == ChunkHdr && c.pos > d.pos
    ensures Run(c, s, trailers) == Run(d, s, trailers)
    ensures |data| == d.size < U32 - 2 && c.pos <= |s| && s[d.pos..c.pos] == data + CRLF
  {
    hide Run, Find, StepHeader;
    var b := s[d.pos..];
    OneStep(d, s, b, trailers);
    c := Step(d, s, trailers).next;
    data := b[..d.size];
    assert b[..d.size + 2] == data + b[d.size..d.size + 2];
  }

  lemma {:induction false} TamePasses(c: Config, s: string, trailers: bool)
    requires c.pos <= |s| && !Oversize(c, s, trailers)
    ensures !(c.phase == Chunk && c.size + 2 >= U32 && c.pos < |s|)
    ensures Step(c, s, trailers).Move? ==> !Oversize(Step(c, s, trailers).next, s, trailers)
  {
    hide Step;
  }

  /** The decoder finds an end exactly at the end of a well-formed body. */
  lemma {:induction false} EndsExactlyAtBody(s: string, end: nat, trailers: bool)
    ensures end <= |s| && IsBody(s[..end], trailers) ==> Decode(s, trailers) == Done(end)
    ensures Decode(s, trailers) == Done(end) && !Oversize(INITIAL, s, trailers) ==> end <= |s| && IsBody(s[..end], trailers)
  {
    hide Run, Step, Oversize, EncodeChunks, IsHeader, IsTrailer;
    if Decode(s, trailers) == Done(end) && !Oversize(INITIAL, s, trailers) {
      var ps, last, t := DecodedIsBody(s, INITIAL, trailers);
      assert s[0..end] == s[..end];
    }
    if end <= |s| && IsBody(s[..end], trailers) {
      var ps, last, t :| IsBodyOf(s[..end], trailers, ps, last, t);
      assert s[INITIAL.pos..] == s == s[..end] + s[end..];
      DecodesBody(s, INITIAL, ps, last, t, s[end..], trailers);
    }
  }
}
