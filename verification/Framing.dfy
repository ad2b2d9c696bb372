/** The length-prefixed framing that `QuicSecureTransport` puts on its byte stream: a specification
    (`Encode`, `Drain`, `Feed`), its laws, and the stream channel that implements it. */
module Framing {
  import opened Bytes

  const MAX_FRAME: nat := 65536
  const HEADER: nat := 4

  predicate LegalSize(n: int) { 1 <= n <= MAX_FRAME }

  predicate AllLegal(frames: seq<seq<byte>>) {
    forall i :: 0 <= i < |frames| ==> LegalSize(|frames[i]|)
  }

  function Encode(payload: seq<byte>): seq<byte> {
    BigEndian(|payload|, HEADER) + payload
  }

  /** The byte stream of a list of payloads. */
  function Wire(payloads: seq<seq<byte>>): seq<byte> {
    if payloads == [] then [] else Encode(payloads[0]) + Wire(payloads[1..])
  }

  function Concat(chunks: seq<seq<byte>>): seq<byte> {
    if chunks == [] then [] else chunks[0] + Concat(chunks[1..])
  }

  /** What cutting a buffer yields: the frames before the point where cutting stopped, and why it
      stopped. `More` keeps an incomplete frame; `Bad` met an illegal length header, with `after`
      the bytes behind it. */
  datatype Cut =
    | More(frames: seq<seq<byte>>, rest: seq<byte>)
    | Bad(frames: seq<seq<byte>>, header: seq<byte>, after: seq<byte>) {
    /** The bytes still buffered: an illegal header empties the whole buffer. */
    function Residual(): seq<byte> { if More? then rest else [] }

    function Prepend(fs: seq<seq<byte>>): Cut {
      match this
      case More(g, r) => More(fs + g, r)
      case Bad(g, h, a) => Bad(fs + g, h, a)
    }
  }

  function Drain(buffer: seq<byte>): Cut
    decreases |buffer|
  {
    if |buffer| < HEADER then More([], buffer)
    else
      var size := Value(buffer[..HEADER]);
      if !LegalSize(size) then Bad([], buffer[..HEADER], buffer[HEADER..])
      else if |buffer| < HEADER + size then More([], buffer)
      else Drain(buffer[HEADER + size..]).Prepend([buffer[HEADER..HEADER + size]])
  }

  /** Receive events delivered one after the other: the frames queued and the bytes left over. */
  function Feed(residual: seq<byte>, chunks: seq<seq<byte>>): (seq<seq<byte>>, seq<byte>)
    decreases |chunks|
  {
    if chunks == [] then ([], residual)
    else
      var c := Drain(residual + chunks[0]);
      var (fs, rest) := Feed(c.Residual(), chunks[1..]);
      (c.frames + fs, rest)
  }

  // ---------------------------------------------------------------- laws of Drain

  lemma PrependPrepend(c: Cut, fs: seq<seq<byte>>, gs: seq<seq<byte>>)
    ensures c.Prepend(gs).Prepend(fs) == c.Prepend(fs + gs)
  {
    assert fs + (gs + c.frames) == (fs + gs) + c.frames;
  }

  lemma PrependNothing(c: Cut)
    ensures c.Prepend([]) == c
  {
    assert [] + c.frames == c.frames;
  }

  /** For arbitrary bytes: frames have 1 to 65536 bytes and at most 65539 bytes stay buffered. */
  lemma {:induction false} DrainBounds(x: seq<byte>)
    ensures AllLegal(Drain(x).frames)
    ensures |Drain(x).Residual()| <= 65539
    decreases |x|
  {
    if |x| >= HEADER {
      var size := Value(x[..HEADER]);
      if LegalSize(size) && |x| >= HEADER + size {
        var p, tail := SplitFrame(x, size);
        DrainBounds(tail);
        LegalCons(p, Drain(tail).frames);
      }
    }
  }

  lemma LegalCons(p: seq<byte>, frames: seq<seq<byte>>)
    requires LegalSize(|p|) && AllLegal(frames)
    ensures AllLegal([p] + frames)
  {
  }

  /** A complete frame in front is cut off. */
  lemma DrainFrame(p: seq<byte>, tail: seq<byte>)
    requires LegalSize(|p|)
    ensures Drain(Encode(p) + tail) == Drain(tail).Prepend([p])
  {
    var x := Encode(p) + tail;
    Powers();
    ValueOfBigEndian(|p|, HEADER);
    assert x[..HEADER] == BigEndian(|p|, HEADER);
    assert x[HEADER..HEADER + |p|] == p;
    assert x[HEADER + |p|..] == tail;
  }

  lemma SplitFrame(x: seq<byte>, size: nat) returns (p: seq<byte>, tail: seq<byte>)
    requires |x| >= HEADER && size == Value(x[..HEADER]) && |x| >= HEADER + size
    ensures |p| == size && x == Encode(p) + tail && tail == x[HEADER + size..] && p == x[HEADER..HEADER + size]
  {
    p, tail := x[HEADER..HEADER + size], x[HEADER + size..];
    BigEndianOfValue(x[..HEADER]);
  }

  /** Cutting `x` and then what is left of it together with `y` is cutting `x + y`. */
  ghost predicate CutsAppend(x: seq<byte>, y: seq<byte>) {
    match Drain(x)
    case More(fs, rest) => Drain(x + y) == Drain(rest + y).Prepend(fs)
    case Bad(fs, header, after) => Drain(x + y) == Bad(fs, header, after + y)
  }

  /** Cutting early and cutting again with more bytes is cutting once. */
  lemma {:induction false} DrainAppend(x: seq<byte>, y: seq<byte>)
    ensures CutsAppend(x, y)
    decreases |x|
  {
    PrependNothing(Drain(x + y));
    if |x| >= HEADER {
      var size := Value(x[..HEADER]);
      if !LegalSize(size) {
        assert (x + y)[..HEADER] == x[..HEADER];
        assert (x + y)[HEADER..] == x[HEADER..] + y;
      } else if |x| >= HEADER + size {
        var p, tail := SplitFrame(x, size);
        DrainAppend(tail, y);
        FrameAppend(p, tail, y);
      }
    }
  }

  lemma FrameAppend(p: seq<byte>, tail: seq<byte>, y: seq<byte>)
    requires LegalSize(|p|) && CutsAppend(tail, y)
    ensures CutsAppend(Encode(p) + tail, y)
  {
    DrainFrame(p, tail);
    DrainFrame(p, tail + y);
    PartAppend(Encode(p), p, tail, y);
  }

  /** The same of any bytes `e` that are cut off as the frame `p`. */
  lemma PartAppend(e: seq<byte>, p: seq<byte>, tail: seq<byte>, y: seq<byte>)
    requires CutsAppend(tail, y)
    requires Drain(e + tail) == Drain(tail).Prepend([p]) && Drain(e + (tail + y)) == Drain(tail + y).Prepend([p])
    ensures CutsAppend(e + tail, y)
  {
    Assoc(e, tail, y);
    if Drain(tail).More? {
      PrependPrepend(Drain(Drain(tail).rest + y), [p], Drain(tail).frames);
    }
  }

  /** What is left over is not cut any further. */
  lemma {:induction false} ResidualIsStuck(x: seq<byte>)
    ensures Drain(Drain(x).Residual()) == More([], Drain(x).Residual())
    decreases |x|
  {
    if |x| >= HEADER {
      var size := Value(x[..HEADER]);
      if LegalSize(size) && |x| >= HEADER + size {
        ResidualIsStuck(x[HEADER + size..]);
      }
    }
  }

  /** Conservation: every byte is in a frame, in its header, kept, or behind an illegal header. */
  lemma {:induction false} DrainConserves(x: seq<byte>)
    ensures match Drain(x)
            case More(fs, rest) => x == Wire(fs) + rest
            case Bad(fs, header, after) =>
              x == Wire(fs) + header + after && |header| == HEADER && !LegalSize(Value(header))
    decreases |x|
  {
    if |x| >= HEADER {
      var size := Value(x[..HEADER]);
      if LegalSize(size) && |x| >= HEADER + size {
        var p, tail := SplitFrame(x, size);
        DrainConserves(tail);
        var c := Drain(tail);
        WireCons(p, c.frames);
        if c.More? {
          Assoc(Encode(p), Wire(c.frames), c.rest);
        } else {
          Assoc(Encode(p), Wire(c.frames), c.header);
          Assoc(Encode(p), Wire(c.frames) + c.header, c.after);
        }
      }
    }
  }

  lemma WireCons(p: seq<byte>, ps: seq<seq<byte>>)
    ensures Wire([p] + ps) == Encode(p) + Wire(ps)
  {
    assert ([p] + ps)[1..] == ps;
  }

  /** Framing inverts cutting, whatever bytes follow. */
  lemma {:induction false} DrainWire(payloads: seq<seq<byte>>, tail: seq<byte>)
    requires AllLegal(payloads)
    ensures Drain(Wire(payloads) + tail) == Drain(tail).Prepend(payloads)
  {
    if payloads == [] {
      assert Wire(payloads) + tail == tail;
      PrependNothing(Drain(tail));
    } else {
      var p, ps := payloads[0], payloads[1..];
      DrainWire(ps, tail);
      assert Wire(payloads) + tail == Encode(p) + (Wire(ps) + tail);
      DrainFrame(p, Wire(ps) + tail);
      PrependPrepend(Drain(tail), [p], ps);
      assert [p] + ps == payloads;
    }
  }

  // ---------------------------------------------------------------- receive events

  lemma ConcatCons(x: seq<byte>, xs: seq<seq<byte>>)
    ensures Concat([x] + xs) == x + Concat(xs)
  {
    assert ([x] + xs)[1..] == xs;
  }

  lemma {:induction false} ConcatSplit(a: seq<seq<byte>>, b: seq<seq<byte>>)
    ensures Concat(a + b) == Concat(a) + Concat(b)
  {
    if a == [] {
      assert a + b == b;
    } else {
      ConcatSplit(a[1..], b);
      ConcatCons(a[0], a[1..] + b);
      ConcatCons(a[0], a[1..]);
      assert a + b == [a[0]] + (a[1..] + b) && a == [a[0]] + a[1..];
      Assoc(a[0], Concat(a[1..]), Concat(b));
    }
  }

  /** Up to the first illegal header the receiver behaves as if the whole stream had come at once. */
  lemma {:induction false} FeedWhole(residual: seq<byte>, chunks: seq<seq<byte>>)
    requires Drain(residual) == More([], residual)
    requires Drain(residual + Concat(chunks)).More?
    ensures var c := Drain(residual + Concat(chunks)); Feed(residual, chunks) == (c.frames, c.rest)
    decreases |chunks|
  {
    if chunks == [] {
      assert residual + Concat(chunks) == residual;
    } else {
      var x, y := residual + chunks[0], Concat(chunks[1..]);
      assert residual + Concat(chunks) == x + y;
      DrainAppend(x, y);
      ResidualIsStuck(x);
      FeedWhole(Drain(x).Residual(), chunks[1..]);
    }
  }

  /** The index of the receive event whose bytes complete the first illegal header. */
  function Breaking(residual: seq<byte>, chunks: seq<seq<byte>>): nat
    decreases |chunks|
  {
    if chunks == [] || Drain(residual + chunks[0]).Bad? then 0
    else 1 + Breaking(Drain(residual + chunks[0]).rest, chunks[1..])
  }

  /** With an illegal header in the stream: the frames before it are delivered, the rest of the event
      that completes it is lost, and the events after that one are cut as a fresh stream. */
  lemma {:induction false} FeedBroken(residual: seq<byte>, chunks: seq<seq<byte>>)
    requires Drain(residual) == More([], residual)
    requires Drain(residual + Concat(chunks)).Bad?
    ensures Breaking(residual, chunks) < |chunks|
    ensures var later := chunks[Breaking(residual, chunks) + 1..];
            && Feed(residual, chunks) == (Drain(residual + Concat(chunks)).frames + Feed([], later).0,
                                          Feed([], later).1)
            && |Concat(later)| <= |Drain(residual + Concat(chunks)).after|
    decreases |chunks|
  {
    assert residual + [] == residual;
    if chunks != [] {
      var tail := chunks[1..];
      var x, y := residual + chunks[0], Concat(tail);
      assert residual + Concat(chunks) == x + y;
      DrainAppend(x, y);
      if Drain(x).More? {
        ResidualIsStuck(x);
        var rest := Drain(x).rest;
        FeedBroken(rest, tail);
        var k := Breaking(rest, tail);
        assert tail[k + 1..] == chunks[k + 2..];
        Assoc(Drain(x).frames, Drain(rest + y).frames, Feed([], tail[k + 1..]).0);
      }
    }
  }

  lemma Assoc<T>(a: seq<T>, b: seq<T>, c: seq<T>)
    ensures a + (b + c) == (a + b) + c
  {
  }

  /** That event is the one before which the stream was still legal and after which it is not. */
  lemma {:induction false} BreakingPoint(residual: seq<byte>, chunks: seq<seq<byte>>)
    requires Drain(residual) == More([], residual)
    requires Drain(residual + Concat(chunks)).Bad?
    ensures var k := Breaking(residual, chunks);
            && k < |chunks|
            && Drain(residual + Concat(chunks[..k])).More?
            && Drain(residual + Concat(chunks[..k + 1])).Bad?
    decreases |chunks|
  {
    assert residual + [] == residual;
    if chunks != [] {
      var x, y := residual + chunks[0], Concat(chunks[1..]);
      assert residual + Concat(chunks) == x + y;
      DrainAppend(x, y);
      if Drain(x).Bad? {
        FirstEvents(residual, chunks);
      } else {
        ResidualIsStuck(x);
        BreakingPoint(Drain(x).rest, chunks[1..]);
        var j := Breaking(Drain(x).rest, chunks[1..]);
        PrefixStep(residual, chunks, j);
        PrefixStep(residual, chunks, j + 1);
      }
    }
  }

  lemma FirstEvents(residual: seq<byte>, chunks: seq<seq<byte>>)
    requires chunks != []
    ensures residual + Concat(chunks[..0]) == residual && residual + Concat(chunks[..1]) == residual + chunks[0]
  {
    assert chunks[..1] == [chunks[0]] + [] && chunks[..0] == [];
    ConcatCons(chunks[0], []);
    assert chunks[0] + [] == chunks[0];
  }

  lemma PrefixStep(residual: seq<byte>, chunks: seq<seq<byte>>, j: nat)
    requires j < |chunks|
    requires Drain(residual + chunks[0]).More?
    ensures var rest := Drain(residual + chunks[0]).rest;
            var z := Concat(chunks[1..][..j]);
            Drain(residual + Concat(chunks[..j + 1])) == Drain(rest + z).Prepend(Drain(residual + chunks[0]).frames)
  {
    var z := Concat(chunks[1..][..j]);
    assert chunks[..j + 1][1..] == chunks[1..][..j];
    assert residual + Concat(chunks[..j + 1]) == residual + chunks[0] + z;
    DrainAppend(residual + chunks[0], z);
  }

  /** Two receivers of the same stream, however it was split, agree on all frames before the first
      illegal header. */
  lemma SameFramesBeforeBadHeader(a: seq<seq<byte>>, b: seq<seq<byte>>)
    requires Concat(a) == Concat(b)
    ensures Drain(Concat(a)).frames <= Feed([], a).0
    ensures Drain(Concat(b)).frames <= Feed([], b).0
    ensures Drain(Concat(a)).More? ==> Feed([], a) == Feed([], b)
  {
    FramesOf(a);
    FramesOf(b);
  }

  lemma FramesOf(a: seq<seq<byte>>)
    ensures Drain(Concat(a)).frames <= Feed([], a).0
    ensures Drain(Concat(a)).More? ==> Feed([], a) == (Drain(Concat(a)).frames, Drain(Concat(a)).rest)
  {
    assert [] + Concat(a) == Concat(a);
    if Drain(Concat(a)).More? {
      FeedWhole([], a);
    } else {
      FeedBroken([], a);
    }
  }

  ghost predicate ChunkIndependent(stream: seq<byte>) {
    forall a: seq<seq<byte>>, b: seq<seq<byte>> ::
      Concat(a) == stream && Concat(b) == stream ==> Feed([], a) == Feed([], b)
  }

  /** Exactly which streams are received alike under every splitting: those in which no byte follows
      the first illegal length header. */
  lemma ChunkIndependentIff(stream: seq<byte>)
    ensures ChunkIndependent(stream) <==> (Drain(stream).More? || Drain(stream).after == [])
  {
    if Drain(stream).More? {
      forall a: seq<seq<byte>>, b: seq<seq<byte>> | Concat(a) == stream && Concat(b) == stream
        ensures Feed([], a) == Feed([], b)
      {
        SameFramesBeforeBadHeader(a, b);
      }
    } else if Drain(stream).after == [] {
      forall a: seq<seq<byte>>, b: seq<seq<byte>> | Concat(a) == stream && Concat(b) == stream
        ensures Feed([], a) == Feed([], b)
      {
        BrokenAtTheEnd(a);
        BrokenAtTheEnd(b);
      }
    } else {
      SplitBeforeLastByte(stream);
    }
  }

  lemma BrokenAtTheEnd(a: seq<seq<byte>>)
    requires Drain(Concat(a)).Bad? && Drain(Concat(a)).after == []
    ensures Feed([], a) == (Drain(Concat(a)).frames, [])
  {
    NothingBefore(Concat(a));
    BrokenFrom([], a, Concat(a));
  }

  lemma BrokenFrom(residual: seq<byte>, a: seq<seq<byte>>, x: seq<byte>)
    requires Drain(residual) == More([], residual) && x == residual + Concat(a)
    requires Drain(x).Bad? && Drain(x).after == []
    ensures Feed(residual, a) == (Drain(x).frames, [])
  {
    FeedBroken(residual, a);
    FeedNothing(a[Breaking(residual, a) + 1..]);
    NothingBehind(Drain(x).frames);
  }

  lemma NothingBefore(x: seq<byte>)
    ensures [] + x == x && Drain([]) == More([], [])
  {
  }

  lemma NothingBehind(frames: seq<seq<byte>>)
    ensures frames + [] == frames
  {
  }

  lemma FeedNothing(a: seq<seq<byte>>)
    requires |Concat(a)| == 0
    ensures Feed([], a) == ([], [])
  {
    assert [] + Concat(a) == [];
    FeedWhole([], a);
  }

  /** A witness: one event for everything, against one event for all but the last byte. */
  lemma SplitBeforeLastByte(stream: seq<byte>)
    requires Drain(stream).Bad? && Drain(stream).after != []
    ensures !ChunkIndependent(stream)
  {
    var n := |stream| - 1;
    var init, last := stream[..n], stream[n..];
    assert stream == init + last;
    DrainAppend(init, last);
    ResidualIsStuck(init);
    OneMoreByte(Drain(init).Residual(), last);
    assert Drain(init).Bad?;
    FeedOne(stream);
    FeedTwo(init, last);
    assert Concat([stream]) == stream == Concat([init, last]);
    assert Feed([], [stream]).1 != Feed([], [init, last]).1;
  }

  lemma FeedOne(x: seq<byte>)
    ensures Concat([x]) == x && Feed([], [x]) == (Drain(x).frames, Drain(x).Residual())
  {
    var a := [x];
    assert a[1..] == [] && [] + x == x && x + [] == x;
    assert Drain(x).frames + [] == Drain(x).frames;
  }

  lemma FeedTwo(x: seq<byte>, y: seq<byte>)
    requires Drain(x).Bad?
    ensures Concat([x, y]) == x + y && Feed([], [x, y]).1 == Drain(y).Residual()
  {
    var a := [x, y];
    assert a[1..] == [y] && [] + x == x;
    FeedOne(y);
  }

  /** A stuck buffer that becomes bad with one more byte has nothing behind its header. */
  lemma OneMoreByte(rest: seq<byte>, last: seq<byte>)
    requires Drain(rest) == More([], rest) && |last| == 1
    ensures Drain(rest + last).Bad? ==> Drain(rest + last).after == []
  {
    var x := rest + last;
    if |rest| >= HEADER {
      assert x[..HEADER] == rest[..HEADER];
      var size := Value(x[..HEADER]);
      if |x| >= HEADER + size {
        assert x[HEADER + size..] == [];
      }
    }
  }

  /** Any initial part of a well-formed stream, however split, yields an initial part of the payloads. */
  lemma PrefixOfWire(payloads: seq<seq<byte>>, chunks: seq<seq<byte>>)
    requires AllLegal(payloads)
    requires Concat(chunks) <= Wire(payloads)
    ensures Feed([], chunks).0 <= payloads
    ensures Wire(Feed([], chunks).0) + Feed([], chunks).1 == Concat(chunks)
    ensures Concat(chunks) == Wire(payloads) ==> Feed([], chunks) == (payloads, [])
  {
    var x := Concat(chunks);
    var y := Wire(payloads)[|x|..];
    assert Wire(payloads) == x + y;
    DrainWire(payloads, []);
    assert Wire(payloads) + [] == Wire(payloads);
    assert payloads + [] == payloads;
    DrainAppend(x, y);
    DrainConserves(x);
    assert [] + x == x;
    FeedWhole([], chunks);
  }

  // ---------------------------------------------------------------- the next client's stream

  /** How many bytes a stuck buffer with a complete header waits for. */
  function Missing(residual: seq<byte>): int
    requires |residual| >= HEADER
  {
    HEADER + Value(residual[..HEADER]) - |residual|
  }

  /** What the next client's stream, behind `residual` bytes of its predecessor, comes to. If no illegal header
      arises, no byte is lost, but it arrives unchanged iff nothing was left over. If the left-over header waits for
      more than the whole stream, nothing is delivered at all. */
  lemma NextClient(residual: seq<byte>, payloads: seq<seq<byte>>, chunks: seq<seq<byte>>)
    requires Drain(residual) == More([], residual) && AllLegal(payloads) && Concat(chunks) == Wire(payloads)
    ensures Drain(residual + Wire(payloads)).More? ==>
              var (frames, rest) := Feed(residual, chunks);
              && Wire(frames) + rest == residual + Wire(payloads)
              && ((frames, rest) == (payloads, []) <==> residual == [])
    ensures |residual| >= HEADER && |Wire(payloads)| < Missing(residual) ==>
              Feed(residual, chunks) == ([], residual + Wire(payloads))
  {
    var x := residual + Wire(payloads);
    DrainConserves(x);
    if Drain(x).More? {
      FeedWhole(residual, chunks);
      if residual == [] {
        assert Concat(chunks) <= Wire(payloads);
        PrefixOfWire(payloads, chunks);
      }
    }
    if |residual| >= HEADER && |Wire(payloads)| < Missing(residual) {
      assert x[..HEADER] == residual[..HEADER];
      assert Drain(x) == More([], x);
      FeedWhole(residual, chunks);
    }
  }

  /** If it waits for exactly the first `k` frames of the new stream, these are swallowed: one frame that nobody sent
      is delivered in their place, and then the others. */
  lemma NextClientSwallowed(residual: seq<byte>, payloads: seq<seq<byte>>, chunks: seq<seq<byte>>, k: nat)
    requires Drain(residual) == More([], residual) && AllLegal(payloads) && Concat(chunks) == Wire(payloads)
    requires |residual| >= HEADER && k <= |payloads| && Missing(residual) == |Wire(payloads[..k])|
    ensures Feed(residual, chunks) == ([residual[HEADER..] + Wire(payloads[..k])] + payloads[k..], [])
  {
    WireSplit(payloads[..k], payloads[k..]);
    assert payloads == payloads[..k] + payloads[k..];
    Completed(residual, Wire(payloads[..k]));
    Assoc(residual, Wire(payloads[..k]), Wire(payloads[k..]));
    DrainFrame(residual[HEADER..] + Wire(payloads[..k]), Wire(payloads[k..]));
    DrainAll(payloads[k..]);
    FeedWhole(residual, chunks);
  }

  /** A left-over buffer and what it waits for are one frame. */
  lemma Completed(residual: seq<byte>, first: seq<byte>)
    requires Drain(residual) == More([], residual) && |residual| >= HEADER && Missing(residual) == |first|
    ensures residual + first == Encode(residual[HEADER..] + first) && LegalSize(|residual[HEADER..] + first|)
  {
    BigEndianOfValue(residual[..HEADER]);
    assert residual == residual[..HEADER] + residual[HEADER..];
  }

  lemma DrainAll(payloads: seq<seq<byte>>)
    requires AllLegal(payloads)
    ensures Drain(Wire(payloads)) == More(payloads, [])
  {
    DrainWire(payloads, []);
    assert Wire(payloads) + [] == Wire(payloads) && payloads + [] == payloads;
  }

  lemma {:induction false} WireSplit(a: seq<seq<byte>>, b: seq<seq<byte>>)
    ensures Wire(a + b) == Wire(a) + Wire(b)
  {
    if a == [] {
      assert a + b == b;
    } else {
      WireSplit(a[1..], b);
      assert (a + b)[1..] == a[1..] + b;
      Assoc(Encode(a[0]), Wire(a[1..]), Wire(b));
    }
  }

  /** A run that loses frames: of the predecessor a header for 65536 bytes is left over, and a client that sends less
      is not heard. */
  lemma NextClientUnheard(payloads: seq<seq<byte>>)
    requires AllLegal(payloads) && |Wire(payloads)| < 65536
    ensures Feed([], [[0, 1, 0, 0]]) == ([], [0, 1, 0, 0])
    ensures Feed([0, 1, 0, 0], [Wire(payloads)]).0 == []
  {
    var left: seq<byte> := [0, 1, 0, 0];
    LargestHeader();
    assert left[..HEADER] == left;
    assert Drain(left) == More([], left);
    FeedOne(left);
    FeedOne(Wire(payloads));
    NextClient(left, payloads, [Wire(payloads)]);
  }

  lemma LargestHeader()
    ensures Value([0, 1, 0, 0]) == 65536
  {
    HeaderOctets(65536);
    Powers();
    ValueOfBigEndian(65536, HEADER);
  }

  // ---------------------------------------------------------------- the stream channel

  datatype Received = NoChannel | Payload(bytes: seq<byte>)

  /** `StreamChannel`: the queue of complete frames and the reassembly buffer. */
  class StreamChannel {
    var frames: seq<seq<byte>>
    var reassembly: seq<byte>

    constructor ()
      ensures frames == [] && reassembly == []
    {
      frames, reassembly := [], [];
    }

    /** `append_received_bytes`: gather the buffers of one receive event, then cut. */
    method Append(buffers: seq<seq<byte>>)
      modifies this
      ensures var c := Drain(old(reassembly) + Concat(buffers));
              frames == old(frames) + c.frames && reassembly == c.Residual()
      ensures AllLegal(frames[|old(frames)|..])
      ensures |reassembly| <= 65539
    {
      var i := 0;
      while i < |buffers|
        invariant 0 <= i <= |buffers|
        invariant reassembly == old(reassembly) + Concat(buffers[..i])
        invariant frames == old(frames)
      {
        ConcatSplit(buffers[..i], [buffers[i]]);
        assert buffers[..i] + [buffers[i]] == buffers[..i + 1];
        assert Concat([buffers[i]]) == buffers[i];
        reassembly := reassembly + buffers[i];
        i := i + 1;
      }
      assert buffers[..i] == buffers;
      DrainBounds(reassembly);
      ghost var whole := reassembly;
      ghost var got: seq<seq<byte>> := [];
      PrependNothing(Drain(whole));
      while |reassembly| >= HEADER
        invariant frames == old(frames) + got
        invariant Drain(whole) == Drain(reassembly).Prepend(got)
        decreases |reassembly|
      {
        var size := Value(reassembly[..HEADER]);
        if size == 0 || size > MAX_FRAME {
          reassembly := [];
          break;
        }
        if |reassembly| < HEADER + size {
          break;
        }
        var frame := reassembly[HEADER..HEADER + size];
        PrependPrepend(Drain(reassembly[HEADER + size..]), got, [frame]);
        frames := frames + [frame];
        got := got + [frame];
        reassembly := reassembly[HEADER + size..];
      }
    }

    /** What `reset_for_next_client` does to the channel that the next client will use: the queue is emptied, the
        reassembly buffer is not. */
    method ResetForNextClient()
      modifies this`frames
      ensures frames == [] && reassembly == old(reassembly)
    {
      frames := [];
    }

    /** `try_receive_payload`: the oldest frame, or an empty payload when there is none. */
    method TryReceive(dataChannelOpen: bool) returns (r: Received)
      modifies this`frames
      ensures !dataChannelOpen ==> r == NoChannel && frames == old(frames)
      ensures dataChannelOpen && old(frames) == [] ==> r == Payload([]) && frames == []
      ensures dataChannelOpen && old(frames) != [] ==> r.Payload? && old(frames) == [r.bytes] + frames
    {
      if !dataChannelOpen {
        return NoChannel;
      }
      if frames == [] {
        return Payload([]);
      }
      r := Payload(frames[0]);
      frames := frames[1..];
    }
  }

  /** The buffer that `send_payload` fills: four length octets, then the payload. */
  method FillSendBuffer(payload: seq<byte>) returns (buffer: array<byte>)
    requires LegalSize(|payload|)
    ensures fresh(buffer) && buffer[..] == Encode(payload)
  {
    var size := |payload|;
    buffer := new byte[HEADER + size];
    buffer[0] := size / 0x100_0000 % 256;
    buffer[1] := size / 0x1_0000 % 256;
    buffer[2] := size / 0x100 % 256;
    buffer[3] := size % 256;
    var i := 0;
    while i < size
      invariant 0 <= i <= size
      invariant buffer[..HEADER] == [size / 0x100_0000 % 256, size / 0x1_0000 % 256, size / 0x100 % 256, size % 256]
      invariant buffer[HEADER..HEADER + i] == payload[..i]
    {
      buffer[HEADER + i] := payload[i];
      i := i + 1;
    }
    HeaderOctets(size);
    assert buffer[..] == buffer[..HEADER] + buffer[HEADER..HEADER + i];
  }

  lemma HeaderOctets(size: nat)
    ensures BigEndian(size, HEADER) == [size / 0x100_0000 % 256, size / 0x1_0000 % 256, size / 0x100 % 256, size % 256]
  {
    var a := size / 256;
    var b := a / 256;
    var c := b / 256;
    assert b == size / 0x1_0000 && c == size / 0x100_0000;
    assert BigEndian(c, 1) == BigEndian(c / 256, 0) + [c % 256] == [c % 256];
    assert BigEndian(b, 2) == BigEndian(c, 1) + [b % 256];
    assert BigEndian(a, 3) == BigEndian(b, 2) + [a % 256];
    assert BigEndian(size, 4) == BigEndian(a, 3) + [size % 256];
  }
}
