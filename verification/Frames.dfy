/** Frame types, flow keys and per-flow views of a frame sequence. */
module Frames {

  datatype FrameType =
    | Hello | Req | Chunk | End | Log | ErrFrame | Heartbeat | StreamStart | StreamEnd
    | RelayNotify | RelayState | Cancel | Credit | CloseStream | Policy

  /** Frames that are numbered within their request's flow. */
  predicate IsFlow(t: FrameType) {
    t in {Req, Chunk, End, Log, ErrFrame, StreamStart, StreamEnd}
  }

  predicate IsTerminal(t: FrameType) {
    t == End || t == ErrFrame
  }

  /** `xid` is the empty string for a frame without a routing id. */
  datatype FlowKey = FlowKey(rid: string, xid: string)

  datatype Frame = Frame(kind: FrameType, key: FlowKey, seqNo: nat, body: string)

  predicate InFlow(f: Frame, k: FlowKey) {
    IsFlow(f.kind) && f.key == k
  }

  /** The frames of one flow, in order. */
  function Flow(frames: seq<Frame>, k: FlowKey): seq<Frame> {
    if frames == [] then []
    else
      var front := Flow(frames[..|frames| - 1], k);
      var last := frames[|frames| - 1];
      if InFlow(last, k) then front + [last] else front
  }

  lemma {:induction false} FlowAppend(a: seq<Frame>, b: seq<Frame>, k: FlowKey)
    ensures Flow(a + b, k) == Flow(a, k) + Flow(b, k)
  {
    if b == [] {
      assert a + b == a;
    } else {
      var front, last := b[..|b| - 1], b[|b| - 1];
      assert a + b == (a + front) + [last] && b == front + [last];
      FlowAppend(a, front, k);
    }
  }

  lemma {:induction false} FlowContents(frames: seq<Frame>, k: FlowKey)
    ensures forall f :: f in Flow(frames, k) <==> f in frames && InFlow(f, k)
  {
    if frames != [] {
      FlowContents(frames[..|frames| - 1], k);
      assert frames == frames[..|frames| - 1] + [frames[|frames| - 1]];
    }
  }

  lemma {:induction false} FlowMultiset(frames: seq<Frame>, k: FlowKey, f: Frame)
    requires InFlow(f, k)
    ensures multiset(Flow(frames, k))[f] == multiset(frames)[f]
  {
    if frames != [] {
      FlowMultiset(frames[..|frames| - 1], k, f);
      assert frames == frames[..|frames| - 1] + [frames[|frames| - 1]];
    }
  }
}
