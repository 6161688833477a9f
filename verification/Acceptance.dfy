/**
  When the outbox takes a frame (src/outbox.rs:83-94, 106-134), in bytes and slots: the
  frames queued already, laid end to end, against the limits of one object and of all.
 */
module Acceptance {
  import opened Prelude
  import opened OutboxModel
  import Conservation

  function Joined(frames: seq<Frame>): Bytes {
    if frames == [] then [] else frames[0].bytes + Joined(frames[1..])
  }

  function JoinedAll(lanes: seq<Lane>): Bytes {
    if lanes == [] then [] else Joined(lanes[0].frames) + JoinedAll(lanes[1..])
  }

  lemma {:induction false} SizeIsLength(frames: seq<Frame>)
    ensures Size(frames) == |Joined(frames)|
  {
    if frames != [] {
      SizeIsLength(frames[1..]);
    }
  }

  /** The byte account of the outbox is the number of bytes queued. */
  lemma {:induction false} TotalIsLength(lanes: seq<Lane>)
    ensures Total(lanes) == |JoinedAll(lanes)|
  {
    if lanes != [] {
      SizeIsLength(lanes[0].frames);
      TotalIsLength(lanes[1..]);
    }
  }

  /**
    A push adds the frame at the end of its owner's lane exactly if the outbox is open, the
    owner's bytes stay within 64 KiB and all bytes within 4 MiB; otherwise it does nothing.
   */
  lemma PushTakenExactly(q: Queues, owner: Id, f: Frame)
    requires WellFormed(q)
    ensures FramesOf(PushData(q, owner, f), owner) == FramesOf(q, owner) + [f] <==>
      && !q.closed
      && |Joined(FramesOf(q, owner))| + |f.bytes| <= 65536
      && |JoinedAll(q.lanes)| + |f.bytes| <= 4194304
    ensures FramesOf(PushData(q, owner, f), owner) != FramesOf(q, owner) + [f] ==> PushData(q, owner, f) == q
  {
    SizeIsLength(FramesOf(q, owner));
    TotalIsLength(q.lanes);
    Conservation.FramesAfterPush(q, owner, f, owner);
    hide FramesOf, Size, Total, Joined, JoinedAll, LaneIndex, WellFormed;
    assert |FramesOf(q, owner) + [f]| == |FramesOf(q, owner)| + 1;
  }

  /** `ok` of a push, in the same numbers. */
  lemma FitsExactly(q: Queues, owner: Id, length: nat)
    ensures Fits(q, owner, length) <==>
      && !q.closed
      && |Joined(FramesOf(q, owner))| + length <= 65536
      && |JoinedAll(q.lanes)| + length <= 4194304
  {
    SizeIsLength(FramesOf(q, owner));
    TotalIsLength(q.lanes);
  }

  lemma {:induction false} LanesBound(lanes: seq<Lane>)
    requires LanesFit(lanes)
    ensures Total(lanes) <= |lanes| * OBJECT_BYTES
  {
    hide Size;
    if lanes != [] {
      assert Size(lanes[0].frames) <= OBJECT_BYTES;
      LanesBound(lanes[1..]);
      assert |lanes| * OBJECT_BYTES == OBJECT_BYTES + (|lanes| - 1) * OBJECT_BYTES;
    }
  }

  /** No object can keep another out: with at most 63 others, an empty lane takes any frame within 64 KiB. */
  lemma EmptyLaneTakes(q: Queues, owner: Id, f: Frame)
    requires WellFormed(q) && !q.closed && |q.lanes| <= 63
    requires FramesOf(q, owner) == [] && |f.bytes| <= 65536
    ensures FramesOf(PushData(q, owner, f), owner) == [f]
  {
    LanesBound(q.lanes);
    TotalIsLength(q.lanes);
    hide WellFormed, Total, JoinedAll, PushData, LaneIndex, FramesOf, Size;
    assert Joined([]) == [];
    PushTakenExactly(q, owner, f);
    assert [] + [f] == [f];
  }

  /** A control frame is queued, at the end, exactly if the outbox is open and holds fewer than 64. */
  lemma ControlTakenExactly(q: Queues, f: Frame)
    ensures PushControl(q, f).control == q.control + [f] <==> !q.closed && |q.control| < 64
    ensures PushControl(q, f).control != q.control + [f] ==> PushControl(q, f) == q
    ensures PushControl(q, f).lanes == q.lanes
  {
    assert |q.control + [f]| == |q.control| + 1;
  }

  /** Closing changes nothing that is queued, and from then on nothing is taken. */
  lemma ClosedTakesNothing(q: Queues, owner: Id, f: Frame)
    ensures var c := Close(q);
      && c.control == q.control && c.lanes == q.lanes
      && PushControl(c, f) == c && PushData(c, owner, f) == c
  {
  }
}
