/**
  The outbox as src/outbox.rs keeps it: a map of queues, the list of ready keys, a
  running byte count and a burst counter, all changed in place. Every method is
  proved to do to the ring of lanes (module OutboxModel) what the ring's own
  operation does. `Valid` is what the two `expect` calls in `next` rely on.
 */
module Outbox {
  import opened Prelude
  import opened OutboxModel

  type Data = map<Id, seq<Frame>>

  /** `ready` lists each key of `data` exactly once. */
  ghost predicate Keyed(ready: seq<Id>, data: Data) {
    && Distinct(ready)
    && (forall k :: k in data <==> k in ready)
  }

  ghost function LanesOf(ready: seq<Id>, data: Data): seq<Lane>
    requires Keyed(ready, data)
  {
    seq(|ready|, i requires 0 <= i < |ready| => Lane(ready[i], data[ready[i]]))
  }

  lemma LanesUpdated(ready: seq<Id>, data: Data, i: nat, frames: seq<Frame>)
    requires Keyed(ready, data) && i < |ready|
    ensures Keyed(ready, data[ready[i] := frames])
    ensures LanesOf(ready, data[ready[i] := frames]) == LanesOf(ready, data)[i := Lane(ready[i], frames)]
  {
  }

  lemma LanesAppended(ready: seq<Id>, data: Data, key: Id, frames: seq<Frame>)
    requires Keyed(ready, data) && key !in data
    ensures Keyed(ready + [key], data[key := frames])
    ensures LanesOf(ready + [key], data[key := frames]) == LanesOf(ready, data) + [Lane(key, frames)]
  {
  }

  lemma LanesRemoved(ready: seq<Id>, data: Data, i: nat)
    requires Keyed(ready, data) && i < |ready|
    ensures Keyed(Without(ready, i), data - {ready[i]})
    ensures LanesOf(Without(ready, i), data - {ready[i]}) == Without(LanesOf(ready, data), i)
  {
    KeysWithout(ready, i);
    hide Distinct;
  }

  lemma KeysWithout(ready: seq<Id>, i: nat)
    requires Distinct(ready) && i < |ready|
    ensures Distinct(Without(ready, i))
    ensures forall k :: k in Without(ready, i) <==> k in ready && k != ready[i]
    ensures forall j :: 0 <= j < |ready| - 1 ==> Without(ready, i)[j] == ready[if j < i then j else j + 1]
  {
    var rest := Without(ready, i);
    forall k | k in ready && k != ready[i] ensures k in rest {
      var j :| 0 <= j < |ready| && ready[j] == k;
      assert rest[if j < i then j else j - 1] == k;
    }
  }

  lemma LanesRotated(ready: seq<Id>, data: Data, rest: seq<Frame>)
    requires Keyed(ready, data) && ready != []
    ensures Keyed(ready[1..], data - {ready[0]})
    ensures LanesOf(ready[1..], data - {ready[0]}) == LanesOf(ready, data)[1..]
    ensures Keyed(ready[1..] + [ready[0]], data[ready[0] := rest])
    ensures LanesOf(ready[1..] + [ready[0]], data[ready[0] := rest]) == LanesOf(ready, data)[1..] + [Lane(ready[0], rest)]
  {
    var key := ready[0];
    LanesRemoved(ready, data, 0);
    assert Without(ready, 0) == ready[1..];
    LanesAppended(ready[1..], data - {key}, key, rest);
    assert data[key := rest] == (data - {key})[key := rest];
  }

  /** The keys other than `key`, in order. */
  function Others(ready: seq<Id>, key: Id): seq<Id> {
    if ready == [] then []
    else if ready[0] == key then Others(ready[1..], key)
    else [ready[0]] + Others(ready[1..], key)
  }

  lemma {:induction false} OthersMissing(ready: seq<Id>, key: Id)
    requires key !in ready
    ensures Others(ready, key) == ready
  {
    if ready != [] {
      OthersMissing(ready[1..], key);
    }
  }

  /** Retaining the other keys of a list without repeats deletes one position. */
  lemma {:induction false} OthersIsWithout(ready: seq<Id>, key: Id, i: nat)
    requires Distinct(ready) && i < |ready| && ready[i] == key
    ensures Others(ready, key) == Without(ready, i)
  {
    if i == 0 {
      OthersMissing(ready[1..], key);
    } else {
      OthersIsWithout(ready[1..], key, i - 1);
    }
  }

  /** Deleting a key from the map and from the list deletes its lane. */
  lemma LanesDropped(ready: seq<Id>, data: Data, key: Id)
    requires Keyed(ready, data)
    ensures Keyed(Others(ready, key), data - {key})
    ensures LanesOf(Others(ready, key), data - {key})
         == var lanes := LanesOf(ready, data);
            if LaneIndex(lanes, key) < |lanes| then Without(lanes, LaneIndex(lanes, key)) else lanes
  {
    var lanes := LanesOf(ready, data);
    var i := LaneIndex(lanes, key);
    if i < |lanes| {
      OthersIsWithout(ready, key, i);
      LanesRemoved(ready, data, i);
    } else {
      assert forall j :: 0 <= j < |ready| ==> ready[j] == lanes[j].owner;
      OthersMissing(ready, key);
      assert data - {key} == data;
    }
  }

  class Outbox {
    var control: seq<Frame>
    var data: Data
    var ready: seq<Id>
    var bytes: nat
    var controlBurst: nat
    var closed: bool
    var dropped: nat

    ghost predicate Shape()
      reads this
    {
      Keyed(ready, data)
    }

    ghost function Model(): Queues
      requires Shape()
      reads this
    {
      Queues(control, LanesOf(ready, data), controlBurst, closed)
    }

    ghost predicate Valid()
      reads this
    {
      && Shape()
      && WellFormed(Model())
      && bytes == Total(Model().lanes)
    }

    constructor ()
      ensures Valid() && Model() == EMPTY && dropped == 0
    {
      control, data, ready, bytes, controlBurst, closed, dropped := [], map[], [], 0, 0, false, 0;
    }

    lemma At(owner: Id)
      requires Valid()
      ensures Ready(Model(), owner) <==> owner in data
      ensures owner in data ==>
        && var i := LaneIndex(Model().lanes, owner);
           i < |ready| && ready[i] == owner && FramesOf(Model(), owner) == data[owner]
      ensures owner !in data ==> FramesOf(Model(), owner) == []
    {
      var i := LaneIndex(Model().lanes, owner);
      if owner in data {
        var k :| 0 <= k < |ready| && ready[k] == owner;
        assert Model().lanes[k].owner == owner;
      }
    }

    /** The two `expect` calls of `next`: the ready head has a queue, and it is not empty. */
    lemma Head()
      requires Valid()
      ensures |Model().lanes| == |ready|
      ensures ready != [] ==>
        ready[0] in data && data[ready[0]] != [] && Model().lanes[0] == Lane(ready[0], data[ready[0]])
    {
      hide Size, Total;
      if ready != [] {
        assert ready[0] in ready && Model().lanes[0] == Lane(ready[0], data[ready[0]]);
      }
    }

    /** The synchronous part of `control`, and `try_control` on an encoded frame. */
    method PushControl(frame: Frame) returns (ok: bool)
      requires Valid()
      modifies this
      ensures Valid() && dropped == old(dropped)
      ensures ok == ControlFits(old(Model()))
      ensures Model() == OutboxModel.PushControl(old(Model()), frame)
    {
      ok := !closed && |control| < CONTROL_SLOTS;
      if ok {
        control := control + [frame];
      }
    }

    method PushData(owner: Id, frame: Frame) returns (ok: bool)
      requires Valid()
      modifies this
      ensures Valid() && dropped == old(dropped)
      ensures ok == Fits(old(Model()), owner, |frame.bytes|)
      ensures Model() == OutboxModel.PushData(old(Model()), owner, frame)
    {
      ghost var before := Model();
      At(owner);
      PushDataKeeps(before, owner, frame);
      var used := if owner in data then Size(data[owner]) else 0;
      if closed || used + |frame.bytes| > OBJECT_BYTES || bytes + |frame.bytes| > DATA_BYTES {
        return false;
      }
      if owner !in data {
        LanesAppended(ready, data, owner, [frame]);
        ready := ready + [owner];
        data := data[owner := [frame]];
      } else {
        LanesUpdated(ready, data, LaneIndex(before.lanes, owner), data[owner] + [frame]);
        data := data[owner := data[owner] + [frame]];
      }
      bytes := bytes + |frame.bytes|;
      ok := true;
    }

    /** `try_data`: a refused frame is counted, saturating. */
    method TryData(owner: Id, frame: Frame) returns (ok: bool)
      requires Valid()
      modifies this
      ensures Valid()
      ensures ok == Fits(old(Model()), owner, |frame.bytes|)
      ensures Model() == OutboxModel.PushData(old(Model()), owner, frame)
      ensures dropped == if ok then old(dropped) else Saturated(old(dropped))
    {
      ok := PushData(owner, frame);
      if !ok {
        dropped := Saturated(dropped);
      }
    }

    method RemoveRequest(owner: Id, id: Id)
      requires Valid()
      modifies this
      ensures Valid() && dropped == old(dropped)
      ensures Model() == OutboxModel.RemoveRequest(old(Model()), owner, id)
    {
      hide WellFormed, Total, Size, Unrelated, Keyed, LanesOf, Others;
      ghost var before := Model();
      At(owner);
      RemoveRequestKeeps(before, owner, id);
      UnrelatedSize(FramesOf(before, owner), id);
      if owner in data {
        var frames := data[owner];
        var kept, removed := Retain(frames, id);
        bytes := bytes - removed;
        if kept == [] {
          LanesDropped(ready, data, owner);
          data := data - {owner};
          ready := Others(ready, owner);
        } else {
          LanesUpdated(ready, data, LaneIndex(before.lanes, owner), kept);
          data := data[owner := kept];
        }
        assert Model() == OutboxModel.RemoveRequest(before, owner, id);
      }
    }

    method RemoveObject(owner: Id)
      requires Valid()
      modifies this
      ensures Valid() && dropped == old(dropped)
      ensures Model() == OutboxModel.RemoveObject(old(Model()), owner)
    {
      hide WellFormed, Total, Size, Keyed, Others, LanesOf;
      ghost var before := Model();
      At(owner);
      RemoveObjectKeeps(before, owner);
      LanesDropped(ready, data, owner);
      if owner in data {
        bytes := bytes - Size(data[owner]);
      }
      data := data - {owner};
      ready := Others(ready, owner);
      assert Model() == OutboxModel.RemoveObject(before, owner);
    }

    /** The synchronous part of `next`: None stands for parking, or for the end once closed. */
    method Next() returns (item: Option<Frame>)
      requires Valid()
      modifies this
      ensures Valid() && dropped == old(dropped)
      ensures Model() == AfterNext(old(Model()))
      ensures item == match Output(old(Model())) case None => None case Some(e) => Some(e.frame)
    {
      hide WellFormed, Total, Size, Keyed, LanesOf;
      ghost var before := Model();
      NextKeeps(before);
      Head();
      if ready != [] {
        LanesRotated(ready, data, data[ready[0]][1..]);
      }
      if control != [] && (controlBurst < BURST || ready == []) {
        controlBurst := controlBurst + 1;
        item := Some(control[0]);
        control := control[1..];
        return;
      }
      if ready != [] {
        var id := ready[0];
        ready := ready[1..];
        var queue := data[id];
        var frame := queue[0];
        assert LaneTurn(before) && Output(before) == Some(FromLane(id, frame));
        queue := queue[1..];
        if queue == [] {
          data := data - {id};
        } else {
          data := data[id := queue];
          ready := ready + [id];
        }
        bytes := bytes - |frame.bytes|;
        controlBurst := 0;
        item := Some(frame);
        assert Model() == AfterNext(before);
        return;
      }
      item := None;
    }

    method Close()
      requires Valid()
      modifies this
      ensures Valid() && dropped == old(dropped)
      ensures Model() == OutboxModel.Close(old(Model()))
    {
      closed := true;
    }
  }

  /** The `retain` of `remove_request`: what stays, and the bytes that go. */
  method Retain(frames: seq<Frame>, id: Id) returns (kept: seq<Frame>, removed: nat)
    ensures kept == Unrelated(frames, id)
    ensures removed == Size(frames) - Size(Unrelated(frames, id))
  {
    kept, removed := [], 0;
    assert frames[0..] == frames && Size([]) == 0 && frames[|frames|..] == [] && Unrelated([], id) == [];
    hide Size, Unrelated;
    for i := 0 to |frames|
      invariant kept + Unrelated(frames[i..], id) == Unrelated(frames, id)
      invariant removed + Size(frames[i..]) + Size(kept) == Size(frames)
    {
      RetainStep(frames, i, id);
      if frames[i].RequestId() == Some(id) {
        removed := removed + |frames[i].bytes|;
      } else {
        SizeAppend(kept, [frames[i]]);
        Assoc(kept, [frames[i]], Unrelated(frames[i + 1..], id));
        kept := kept + [frames[i]];
      }
    }
  }

  lemma RetainStep(frames: seq<Frame>, i: nat, id: Id)
    requires i < |frames|
    ensures Size(frames[i..]) == |frames[i].bytes| + Size(frames[i + 1..]) && Size([frames[i]]) == |frames[i].bytes|
    ensures Unrelated(frames[i..], id)
         == if frames[i].RequestId() == Some(id) then Unrelated(frames[i + 1..], id)
            else [frames[i]] + Unrelated(frames[i + 1..], id)
  {
    assert frames[i..][0] == frames[i] && frames[i..][1..] == frames[i + 1..];
  }
}
