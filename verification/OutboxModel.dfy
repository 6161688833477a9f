/**
  The outbox scheduler of src/outbox.rs as a value: a bounded control queue and a
  ring of object lanes in service order. The program itself keeps a map of queues,
  a list of ready keys and a byte counter; module Outbox proves that it behaves
  like this ring.
 */
module OutboxModel {
  import opened Prelude

  type Id = Bytes

  const MAX_FRAME: nat := 256 * 1024
  const CONTROL_SLOTS: nat := 64
  const DATA_BYTES: nat := 4 * 1024 * 1024
  const OBJECT_BYTES: nat := 64 * 1024
  const BURST: nat := 8

  /** What a frame says, as far as the runtime tells frames apart. */
  datatype Subject = HostCall(id: Id) | HostCancel(id: Id) | Other

  /** An encoded frame, newline included. */
  datatype Frame = Frame(bytes: Bytes, subject: Subject) {
    /** The string `id` member of a data frame: only host calls carry one. */
    function RequestId(): Option<Id> {
      if subject.HostCall? then Some(subject.id) else None
    }
  }

  /** One object's queue. */
  datatype Lane = Lane(owner: Id, frames: seq<Frame>)

  datatype Queues = Queues(control: seq<Frame>, lanes: seq<Lane>, burst: nat, closed: bool)

  /** A frame handed to the writer, with the queue it came from. */
  datatype Emission = FromControl(frame: Frame) | FromLane(owner: Id, frame: Frame)

  const EMPTY := Queues([], [], 0, false)

  // ----- Accounts -----

  function Size(frames: seq<Frame>): nat {
    if frames == [] then 0 else |frames[0].bytes| + Size(frames[1..])
  }

  function Total(lanes: seq<Lane>): nat {
    if lanes == [] then 0 else Size(lanes[0].frames) + Total(lanes[1..])
  }

  /** The position of an object's lane, or the number of lanes when it has none. */
  function LaneIndex(lanes: seq<Lane>, owner: Id): (i: nat)
    ensures i <= |lanes|
    ensures i < |lanes| ==> lanes[i].owner == owner
    ensures forall j :: 0 <= j < i ==> lanes[j].owner != owner
  {
    if lanes == [] || lanes[0].owner == owner then 0 else 1 + LaneIndex(lanes[1..], owner)
  }

  predicate Ready(q: Queues, owner: Id) {
    LaneIndex(q.lanes, owner) < |q.lanes|
  }

  function FramesOf(q: Queues, owner: Id): seq<Frame> {
    if Ready(q, owner) then q.lanes[LaneIndex(q.lanes, owner)].frames else []
  }

  function Without<T>(s: seq<T>, i: nat): seq<T>
    requires i < |s|
  {
    s[..i] + s[i + 1..]
  }

  /** The frames that do not carry a request ID, in order. */
  function Unrelated(frames: seq<Frame>, id: Id): seq<Frame> {
    if frames == [] then []
    else if frames[0].RequestId() == Some(id) then Unrelated(frames[1..], id)
    else [frames[0]] + Unrelated(frames[1..], id)
  }

  // ----- Operations -----

  predicate ControlFits(q: Queues) {
    !q.closed && |q.control| < CONTROL_SLOTS
  }

  function PushControl(q: Queues, frame: Frame): Queues {
    if ControlFits(q) then q.(control := q.control + [frame]) else q
  }

  predicate Fits(q: Queues, owner: Id, length: nat) {
    && !q.closed
    && Size(FramesOf(q, owner)) + length <= OBJECT_BYTES
    && Total(q.lanes) + length <= DATA_BYTES
  }

  function PushData(q: Queues, owner: Id, frame: Frame): Queues {
    var i := LaneIndex(q.lanes, owner);
    if !Fits(q, owner, |frame.bytes|) then q
    else if i < |q.lanes| then q.(lanes := q.lanes[i := Lane(owner, q.lanes[i].frames + [frame])])
    else q.(lanes := q.lanes + [Lane(owner, [frame])])
  }

  function RemoveRequest(q: Queues, owner: Id, id: Id): Queues {
    var i := LaneIndex(q.lanes, owner);
    if i == |q.lanes| then q
    else
      var kept := Unrelated(q.lanes[i].frames, id);
      q.(lanes := if kept == [] then Without(q.lanes, i) else q.lanes[i := Lane(owner, kept)])
  }

  function RemoveObject(q: Queues, owner: Id): Queues {
    var i := LaneIndex(q.lanes, owner);
    if i == |q.lanes| then q else q.(lanes := Without(q.lanes, i))
  }

  /** Control frames go first, but at most eight in a row while an object waits. */
  predicate ControlTurn(q: Queues) {
    q.control != [] && (q.burst < BURST || q.lanes == [])
  }

  predicate LaneTurn(q: Queues) {
    !ControlTurn(q) && q.lanes != [] && q.lanes[0].frames != []
  }

  function Output(q: Queues): Option<Emission> {
    if ControlTurn(q) then Some(FromControl(q.control[0]))
    else if LaneTurn(q) then Some(FromLane(q.lanes[0].owner, q.lanes[0].frames[0]))
    else None
  }

  function AfterNext(q: Queues): Queues {
    if ControlTurn(q) then q.(control := q.control[1..], burst := q.burst + 1)
    else if LaneTurn(q) then
      var head := q.lanes[0];
      q.(burst := 0,
         lanes := q.lanes[1..] + if |head.frames| == 1 then [] else [Lane(head.owner, head.frames[1..])])
    else q
  }

  function Close(q: Queues): Queues {
    q.(closed := true)
  }

  // ----- Runs -----

  /** One synchronous block that touches the queues. */
  datatype Op =
    | AddControl(frame: Frame)
    | AddData(owner: Id, frame: Frame)
    | DropRequest(owner: Id, id: Id)
    | DropObject(owner: Id)
    | CloseAll
    | Next

  function Apply(q: Queues, op: Op): Queues {
    match op
    case AddControl(f) => PushControl(q, f)
    case AddData(o, f) => PushData(q, o, f)
    case DropRequest(o, id) => RemoveRequest(q, o, id)
    case DropObject(o) => RemoveObject(q, o)
    case CloseAll => Close(q)
    case Next => AfterNext(q)
  }

  function Run(q: Queues, ops: seq<Op>): Queues
    decreases ops
  {
    if ops == [] then q else Run(Apply(q, ops[0]), ops[1..])
  }

  lemma {:induction false} RunSplit(q: Queues, a: seq<Op>, b: seq<Op>)
    ensures Run(q, a + b) == Run(Run(q, a), b)
    decreases a
  {
    if a == [] {
      assert a + b == b;
    } else {
      assert (a + b)[1..] == a[1..] + b;
      RunSplit(Apply(q, a[0]), a[1..], b);
    }
  }

  // ----- The invariant -----

  ghost predicate LanesApart(lanes: seq<Lane>) {
    forall i, j :: 0 <= i < j < |lanes| ==> lanes[i].owner != lanes[j].owner
  }

  ghost predicate LanesFit(lanes: seq<Lane>) {
    forall i :: 0 <= i < |lanes| ==> lanes[i].frames != [] && Size(lanes[i].frames) <= OBJECT_BYTES
  }

  ghost predicate WellFormed(q: Queues) {
    && |q.control| <= CONTROL_SLOTS
    && LanesApart(q.lanes)
    && LanesFit(q.lanes)
    && Total(q.lanes) <= DATA_BYTES
  }

  lemma {:induction false} SizeAppend(a: seq<Frame>, b: seq<Frame>)
    ensures Size(a + b) == Size(a) + Size(b)
  {
    if a == [] {
      assert a + b == b;
    } else {
      assert (a + b)[1..] == a[1..] + b;
      SizeAppend(a[1..], b);
    }
  }

  lemma {:induction false} TotalAppend(a: seq<Lane>, b: seq<Lane>)
    ensures Total(a + b) == Total(a) + Total(b)
  {
    if a == [] {
      assert a + b == b;
    } else {
      assert (a + b)[1..] == a[1..] + b;
      TotalAppend(a[1..], b);
    }
  }

  lemma TotalOne(lane: Lane)
    ensures Total([lane]) == Size(lane.frames)
  {
    hide Size;
  }

  lemma SplitAt<T>(s: seq<T>, i: nat)
    requires i < |s|
    ensures s == s[..i] + ([s[i]] + s[i + 1..])
  {
  }

  lemma TotalWithout(lanes: seq<Lane>, i: nat)
    requires i < |lanes|
    ensures Total(Without(lanes, i)) == Total(lanes) - Size(lanes[i].frames)
  {
    hide Total, Size;
    var a, one, b := lanes[..i], [lanes[i]], lanes[i + 1..];
    SplitAt(lanes, i);
    TotalOne(lanes[i]);
    TotalAppend(a, one + b);
    TotalAppend(one, b);
    TotalAppend(a, b);
  }

  lemma TotalUpdate(lanes: seq<Lane>, i: nat, lane: Lane)
    requires i < |lanes|
    ensures Total(lanes[i := lane]) == Total(lanes) - Size(lanes[i].frames) + Size(lane.frames)
  {
    var changed := lanes[i := lane];
    TotalWithout(lanes, i);
    TotalWithout(changed, i);
    assert Without(changed, i) == Without(lanes, i);
  }

  lemma {:induction false} UnrelatedSize(frames: seq<Frame>, id: Id)
    ensures Size(Unrelated(frames, id)) <= Size(frames)
    ensures forall f :: f in Unrelated(frames, id) <==> f in frames && f.RequestId() != Some(id)
  {
    if frames != [] {
      UnrelatedSize(frames[1..], id);
      var rest := Unrelated(frames[1..], id);
      assert ([frames[0]] + rest)[1..] == rest;
      assert frames == [frames[0]] + frames[1..];
    }
  }

  lemma PushDataKeeps(q: Queues, owner: Id, frame: Frame)
    requires WellFormed(q)
    ensures WellFormed(PushData(q, owner, frame))
    ensures Fits(q, owner, |frame.bytes|) ==>
      Total(PushData(q, owner, frame).lanes) == Total(q.lanes) + |frame.bytes|
  {
    var i := LaneIndex(q.lanes, owner);
    assert Size([frame]) == |frame.bytes|;
    if i < |q.lanes| {
      SizeAppend(q.lanes[i].frames, [frame]);
      TotalUpdate(q.lanes, i, Lane(owner, q.lanes[i].frames + [frame]));
    } else {
      TotalAppend(q.lanes, [Lane(owner, [frame])]);
    }
  }

  lemma WithoutKeeps(lanes: seq<Lane>, i: nat)
    requires i < |lanes| && LanesApart(lanes) && LanesFit(lanes)
    ensures LanesApart(Without(lanes, i)) && LanesFit(Without(lanes, i))
    ensures LaneIndex(Without(lanes, i), lanes[i].owner) == |lanes| - 1
  {
    hide Size;
    var rest := Without(lanes, i);
    forall j | 0 <= j < |rest| ensures rest[j].owner != lanes[i].owner {
      assert rest[j] == lanes[if j < i then j else j + 1];
    }
  }

  lemma UpdateKeeps(lanes: seq<Lane>, i: nat, frames: seq<Frame>)
    requires i < |lanes| && LanesApart(lanes) && LanesFit(lanes)
    requires frames != [] && Size(frames) <= OBJECT_BYTES
    ensures var after := lanes[i := Lane(lanes[i].owner, frames)]; LanesApart(after) && LanesFit(after)
  {
  }

  lemma RemoveRequestKeeps(q: Queues, owner: Id, id: Id)
    requires WellFormed(q)
    ensures WellFormed(RemoveRequest(q, owner, id))
    ensures Total(RemoveRequest(q, owner, id).lanes)
         == Total(q.lanes) - Size(FramesOf(q, owner)) + Size(Unrelated(FramesOf(q, owner), id))
  {
    assert Size([]) == 0;
    hide LanesApart, LanesFit, Size, Total, Unrelated, Without;
    var i := LaneIndex(q.lanes, owner);
    if i < |q.lanes| {
      var kept := Unrelated(q.lanes[i].frames, id);
      UnrelatedSize(q.lanes[i].frames, id);
      LaneFits(q.lanes, i);
      if kept == [] {
        TotalWithout(q.lanes, i);
        WithoutKeeps(q.lanes, i);
      } else {
        TotalUpdate(q.lanes, i, Lane(owner, kept));
        UpdateKeeps(q.lanes, i, kept);
      }
    }
  }

  lemma LaneFits(lanes: seq<Lane>, i: nat)
    requires i < |lanes| && LanesFit(lanes)
    ensures Size(lanes[i].frames) <= OBJECT_BYTES
  {
  }

  lemma RemoveObjectKeeps(q: Queues, owner: Id)
    requires WellFormed(q)
    ensures WellFormed(RemoveObject(q, owner))
    ensures Total(RemoveObject(q, owner).lanes) == Total(q.lanes) - Size(FramesOf(q, owner))
    ensures !Ready(RemoveObject(q, owner), owner)
  {
    assert Size([]) == 0 && forall i :: 0 <= i < |q.lanes| ==> |Without(q.lanes, i)| == |q.lanes| - 1;
    hide LanesApart, LanesFit, Size, Total, Without;
    var i := LaneIndex(q.lanes, owner);
    if i < |q.lanes| {
      TotalWithout(q.lanes, i);
      WithoutKeeps(q.lanes, i);
    }
  }

  lemma NextKeeps(q: Queues)
    requires WellFormed(q)
    ensures WellFormed(AfterNext(q))
    ensures Output(q).None? <==> q.control == [] && q.lanes == []
    ensures Output(q).Some? && Output(q).value.FromLane? ==>
      Total(AfterNext(q).lanes) == Total(q.lanes) - |Output(q).value.frame.bytes|
  {
    if !ControlTurn(q) && q.lanes != [] {
      var head, rest := q.lanes[0], q.lanes[1..];
      var back := if |head.frames| == 1 then [] else [Lane(head.owner, head.frames[1..])];
      assert Total(q.lanes) == |head.frames[0].bytes| + Size(head.frames[1..]) + Total(rest);
      assert Total(back) == Size(head.frames[1..]);
      TotalAppend(rest, back);
      assert AfterNext(q).lanes == rest + back;
    }
  }

  lemma ApplyKeeps(q: Queues, op: Op)
    requires WellFormed(q)
    ensures WellFormed(Apply(q, op))
  {
    match op
    case AddControl(f) =>
    case AddData(o, f) => PushDataKeeps(q, o, f);
    case DropRequest(o, id) => RemoveRequestKeeps(q, o, id);
    case DropObject(o) => RemoveObjectKeeps(q, o);
    case CloseAll =>
    case Next => NextKeeps(q);
  }

  /** The representation invariant holds in every state of every run. */
  lemma {:induction false} RunKeeps(q: Queues, ops: seq<Op>)
    requires WellFormed(q)
    ensures WellFormed(Run(q, ops))
    decreases ops
  {
    if ops != [] {
      ApplyKeeps(q, ops[0]);
      RunKeeps(Apply(q, ops[0]), ops[1..]);
    }
  }
}
