/** The send loop of a QUIC connection: messages taken one by one from the
    subscription are written, each under its number, on whichever of the
    connection's streams is idle, with a bounded window of unfinished writes. */
module QuicSend {
  import opened Base
  import opened QuicFrames

  /** A write in progress.  The write of the close frame carries the
      counter's value instead of an id of its own. */
  datatype Task = Task(id: nat, stream: nat, close: bool)

  /** Every stream is either idle or being written, once. */
  ghost predicate Pool(streams: seq<nat>, tasks: seq<Task>, n: nat) {
    && |streams| + |tasks| == n
    && (forall i :: 0 <= i < |streams| ==> streams[i] < n)
    && (forall k :: 0 <= k < |tasks| ==> tasks[k].stream < n)
    && (forall i, j :: 0 <= i < j < |streams| ==> streams[i] != streams[j])
    && (forall k, l :: 0 <= k < l < |tasks| ==> tasks[k].stream != tasks[l].stream)
    && (forall i, k :: 0 <= i < |streams| && 0 <= k < |tasks| ==> streams[i] != tasks[k].stream)
  }

  /** `ids` are the message writes in progress, and none is `backlog` or more behind. */
  ghost predicate InFlight(tasks: seq<Task>, ids: set<nat>, msgId: nat, backlog: nat) {
    && (forall k :: 0 <= k < |tasks| && !tasks[k].close ==> tasks[k].id in ids)
    && (forall k, l :: 0 <= k < l < |tasks| && !tasks[k].close && !tasks[l].close ==> tasks[k].id != tasks[l].id)
    && (forall i :: i in ids ==> i < msgId <= i + backlog && Writing(tasks, i))
    && (forall k :: 0 <= k < |tasks| && tasks[k].close ==> tasks[k].id == msgId)
  }

  ghost predicate Writing(tasks: seq<Task>, i: nat) {
    exists k :: 0 <= k < |tasks| && !tasks[k].close && tasks[k].id == i
  }

  function Drop(tasks: seq<Task>, k: nat): seq<Task>
    requires k < |tasks|
  {
    tasks[..k] + tasks[k + 1..]
  }

  lemma DropFlight(tasks: seq<Task>, ids: set<nat>, msgId: nat, backlog: nat, k: nat)
    requires InFlight(tasks, ids, msgId, backlog) && k < |tasks|
    ensures InFlight(Drop(tasks, k), ids - {tasks[k].id}, msgId, backlog)
  {
    var left := Drop(tasks, k);
    forall i | i in ids - {tasks[k].id} ensures Writing(left, i) {
      assert Writing(tasks, i);
      var l :| 0 <= l < |tasks| && !tasks[l].close && tasks[l].id == i;
      assert l != k;
      assert left[if l < k then l else l - 1] == tasks[l];
    }
    forall l | 0 <= l < |left| && !left[l].close ensures left[l].id in ids - {tasks[k].id} {
      var from := if l < k then l else l + 1;
      assert left[l] == tasks[from];
      assert tasks[k].close ==> tasks[k].id == msgId;
    }
  }

  lemma DropPool(streams: seq<nat>, tasks: seq<Task>, n: nat, k: nat)
    requires Pool(streams, tasks, n) && k < |tasks|
    ensures Pool(streams + [tasks[k].stream], Drop(tasks, k), n)
  {
  }

  lemma AddFlight(tasks: seq<Task>, ids: set<nat>, msgId: nat, backlog: nat, stream: nat)
    requires InFlight(tasks, ids, msgId, backlog)
    requires forall k :: 0 <= k < |tasks| ==> !tasks[k].close
    requires backlog >= 1 && forall i :: i in ids ==> msgId + 1 <= i + backlog
    ensures InFlight(tasks + [Task(msgId, stream, false)], ids + {msgId}, msgId + 1, backlog)
  {
    var more := tasks + [Task(msgId, stream, false)];
    forall i | i in ids + {msgId} ensures Writing(more, i) {
      if i == msgId {
        assert more[|tasks|].id == i;
      } else {
        assert Writing(tasks, i);
        var l :| 0 <= l < |tasks| && !tasks[l].close && tasks[l].id == i;
        assert more[l] == tasks[l];
      }
    }
  }

  lemma AddClose(tasks: seq<Task>, ids: set<nat>, msgId: nat, backlog: nat, stream: nat)
    requires InFlight(tasks, ids, msgId, backlog)
    ensures InFlight(tasks + [Task(msgId, stream, true)], ids, msgId, backlog)
  {
    var more := tasks + [Task(msgId, stream, true)];
    forall i | i in ids ensures Writing(more, i) {
      assert Writing(tasks, i);
      var l :| 0 <= l < |tasks| && !tasks[l].close && tasks[l].id == i;
      assert more[l] == tasks[l];
    }
  }

  lemma PopPool(streams: seq<nat>, tasks: seq<Task>, n: nat, task: Task)
    requires Pool(streams, tasks, n) && streams != [] && task.stream == streams[0]
    ensures Pool(streams[1..], tasks + [task], n)
  {
  }

  /** Where each message was written. */
  type Places = seq<(nat, nat)>

  /** The frames on the streams are the first `|places|` received messages, each
      exactly once and under its number, in increasing order on every stream, and
      after them at most one close frame, on stream `closeOn`. */
  ghost predicate Delivered(frames: seq<seq<Frame>>, places: Places, received: seq<seq<Byte>>, closeOn: Option<nat>) {
    && |places| <= |received|
    && (forall i :: 0 <= i < |places| ==> At(frames, places[i].0, places[i].1) == Some(Frame(i, received[i])))
    && (forall s, k :: 0 <= s < |frames| && 0 <= k < |frames[s]| ==>
          OwnPlace(frames[s][k].id, s, k, |frames[s]|, places, closeOn))
    && (forall s, k, l :: 0 <= s < |frames| && 0 <= k < l < |frames[s]| ==> frames[s][k].id < frames[s][l].id)
  }

  function At(frames: seq<seq<Frame>>, s: nat, k: nat): Option<Frame> {
    if s < |frames| && k < |frames[s]| then Some(frames[s][k]) else None
  }

  /** The frame with number `id` at place `k` of stream `s` is the one there is to be. */
  ghost predicate OwnPlace(id: nat, s: nat, k: nat, len: nat, places: Places, closeOn: Option<nat>) {
    if id < |places| then places[id] == (s, k) else id == U64_MAX && closeOn == Some(s) && k == len - 1
  }

  /** One more message. */
  lemma DeliverNext(frames: seq<seq<Frame>>, places: Places, received: seq<seq<Byte>>, s: nat)
    requires Delivered(frames, places, received, None)
    requires |places| < |received| && s < |frames|
    ensures Delivered(frames[s := frames[s] + [Frame(|places|, received[|places|])]],
                      places + [(s, |frames[s]|)], received, None)
  {
    var n := |places|;
    var frames', places' := frames[s := frames[s] + [Frame(n, received[n])]], places + [(s, |frames[s]|)];
    forall i | 0 <= i < n + 1 ensures At(frames', places'[i].0, places'[i].1) == Some(Frame(i, received[i])) {
      if i < n { assert At(frames, places[i].0, places[i].1) == Some(Frame(i, received[i])); }
    }
    forall t, k | 0 <= t < |frames'| && 0 <= k < |frames'[t]|
      ensures OwnPlace(frames'[t][k].id, t, k, |frames'[t]|, places', None)
    {
      if t != s || k < |frames[s]| {
        assert frames'[t][k] == frames[t][k];
        assert OwnPlace(frames[t][k].id, t, k, |frames[t]|, places, None);
      }
    }
    forall t, k, l | 0 <= t < |frames'| && 0 <= k < l < |frames'[t]| ensures frames'[t][k].id < frames'[t][l].id {
      assert OwnPlace(frames[t][k].id, t, k, |frames[t]|, places, None);
    }
  }

  /** The close frame. */
  lemma DeliverClose(frames: seq<seq<Frame>>, places: Places, received: seq<seq<Byte>>, s: nat, reason: seq<Byte>)
    requires Delivered(frames, places, received, None)
    requires |places| <= U64_MAX && s < |frames|
    ensures Delivered(frames[s := frames[s] + [Frame(U64_MAX, reason)]], places, received, Some(s))
  {
    var frames' := frames[s := frames[s] + [Frame(U64_MAX, reason)]];
    forall i | 0 <= i < |places| ensures At(frames', places[i].0, places[i].1) == Some(Frame(i, received[i])) {
      assert At(frames, places[i].0, places[i].1) == Some(Frame(i, received[i]));
    }
    forall t, k | 0 <= t < |frames'| && 0 <= k < |frames'[t]|
      ensures OwnPlace(frames'[t][k].id, t, k, |frames'[t]|, places, Some(s))
    {
      if t != s || k < |frames[s]| {
        assert frames'[t][k] == frames[t][k];
        assert OwnPlace(frames[t][k].id, t, k, |frames[t]|, places, None);
      }
    }
    forall t, k, l | 0 <= t < |frames'| && 0 <= k < l < |frames'[t]| ensures frames'[t][k].id < frames'[t][l].id {
      assert OwnPlace(frames[t][k].id, t, k, |frames[t]|, places, None);
    }
  }

  /** A reader that parses every stream and merges by number recovers the
      subscription: number `i` is found exactly once, and carries message `i`. */
  lemma MergeIsSource(wire: seq<seq<Byte>>, frames: seq<seq<Frame>>, places: Places, received: seq<seq<Byte>>,
                      closeOn: Option<nat>, s: nat, k: nat)
    requires Delivered(frames, places, received, closeOn) && Written(wire, frames)
    requires s < |wire| && k < |ParseAll(wire[s])|
    ensures var f := ParseAll(wire[s])[k];
      if f.id == U64_MAX && f.id >= |places| then closeOn == Some(s) && k == |ParseAll(wire[s])| - 1
      else f.id < |places| && f.payload == received[f.id] && places[f.id] == (s, k)
  {
    FramesRoundTrip(frames[s]);
    var f := frames[s][k];
    assert OwnPlace(f.id, s, k, |frames[s]|, places, closeOn);
    assert f.id < |places| ==> At(frames, places[f.id].0, places[f.id].1) == Some(Frame(f.id, received[f.id]));
  }

  /** … and none is missing. */
  lemma EveryMessageArrives(wire: seq<seq<Byte>>, frames: seq<seq<Frame>>, places: Places, received: seq<seq<Byte>>,
                            closeOn: Option<nat>, i: nat)
    requires Delivered(frames, places, received, closeOn) && Written(wire, frames) && i < |places|
    ensures var (s, k) := places[i];
      s < |wire| && k < |ParseAll(wire[s])| && ParseAll(wire[s])[k] == Frame(i, received[i])
  {
    assert At(frames, places[i].0, places[i].1) == Some(Frame(i, received[i]));
    FramesRoundTrip(frames[places[i].0]);
  }

  ghost predicate Written(wire: seq<seq<Byte>>, frames: seq<seq<Frame>>) {
    && |wire| == |frames|
    && (forall s :: 0 <= s < |wire| ==> wire[s] == AllBytes(frames[s]))
    && (forall s, k :: 0 <= s < |frames| && 0 <= k < |frames[s]| ==> Sendable(frames[s][k]))
  }

  lemma {:induction false} AllBytesAppend(fs: seq<Frame>, f: Frame)
    ensures AllBytes(fs + [f]) == AllBytes(fs) + Bytes(f)
    decreases |fs|
  {
    if fs == [] {
      assert fs + [f] == [f] && [f][1..] == [];
    } else {
      AllBytesAppend(fs[1..], f);
      assert (fs + [f])[1..] == fs[1..] + [f];
      assert Bytes(fs[0]) + (AllBytes(fs[1..]) + Bytes(f)) == Bytes(fs[0]) + AllBytes(fs[1..]) + Bytes(f);
    }
  }

  lemma WriteFrame(wire: seq<seq<Byte>>, frames: seq<seq<Frame>>, s: nat, f: Frame)
    requires Written(wire, frames) && s < |wire| && Sendable(f)
    ensures Written(wire[s := wire[s] + Bytes(f)], frames[s := frames[s] + [f]])
  {
    AllBytesAppend(frames[s], f);
  }

  /** One frame was written on stream `s`, after what was there, and nothing else. */
  ghost predicate Appended(was: seq<seq<Frame>>, now: seq<seq<Frame>>, s: nat, f: Frame) {
    s < |was| && now == was[s := was[s] + [f]]
  }

  ghost predicate EndsIn(tasks: seq<Task>, task: Task) {
    tasks != [] && tasks[|tasks| - 1] == task
  }

  /** The close frame was written on stream `s`, and its write is the last one spawned. */
  ghost predicate ClosedOn(was: seq<seq<Frame>>, now: seq<seq<Frame>>, closeOn: Option<nat>, tasks: seq<Task>,
                           msgId: nat, s: nat, payload: seq<Byte>)
  {
    && Appended(was, now, s, Frame(0xFFFF_FFFF_FFFF_FFFF, payload))
    && closeOn == Some(s) && EndsIn(tasks, Task(msgId, s, true))
  }

  class SendLoop {
    const recvStreams: nat
    const maxBacklog: nat
    var msgId: nat
    var msgIds: set<nat>
    var nextMessage: Option<seq<Byte>>
    var streams: seq<nat>
    var tasks: seq<Task>
    var wire: seq<seq<Byte>>  // what has been or is being written on each stream
    ghost var received: seq<seq<Byte>>
    ghost var frames: seq<seq<Frame>>
    ghost var places: Places
    ghost var closeOn: Option<nat>

    ghost predicate Valid()
      reads this
    {
      && recvStreams >= 1 && |wire| == recvStreams && msgId <= U64_MAX
      && (maxBacklog == 0 ==> msgId == 0)
      && Pool(streams, tasks, recvStreams)
      && InFlight(tasks, msgIds, msgId, maxBacklog)
      && (closeOn.None? ==> forall k :: 0 <= k < |tasks| ==> !tasks[k].close)
      && Written(wire, frames)
      && Delivered(frames, places, received, closeOn) && |places| == msgId
      && |received| == msgId + (if nextMessage.Some? then 1 else 0)
      && (nextMessage.Some? ==> received[msgId] == nextMessage.value)
      && (closeOn.Some? ==> nextMessage.None?)
      && (nextMessage.Some? ==> |nextMessage.value| <= U64_MAX)
    }

    /** The streams are opened first; the number of streams was checked to be at least one. */
    constructor (n: nat, backlog: nat)
      requires n >= 1
      ensures Valid() && received == [] && msgId == 0 && recvStreams == n && maxBacklog == backlog
      ensures closeOn == None && tasks == [] && nextMessage == None
    {
      recvStreams, maxBacklog := n, backlog;
      msgId, msgIds, nextMessage, tasks := 0, {}, None, [];
      var idle: seq<nat> := [];
      while |idle| < n
        invariant |idle| <= n && forall i :: 0 <= i < |idle| ==> idle[i] == i
      {
        idle := idle + [|idle|];
      }
      streams, wire := idle, seq(n, _ => []);
      received, frames, places, closeOn := [], seq(n, _ => []), [], None;
    }

    /** With a window of zero no message is ever written: whatever stands on the
        streams is the close frame. */
    lemma ZeroWindowSendsNothing()
      requires Valid() && maxBacklog == 0
      ensures forall s, k :: 0 <= s < |frames| && 0 <= k < |frames[s]| ==>
        frames[s][k].id == U64_MAX && closeOn == Some(s) && k == |frames[s]| - 1
      ensures |received| <= 1
    {
      forall s, k | 0 <= s < |frames| && 0 <= k < |frames[s]|
        ensures frames[s][k].id == U64_MAX && closeOn == Some(s) && k == |frames[s]| - 1
      {
        assert OwnPlace(frames[s][k].id, s, k, |frames[s]|, places, closeOn);
      }
    }

    /** The top of the loop: send the held message if the window and a stream allow it.
        A message still held afterwards has a write in progress to wait for, unless
        the window is zero, with which nothing is ever sent. */
    method Dispatch()
      requires Valid() && msgId < U64_MAX
      modifies this
      ensures Valid() && received == old(received) && closeOn == old(closeOn)
      ensures
        if old(nextMessage.Some? && streams != [] && maxBacklog >= 1
               && forall i :: i in msgIds ==> msgId - i < maxBacklog)
        then
          && msgId == old(msgId) + 1 && nextMessage.None? && streams == old(streams)[1..]
          && tasks == old(tasks) + [Task(old(msgId), old(streams)[0], false)] && msgIds == old(msgIds) + {old(msgId)}
          && Appended(old(frames), frames, old(streams)[0], Frame(old(msgId), old(nextMessage).value))
        else
          && msgId == old(msgId) && nextMessage == old(nextMessage) && msgIds == old(msgIds)
          && streams == old(streams) && tasks == old(tasks) && frames == old(frames)
      ensures nextMessage.Some? && maxBacklog >= 1 ==> tasks != []
      ensures maxBacklog == 0 ==> nextMessage == old(nextMessage) && tasks == old(tasks)
    {
      var behind := if msgIds == {} then 0 else msgId - Least(msgIds);
      if behind < maxBacklog && nextMessage.Some? {
        if streams != [] {
          SendNext();
        }
      }
    }

    /** Spawn the write of the held message on the first idle stream. */
    method SendNext()
      requires Valid() && msgId < U64_MAX && nextMessage.Some? && streams != []
      requires maxBacklog >= 1 && forall i :: i in msgIds ==> msgId + 1 <= i + maxBacklog
      modifies this
      ensures Valid() && received == old(received) && closeOn == old(closeOn)
      ensures msgId == old(msgId) + 1 && nextMessage.None? && streams == old(streams)[1..]
      ensures tasks == old(tasks) + [Task(old(msgId), old(streams)[0], false)] && msgIds == old(msgIds) + {old(msgId)}
      ensures Appended(old(frames), frames, old(streams)[0], Frame(old(msgId), old(nextMessage).value))
    {
      assert closeOn.None?;
      Emit(streams[0], nextMessage.value);
      Claim();
      nextMessage := None;
    }

    /** The first idle stream becomes a write of the current number. */
    method Claim()
      requires Pool(streams, tasks, recvStreams) && streams != []
      requires InFlight(tasks, msgIds, msgId, maxBacklog)
      requires forall k :: 0 <= k < |tasks| ==> !tasks[k].close
      requires maxBacklog >= 1 && forall i :: i in msgIds ==> msgId + 1 <= i + maxBacklog
      modifies this`streams, this`msgIds, this`tasks, this`msgId
      ensures Pool(streams, tasks, recvStreams) && InFlight(tasks, msgIds, msgId, maxBacklog)
      ensures forall k :: 0 <= k < |tasks| ==> !tasks[k].close
      ensures msgId == old(msgId) + 1 && streams == old(streams)[1..]
      ensures tasks == old(tasks) + [Task(old(msgId), old(streams)[0], false)] && msgIds == old(msgIds) + {old(msgId)}
    {
      var task := Task(msgId, streams[0], false);
      AddFlight(tasks, msgIds, msgId, maxBacklog, task.stream);
      PopPool(streams, tasks, recvStreams, task);
      streams, msgIds, tasks, msgId := streams[1..], msgIds + {msgId}, tasks + [task], msgId + 1;
    }

    /** Write the next message of the subscription. */
    method Emit(stream: nat, message: seq<Byte>)
      requires Written(wire, frames) && closeOn.None? && Delivered(frames, places, received, closeOn)
      requires |places| < |received| && received[|places|] == message && stream < |wire|
      requires Sendable(Frame(|places|, message)) && msgId == |places|
      modifies this`wire, this`frames, this`places
      ensures Written(wire, frames) && |wire| == |old(wire)|
      ensures Delivered(frames, places, received, closeOn) && |places| == |old(places)| + 1
      ensures Appended(old(frames), frames, stream, Frame(msgId, message))
    {
      DeliverNext(frames, places, received, stream);
      WriteFrame(wire, frames, stream, Frame(|places|, message));
      wire := wire[stream := wire[stream] + Bytes(Frame(msgId, message))];
      places, frames := places + [(stream, |frames[stream]|)],
        frames[stream := frames[stream] + [Frame(|places|, message)]];
    }

    /** Write the close frame. */
    method EmitClose(stream: nat, payload: seq<Byte>)
      requires Written(wire, frames) && Delivered(frames, places, received, None) && |places| <= U64_MAX
      requires stream < |wire| && |payload| <= U64_MAX
      modifies this`wire, this`frames, this`closeOn
      ensures Written(wire, frames) && |wire| == |old(wire)| && Delivered(frames, places, received, closeOn)
      ensures closeOn == Some(stream)
      ensures Appended(old(frames), frames, stream, Frame(0xFFFF_FFFF_FFFF_FFFF, payload))
    {
      var f := Frame(U64_MAX, payload);
      DeliverClose(frames, places, received, stream, payload);
      WriteFrame(wire, frames, stream, f);
      wire := wire[stream := wire[stream] + Bytes(f)];
      frames, closeOn := frames[stream := frames[stream] + [f]], Some(stream);
    }

    /** The subscription has a message; it is asked only with none held. */
    method OnMessage(m: seq<Byte>)
      requires Valid() && nextMessage.None? && closeOn.None? && |m| <= U64_MAX
      modifies this`nextMessage, this`received
      ensures Valid() && received == old(received) + [m]
    {
      nextMessage := Some(m);
      received := received + [m];
    }

    /** A write finished. */
    method OnJoin(k: nat)
      requires Valid() && k < |tasks|
      modifies this`tasks, this`msgIds, this`streams
      ensures Valid() && tasks == Drop(old(tasks), k) && streams == old(streams) + [old(tasks)[k].stream]
      ensures msgIds == old(msgIds) - {old(tasks)[k].id}
    {
      DropFlight(tasks, msgIds, msgId, maxBacklog, k);
      DropPool(streams, tasks, recvStreams, k);
      var task := tasks[k];
      msgIds := msgIds - {task.id};
      streams := streams + [task.stream];
      tasks := Drop(tasks, k);
    }

    /** The subscription failed: close on an idle stream, waiting for one if need be
        (`k` is whichever write finishes).  There is always one to be had. */
    method OnError(reason: CloseReason, k: nat)
      requires Valid() && nextMessage.None? && closeOn.None?
      requires streams == [] ==> k < |tasks|
      modifies this
      ensures Valid() && received == old(received) && msgId == old(msgId)
      ensures var s := if old(streams) == [] then old(tasks)[k].stream else old(streams)[0];
        ClosedOn(old(frames), frames, closeOn, tasks, msgId, s, CloseBytes(reason))
    {
      if streams == [] {
        assert tasks != [];
        OnJoin(k);
      }
      CloseRoundTrip(reason);
      SendClose(CloseBytes(reason));
    }

    method SendClose(payload: seq<Byte>)
      requires Valid() && nextMessage.None? && closeOn.None? && streams != [] && |payload| <= U64_MAX
      modifies this
      ensures Valid() && received == old(received) && msgId == old(msgId)
      ensures ClosedOn(old(frames), frames, closeOn, tasks, msgId, old(streams)[0], payload)
    {
      var stream := streams[0];
      ClaimClose();
      EmitClose(stream, payload);
    }

    /** The first idle stream becomes the write of the close frame. */
    method ClaimClose()
      requires Pool(streams, tasks, recvStreams) && streams != []
      requires InFlight(tasks, msgIds, msgId, maxBacklog)
      modifies this`streams, this`tasks
      ensures Pool(streams, tasks, recvStreams) && InFlight(tasks, msgIds, msgId, maxBacklog)
      ensures EndsIn(tasks, Task(msgId, old(streams)[0], true))
    {
      var task := Task(msgId, streams[0], true);
      AddClose(tasks, msgIds, msgId, maxBacklog, task.stream);
      PopPool(streams, tasks, recvStreams, task);
      streams, tasks := streams[1..], tasks + [task];
    }
  }
}
