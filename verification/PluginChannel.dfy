/** The plugin broadcast channel: one sender, many receivers, a ring of cells.
    Every method here runs with the state lock held for its whole length;
    module PluginProtocol has the interleavings.  A panic is reported by `ok`
    being false: the panics that cannot happen are assertions. */
module PluginChannel {
  import opened Base
  import opened RingIndex
  import opened Ring
  import opened PluginSpec
  import opened PluginBackfill

  lemma SurvivorsStep(index: Index, cap: nat, log: Log, lo: nat, hi: nat)
    requires cap <= lo <= hi < Tail(cap, log)
    ensures (map t | t in Survivors(index, cap, log, lo, hi) && t > SlotAt(cap, log, hi) :: index[t])
         == Survivors(index, cap, log, lo, hi + 1)
  {
  }

  lemma SurvivorsSkip(index: Index, cap: nat, log: Log, lo: nat, hi: nat)
    requires cap <= lo <= hi < Tail(cap, log)
    requires forall t :: t in index ==> t > SlotAt(cap, log, hi)
    ensures Survivors(index, cap, log, lo, hi) == Survivors(index, cap, log, lo, hi + 1)
  {
  }

  lemma SurvivorsPop(index: Index, cap: nat, log: Log, lo: nat, hi: nat, s: nat, p: nat)
    requires cap <= lo <= p < hi <= Tail(cap, log)
    requires SlotAt(cap, log, p) == s
    ensures Survivors(index - {s}, cap, log, lo, hi) == Survivors(index, cap, log, lo, hi)
  {
  }

  lemma SurvivorsNone(index: Index, cap: nat, log: Log, lo: nat)
    requires cap <= lo <= Tail(cap, log)
    ensures Survivors(index, cap, log, lo, lo) == index
  {
  }

  /** Entering a slot leaves at most one slot too many, and every indexed slot
      at a live message of its own or at the tail. */
  lemma EnteredOk(c: Chan, m: Notice)
    requires ChanOk(c)
    ensures |Enter(c.index, m, c.End())| <= c.slotsMax + 1
    ensures AtOwnSlot(c, Enter(c.index, m, c.End()))
  {
    var index := Enter(c.index, m, c.End());
    EnterSize(c.index, m, c.End());
    forall t | t in index
      ensures c.head <= index[t].head <= c.End()
      ensures index[t].head < c.End() ==> SlotAt(c.cap, c.log, index[t].head) == t
    {
      if t in c.index { assert Live(c.cap, c.head, c.log, t, c.index[t].head); }
    }
  }

  ghost predicate AtOwnSlot(c: Chan, index: Index) {
    && c.cap <= c.head <= c.End()
    && forall t :: t in index ==>
         && c.head <= index[t].head <= c.End()
         && (index[t].head < c.End() ==> SlotAt(c.cap, c.log, index[t].head) == t)
  }

  /** Where `head` stands once both limits are met, if they can be met. */
  ghost function RoomHead(c: Chan, index: Index, size: nat): (h: Option<nat>)
    requires AtOwnSlot(c, index)
    ensures h.Some? ==> c.head <= h.value <= c.End()
  {
    match SlotHead(c, index)
    case None => None
    case Some(h) => if size > c.bytesMax then None else Some(FitFrom(c.cap, c.log, h, c.bytesMax - size))
  }

  lemma RoomThenStore(c: Chan, m: Notice, data: seq<Byte>)
    requires ChanOk(c)
    ensures var index := Enter(c.index, m, c.End());
      && AtOwnSlot(c, index)
      && var room, r := RoomHead(c, index, |data|), AfterPush(c, m, data);
         && (r.Some? <==> room.Some?)
         && (r.Some? ==>
               var head := Max(room.value, |c.log| + 1);
               && ChanOk(r.value)
               && r.value == c.(head := head, log := c.log + [ToEntry(m, data)],
                                index := Survivors(index, c.cap, c.log, c.head, head)))
  {
    EnteredOk(c, m);
    if AfterPush(c, m, data).Some? { PushKeepsChannel(c, m, data); }
  }

  /** `m` and then the updates for `w`. */
  ghost predicate Listed(index: Index, messages: seq<Notice>, m: Notice, w: seq<nat>)
    requires m.SlotMsg?
  {
    && |messages| == |w| + 1 && messages[0] == m
    && (forall i :: 0 <= i < |w| ==> w[i] in index)
    && forall i :: 1 <= i <= |w| ==> messages[i] == SlotMsg(w[i - 1], index[w[i - 1]].parent, m.status)
  }

  ghost predicate ReverseOf(a: seq<Notice>, b: seq<Notice>) {
    |a| == |b| && forall k :: 0 <= k < |a| ==> a[k] == b[|a| - 1 - k]
  }

  lemma ListedStep(index: Index, messages: seq<Notice>, m: Notice, w: seq<nat>, p: nat)
    requires m.SlotMsg? && Listed(index, messages, m, w) && p in index
    ensures Listed(index, messages + [SlotMsg(p, index[p].parent, m.status)], m, w + [p])
  {
  }

  lemma ListedIsAnnounce(index: Index, m: Notice, w: seq<nat>, messages: seq<Notice>)
    requires m.SlotMsg? && Listed(index, messages, m, w)
    requires w == Missed(index, m.slot, m.status)
    ensures ReverseOf(messages, Announce(index, m))
  {
    var ups := Oldest(index, m.status, w);
    assert Announce(index, m) == ups + [m];
    forall k | 0 <= k < |messages| ensures messages[k] == (ups + [m])[|messages| - 1 - k] {
      if k > 0 { assert ups[|w| - k] == SlotMsg(w[k - 1], index[w[k - 1]].parent, m.status); }
    }
  }

  /** The walk has visited `w` of `missed` and stands at `slot`. */
  ghost predicate Pending(index: Index, w: seq<nat>, slot: nat, status: SlotStatus, missed: seq<nat>) {
    |w| <= |index| && missed == w + Walk(index, slot, status, |index| + 1 - |w|)
  }

  lemma PendingStep(index: Index, w: seq<nat>, slot: nat, status: SlotStatus, missed: seq<nat>)
    requires Pending(index, w, slot, status, missed)
    ensures var next := NextMissed(index, slot, status);
      && (next.Some? && |w| < |index| ==> Pending(index, w + [next.value], next.value, status, missed))
      && (next.Some? && |w| == |index| ==> missed == w + [next.value])
      && (next.None? ==> missed == w)
  {
    var next := NextMissed(index, slot, status);
    if next.Some? {
      var rest := Walk(index, next.value, status, |index| - |w|);
      assert w + ([next.value] + rest) == w + [next.value] + rest;
    }
  }

  lemma RestOf(messages: seq<Notice>, ms: seq<Notice>, rest: seq<Notice>, k: nat)
    requires ReverseOf(messages, ms) && k < |ms| && rest == ms[|ms| - k - 1..]
    ensures rest != [] && rest[0] == messages[k] && rest[1..] == ms[|ms| - k..]
  {
  }

  lemma PushesFrom(c: Chan, ms: seq<Notice>, i: nat, encode: Notice -> seq<Byte>)
    requires ChanOk(c) && i < |ms|
    ensures AfterPushes(c, ms[i..], encode) ==
      match AfterPush(c, ms[i], encode(ms[i]))
      case None => None
      case Some(c') => (PushKeepsChannel(c, ms[i], encode(ms[i])); AfterPushes(c', ms[i + 1..], encode))
  {
    assert ms[i..][1..] == ms[i + 1..];
  }

  /** How a push ends, if it ends. */
  datatype Outcome = Done | Panicked | Hung

  datatype SubscribeError = SlotNotAvailable(firstAvailable: nat) | NotInitialized

  class Sender {
    const cap: nat
    const buffer: array<Item<Payload>>
    const slotsMax: nat
    const bytesMax: nat
    var head: nat
    var tail: nat
    var slots: Index
    var bytesTotal: nat
    var wakers: seq<nat>
    ghost var log: Log
    ghost var closed: bool

    /** The ring, with `extra` bytes counted for a message not stored yet. */
    ghost predicate Consistent(extra: nat)
      reads this, buffer
    {
      && buffer.Length == cap
      && Holds(buffer[..], cap, head, log)
      && tail == Tail(cap, log)
      && bytesTotal == Bytes(cap, log, head) + extra
      && forall i :: 0 <= i < cap ==> buffer[i].closed == closed
    }

    ghost function Abs(): Chan
      reads this
    {
      Chan(cap, slotsMax, bytesMax, head, log, slots)
    }

    ghost predicate Valid()
      reads this, buffer
    {
      Consistent(0) && ChanOk(Abs())
    }

    constructor (maxMessages: nat, maxSlots: nat, maxBytes: nat)
      ensures Valid() && fresh(buffer)
      ensures cap == NextPow2(maxMessages)
      ensures Abs() == Chan(cap, maxSlots, maxBytes, cap, [], map[])
      ensures !closed && wakers == []
    {
      var size := NextPow2(maxMessages);
      var cells := new Item<Payload>[size](i requires i >= 0 => Item(i, 0, None, false));
      cap, buffer, slotsMax, bytesMax := size, cells, maxSlots, maxBytes;
      head, tail, slots, bytesTotal, wakers := size, size, map[], 0, [];
      log, closed := [], false;
      new;
      FreshHolds(buffer[..], cap);
    }

    /** Forget every indexed slot up to `upto`. */
    method RemoveSlots(first: Option<nat>, upto: nat)
      requires first.Some? ==> forall t :: t in slots ==> first.value <= t
      modifies this`slots
      ensures slots == map t | t in old(slots) && t > upto :: old(slots)[t]
    {
      var slot: nat;
      match first {
        case Some(s) => slot := s;
        case None =>
          if slots == map[] { return; }
          slot := Least(slots.Keys);
      }
      while slot <= upto
        invariant forall t :: t in slots ==> t in old(slots) && slots[t] == old(slots)[t] && slot <= t
        invariant forall t :: t in old(slots) && t > upto ==> t in slots
        decreases |slots| + if slot in slots then 0 else 1
      {
        ghost var before := slots;
        slots := slots - {slot};
        assert slots.Keys == before.Keys - {slot};
        if slots == map[] { return; }
        slot := Least(slots.Keys);
      }
    }

    /** Empty the cell at `head`; the `take` in the source always finds a message. */
    method TakeOldest(ghost extra: nat) returns (slot: nat)
      requires Consistent(extra) && head < tail
      modifies this`head, this`bytesTotal, buffer
      ensures Consistent(extra)
      ensures head == old(head) + 1
      ensures slot == SlotAt(cap, log, old(head))
    {
      ghost var cells := buffer[..];
      var idx := Idx(head, cap);
      var item := buffer[idx];
      TakeHead(cells, cap, head, log, cells[idx := item.(data := None)]);
      assert item.data.Some?;
      buffer[idx] := item.(data := None);
      assert buffer[..] == cells[idx := item.(data := None)];
      head := head + 1;
      bytesTotal := bytesTotal - item.data.value.size;
      slot := item.slot;
    }

    /** Evict up to the first message of slot `s`, at `upto`. */
    method EvictUpto(s: nat, upto: nat, ghost index: Index, ghost from: nat)
      requires Consistent(0) && cap <= from <= head <= upto <= tail
      requires slots == Survivors(index, cap, log, from, head)
      requires forall t :: t in index ==> s < t
      modifies this`head, this`bytesTotal, this`slots, buffer
      ensures Consistent(0) && head == upto
      ensures slots == Survivors(index, cap, log, from, head)
    {
      while head < upto
        invariant Consistent(0) && from <= head <= upto
        invariant slots == Survivors(index, cap, log, from, head)
      {
        SurvivorsStep(index, cap, log, from, head);
        var slot := TakeOldest(0);
        RemoveSlots(Some(s + 1), slot);
      }
    }

    /** Evict the run of messages of slot `s` at `head`; it must end before `tail`. */
    method EvictRun(s: nat, ghost index: Index, ghost from: nat) returns (ok: bool)
      requires Consistent(0) && cap <= from <= head
      requires slots == Survivors(index, cap, log, from, head)
      requires forall t :: t in index ==> s < t
      modifies this`head, this`bytesTotal, buffer
      ensures Consistent(0)
      ensures head == RunEnd(cap, log, old(head), s)
      ensures slots == Survivors(index, cap, log, from, head)
      ensures ok <==> head < tail
    {
      ghost var goal := RunEnd(cap, log, head, s);
      while true
        invariant Consistent(0) && from <= head
        invariant RunEnd(cap, log, head, s) == goal
        invariant slots == Survivors(index, cap, log, from, head)
        decreases tail - head
      {
        if head >= tail { return false; }
        Locate(buffer[..], cap, head, log, head);
        var idx := Idx(head, cap);
        assert CellOk(buffer[..][idx], idx, cap, head, log);
        if s != buffer[idx].slot { break; }
        SurvivorsSkip(index, cap, log, from, head);
        var _ := TakeOldest(0);
      }
      ok := true;
    }

    /** Drop the least slot: everything up to its first message, and then its run. */
    method DropLeast(ghost c: Chan, ghost index: Index) returns (ok: bool)
      requires Consistent(0) && c.(index := index) == Abs() && index != map[] && AtOwnSlot(c, index)
      modifies this`head, this`bytesTotal, this`slots, buffer
      ensures var s := Least(index.Keys); head == RunEnd(cap, log, index[s].head, s)
      ensures ok <==> head < tail
      ensures ok ==> Consistent(0) && c.head <= head && slots == Survivors(index, cap, log, c.head, head)
      ensures ok ==> |slots| < |index|
    {
      var s := Least(slots.Keys);
      var info := slots[s];
      slots := slots - {s};
      ghost var rest := slots;
      assert rest.Keys == index.Keys - {s};
      SurvivorsNone(rest, cap, log, head);
      EvictUpto(s, info.head, rest, c.head);
      ok := EvictRun(s, rest, c.head);
      if !ok { return; }
      SurvivorsPop(index, cap, log, c.head, head, s, info.head);
      SubsetSize(slots.Keys, rest.Keys);
    }

    /** Meet the slot limit, given that it is exceeded by at most one. */
    method DropBySlots(ghost c: Chan, ghost index: Index) returns (ok: bool)
      requires Consistent(0) && c.(index := index) == Abs()
      requires |index| <= slotsMax + 1 && AtOwnSlot(c, index)
      modifies this`head, this`bytesTotal, this`slots, buffer
      ensures ok <==> SlotHead(c, index).Some?
      ensures ok ==> Consistent(0) && head == SlotHead(c, index).value
      ensures ok ==> slots == Survivors(index, cap, log, c.head, head)
    {
      SurvivorsNone(slots, cap, log, head);
      while |slots| > slotsMax
        invariant Consistent(0) && c.head <= head && slots == Survivors(index, cap, log, c.head, head)
        invariant |slots| > slotsMax ==> slots == index && head == c.head
        invariant |slots| <= slotsMax ==> SlotHead(c, index) == Some(head)
        decreases |slots|
      {
        ok := DropLeast(c, index);
        if !ok { return; }
      }
      ok := true;
    }

    /** Meet the byte limit with `size` bytes on their way in. */
    method DropByBytes(size: nat, ghost index: Index, ghost from: nat) returns (ok: bool)
      requires Consistent(0) && cap <= from <= head
      requires slots == Survivors(index, cap, log, from, head)
      modifies this`head, this`bytesTotal, this`slots, buffer
      ensures ok <==> size <= bytesMax
      ensures ok ==> Consistent(size) && head == FitFrom(cap, log, old(head), bytesMax - size)
      ensures ok ==> slots == Survivors(index, cap, log, from, head)
    {
      bytesTotal := bytesTotal + size;
      ghost var start := head;
      while bytesTotal > bytesMax
        invariant Consistent(size) && start <= head
        invariant slots == Survivors(index, cap, log, from, head)
        invariant size <= bytesMax ==>
          FitFrom(cap, log, head, bytesMax - size) == FitFrom(cap, log, start, bytesMax - size)
        decreases tail - head
      {
        if head >= tail { return false; }
        SurvivorsStep(index, cap, log, from, head);
        var slot := TakeOldest(size);
        RemoveSlots(None, slot);
      }
      ok := true;
    }

    /** Write the cell of `tail`, which still holds a message when the ring is full. */
    method Store(m: Notice, data: seq<Byte>, ghost index: Index, ghost from: nat)
      requires Consistent(|data|) && cap <= from <= head
      requires slots == Survivors(index, cap, log, from, head)
      modifies this, buffer
      ensures Consistent(0)
      ensures head == Max(old(head), |old(log)| + 1)
      ensures log == old(log) + [ToEntry(m, data)]
      ensures slots == Survivors(index, cap, old(log), from, head)
      ensures wakers == old(wakers) && closed == old(closed)
    {
      ghost var cells, e := buffer[..], ToEntry(m, data);
      var idx := Idx(tail, cap);
      var item := buffer[idx];
      ghost var was := head;
      Displace(item, index, from, |data|);
      StoreTail(cells, cap, was, log, e, cells[idx := Item(tail, e.slot, Some(e), item.closed)], head);
      BytesAppend(cap, log, e, head);
      buffer[idx] := Item(tail, m.slot, Some(ToEntry(m, data)), item.closed);
      assert buffer[..] == cells[idx := Item(tail, e.slot, Some(e), item.closed)];
      tail := tail + 1;
      log := log + [e];
    }

    /** If the cell to be written still holds the oldest message, that one goes. */
    method Displace(item: Item<Payload>, ghost index: Index, ghost from: nat, ghost extra: nat)
      requires Consistent(extra) && cap <= from <= head && item == buffer[Idx(tail, cap)]
      requires slots == Survivors(index, cap, log, from, head)
      modifies this`head, this`slots, this`bytesTotal
      ensures head == (if old(head) == |log| then old(head) + 1 else old(head)) == Max(old(head), |log| + 1)
      ensures head <= tail && bytesTotal == Bytes(cap, log, head) + extra
      ensures slots == Survivors(index, cap, log, from, head)
    {
      LocateTail(buffer[..], cap, head, log);
      if item.data.Some? {
        SurvivorsStep(index, cap, log, from, head);
        head := head + 1;
        RemoveSlots(None, item.slot);
        bytesTotal := bytesTotal - item.data.value.size;
      }
    }

    /** Enter the message's slot, its parent and its status in the index. */
    method EnterSlot(m: Notice)
      modifies this`slots
      ensures slots == Enter(old(slots), m, tail)
    {
      var info := if m.slot in slots then slots[m.slot] else SlotInfo(tail, None, false, false);
      match m {
        case SlotMsg(_, parent, status) =>
          if parent.Some? { info := info.(parent := parent); }
          if status.Confirmed? {
            info := info.(confirmed := true);
          } else if status.Rooted? {
            info := info.(finalized := true);
          }
        case _ =>
      }
      slots := slots[m.slot := info];
    }

    /** The evictions a message of `size` bytes causes once its slot is entered. */
    method MakeRoom(size: nat, ghost c: Chan, ghost index: Index) returns (ok: bool)
      requires Consistent(0) && c.(index := index) == Abs()
      requires |index| <= slotsMax + 1 && AtOwnSlot(c, index)
      modifies this`head, this`bytesTotal, this`slots, buffer
      ensures ok <==> RoomHead(c, index, size).Some?
      ensures ok ==> Consistent(size) && c.head <= head == RoomHead(c, index, size).value
      ensures ok ==> slots == Survivors(index, cap, log, c.head, head)
    {
      ok := DropBySlots(c, index);
      if !ok { return; }
      ok := DropByBytes(size, index, c.head);
    }

    /** Enter the slot, make room, store. */
    method PushParts(m: Notice, data: seq<Byte>, ghost c: Chan, ghost index: Index) returns (ok: bool)
      requires Consistent(0) && c == Abs() && index == Enter(slots, m, tail)
      requires |index| <= slotsMax + 1 && AtOwnSlot(c, index)
      modifies this, buffer
      ensures ok <==> RoomHead(c, index, |data|).Some?
      ensures ok ==> Consistent(0) && wakers == old(wakers) && closed == old(closed)
      ensures ok ==> head == Max(RoomHead(c, index, |data|).value, |c.log| + 1)
      ensures ok ==> log == c.log + [ToEntry(m, data)] && slots == Survivors(index, cap, c.log, c.head, head)
    {
      EnterSlot(m);
      ok := MakeRoom(|data|, c, index);
      if !ok { return; }
      Store(m, data, index, c.head);
    }

    /** One message: refines `AfterPush`, panics included. */
    method PushMsg(m: Notice, data: seq<Byte>) returns (ok: bool)
      requires Valid()
      modifies this, buffer
      ensures ok <==> AfterPush(old(Abs()), m, data).Some?
      ensures ok ==> Valid() && AfterPush(old(Abs()), m, data) == Some(Abs())
      ensures ok ==> cap <= head && bytesTotal == PayloadSum(log, head - cap) <= bytesMax
      ensures ok ==> wakers == old(wakers) && closed == old(closed)
    {
      ghost var c := Abs();
      RoomThenStore(c, m, data);
      EnteredOk(c, m);
      ok := PushParts(m, data, c, Enter(slots, m, tail));
      if ok { BytesArePayload(cap, log, head); }
    }

    /** A message with the updates it back-fills, then every parked receiver is woken.
        The call never returns when the recorded parents of the slot run into a cycle. */
    method Push(m: Notice, encode: Notice -> seq<Byte>) returns (outcome: Outcome, woken: seq<nat>)
      requires Valid()
      modifies this, buffer
      ensures outcome.Hung? <==> m.SlotMsg? && ReachesCycle(old(slots), m.slot, m.status)
      ensures outcome.Hung? ==> Abs() == old(Abs()) && Valid()
      ensures !outcome.Hung? ==> (outcome.Done? <==> AfterPushes(old(Abs()), Announce(old(slots), m), encode).Some?)
      ensures !outcome.Hung? ==> (outcome.Panicked? <==>
        Oversized(Announce(old(slots), m), encode, bytesMax) || Drains(old(Abs()), m.slot))
      ensures outcome.Done? ==> Valid() && AfterPushes(old(Abs()), Announce(old(slots), m), encode) == Some(Abs())
      ensures outcome.Done? ==> woken == old(wakers) && wakers == [] && closed == old(closed)
    {
      woken := [];
      if m.SlotMsg? { DivergesIff(slots, m.slot, m.status); }
      var messages := FindMissed(m);
      if messages.None? { return Hung, []; }
      PushesPanicIff(Abs(), m, encode);
      var ok := PushAll(messages.value, encode, Announce(slots, m));
      if !ok { return Panicked, []; }
      outcome := Done;
      woken, wakers := wakers, [];
    }

    /** The first of the pushes that remain. */
    method PushFirst(m: Notice, encode: Notice -> seq<Byte>, ghost rest: seq<Notice>, ghost goal: Option<Chan>)
      returns (ok: bool)
      requires Valid() && rest != [] && rest[0] == m && AfterPushes(Abs(), rest, encode) == goal
      modifies this, buffer
      ensures !ok ==> goal.None?
      ensures ok ==> Valid() && AfterPushes(Abs(), rest[1..], encode) == goal
      ensures ok ==> wakers == old(wakers) && closed == old(closed)
    {
      PushesFrom(Abs(), rest, 0, encode);
      assert rest[0..] == rest;
      ok := PushMsg(m, encode(m));
    }

    /** From the last message to the first. */
    method PushAll(messages: seq<Notice>, encode: Notice -> seq<Byte>, ghost ms: seq<Notice>) returns (ok: bool)
      requires Valid() && ReverseOf(messages, ms)
      modifies this, buffer
      ensures ok <==> AfterPushes(old(Abs()), ms, encode).Some?
      ensures ok ==> Valid() && AfterPushes(old(Abs()), ms, encode) == Some(Abs())
      ensures ok ==> wakers == old(wakers) && closed == old(closed)
    {
      ghost var goal, rest := AfterPushes(Abs(), ms, encode), ms;
      var k := |messages|;
      while k > 0
        invariant 0 <= k <= |messages| && Valid() && rest == ms[|ms| - k..]
        invariant AfterPushes(Abs(), rest, encode) == goal
        invariant wakers == old(wakers) && closed == old(closed)
      {
        k := k - 1;
        RestOf(messages, ms, rest, k);
        ok := PushFirst(messages[k], encode, rest, goal);
        if !ok { return; }
        rest := rest[1..];
      }
      ok := true;
    }

    /** The message and the ancestors it announces, nearest first: the reverse of
        `Announce`; `None` if the walk does not end. */
    method FindMissed(m: Notice) returns (messages: Option<seq<Notice>>)
      ensures messages.None? <==> m.SlotMsg? && !Stops(slots, m.slot, m.status)
      ensures messages.Some? ==> ReverseOf(messages.value, Announce(slots, m))
    {
      if !m.SlotMsg? { return Some([m]); }
      ghost var missed := Missed(slots, m.slot, m.status);
      messages := WalkParents(m, missed);
      if messages.Some? { ListedIsAnnounce(slots, m, missed, messages.value); }
    }

    /** More ancestors than indexed slots: the code would go on for ever. */
    method WalkParents(m: Notice, ghost missed: seq<nat>) returns (found: Option<seq<Notice>>)
      requires m.SlotMsg? && Pending(slots, [], m.slot, m.status, missed)
      ensures found.None? <==> |missed| > |slots|
      ensures found.Some? ==> Listed(slots, found.value, m, missed)
    {
      var messages := [m];
      ghost var w: seq<nat> := [];
      var stack := Some(m.slot);
      while stack.Some? && stack.value in slots && slots[stack.value].parent.Some?
            && slots[stack.value].parent.value in slots
        invariant Listed(slots, messages, m, w) && |w| <= |slots|
        invariant if stack.Some? then Pending(slots, w, stack.value, m.status, missed) else missed == w
        decreases |slots| + 1 - |w|, stack.Some?
      {
        var slot, parent := stack.value, slots[stack.value].parent.value;
        var entry := slots[parent];
        PendingStep(slots, w, slot, m.status, missed);
        assert Lacks(entry, m.status) <==> NextMissed(slots, slot, m.status) == Some(parent);
        stack := None;
        if (m.status.Confirmed? && !entry.confirmed) || (m.status.Rooted? && !entry.finalized) {
          if |messages| > |slots| { return None; }
          stack := Some(parent);
          ListedStep(slots, messages, m, w, parent);
          messages := messages + [SlotMsg(parent, entry.parent, m.status)];
          w := w + [parent];
        }
      }
      if stack.Some? { PendingStep(slots, w, stack.value, m.status, missed); }
      found := Some(messages);
    }

    method FlagCells()
      modifies buffer
      ensures forall i :: 0 <= i < buffer.Length ==> buffer[i] == old(buffer[i]).(closed := true)
    {
      var idx := 0;
      while idx < buffer.Length
        invariant 0 <= idx <= buffer.Length
        invariant forall i :: 0 <= i < buffer.Length ==>
          buffer[i] == if i < idx then old(buffer[i]).(closed := true) else old(buffer[i])
      {
        buffer[idx] := buffer[idx].(closed := true);
        idx := idx + 1;
      }
    }

    /** Flags every cell, then wakes everybody. */
    method Close() returns (woken: seq<nat>)
      requires Valid()
      modifies this, buffer
      ensures Valid() && Abs() == old(Abs())
      ensures closed && woken == old(wakers) && wakers == []
      ensures forall i :: 0 <= i < buffer.Length ==> buffer[i].closed
    {
      ghost var cells := buffer[..];
      FlagCells();
      closed := true;
      forall i | 0 <= i < cap ensures CellOk(buffer[..][i], i, cap, head, log) {
        assert CellOk(cells[i], i, cap, head, log);
      }
      woken, wakers := wakers, [];
    }

    /** Where a new receiver starts: at the requested slot's first indexed
        message, which is live and of that slot, or at the tail. */
    method StartAt(replayFrom: Option<nat>) returns (r: Result<nat, SubscribeError>)
      requires Valid()
      ensures replayFrom.None? ==> r == Ok(tail)
      ensures replayFrom.Some? && replayFrom.value in slots ==>
        r == Ok(slots[replayFrom.value].head) && Live(cap, head, log, replayFrom.value, r.value)
      ensures replayFrom.Some? && replayFrom.value !in slots ==>
        r == Err(if slots == map[] then NotInitialized else SlotNotAvailable(Least(slots.Keys)))
    {
      match replayFrom {
        case None => r := Ok(tail);
        case Some(slot) =>
          if slot in slots {
            r := Ok(slots[slot].head);
          } else if slots != map[] {
            r := Err(SlotNotAvailable(Least(slots.Keys)));
          } else {
            r := Err(NotInitialized);
          }
      }
    }
  }
}
