/** What one push does to the plugin channel, said without cells or loops. */
module PluginSpec {
  import opened Base
  import opened Ring

  datatype Notification = SlotKind | AccountKind | TransactionKind | EntryKind | BlockMetaKind

  datatype SlotStatus =
    | Processed | Rooted | Confirmed | FirstShredReceived | Completed | CreatedBank
    | Dead(error: seq<Byte>)

  /** What the channel looks at in an update: its kind, its slot and, of a slot
      update, the parent and the status. */
  datatype Notice =
    | AccountMsg(slot: nat)
    | SlotMsg(slot: nat, parent: Option<nat>, status: SlotStatus)
    | TransactionMsg(slot: nat)
    | EntryMsg(slot: nat)
    | BlockMetaMsg(slot: nat)
  {
    function Kind(): Notification {
      match this
      case AccountMsg(_) => AccountKind
      case SlotMsg(_, _, _) => SlotKind
      case TransactionMsg(_) => TransactionKind
      case EntryMsg(_) => EntryKind
      case BlockMetaMsg(_) => BlockMetaKind
    }
  }

  datatype Payload = Payload(kind: Notification, bytes: seq<Byte>)

  type Log = seq<Entry<Payload>>

  function ToEntry(m: Notice, data: seq<Byte>): Entry<Payload> {
    Entry(m.slot, |data|, Payload(m.Kind(), data))
  }

  datatype SlotInfo = SlotInfo(head: nat, parent: Option<nat>, confirmed: bool, finalized: bool)

  type Index = map<nat, SlotInfo>

  /** The channel as a value: its limits, its log and what of the log it keeps. */
  datatype Chan = Chan(cap: nat, slotsMax: nat, bytesMax: nat, head: nat, log: Log, index: Index)
  {
    function End(): nat { Tail(cap, log) }
  }

  ghost predicate Live(cap: nat, head: nat, log: Log, t: nat, h: nat)
    requires cap <= head
  {
    head <= h < Tail(cap, log) && log[h - cap].slot == t
  }

  ghost predicate IndexLive(cap: nat, head: nat, log: Log, index: Index)
    requires cap <= head
  {
    forall t :: t in index ==> Live(cap, head, log, t, index[t].head)
  }

  /** Every entry counts for as many bytes as its payload has. */
  ghost predicate Sized(log: Log) {
    forall i :: 0 <= i < |log| ==> log[i].size == |log[i].body.bytes|
  }

  /** How many payload bytes the log holds from its entry `from` on. */
  function PayloadSum(log: Log, from: nat): nat
    decreases |log| - from
  {
    if from >= |log| then 0 else |log[from].body.bytes| + PayloadSum(log, from + 1)
  }

  lemma {:induction false} BytesArePayload(cap: nat, log: Log, p: nat)
    requires cap <= p <= Tail(cap, log) && Sized(log)
    ensures Bytes(cap, log, p) == PayloadSum(log, p - cap)
    decreases Tail(cap, log) - p
  {
    if p < Tail(cap, log) { BytesArePayload(cap, log, p + 1); }
  }

  /** The ring invariant, in terms of the log. */
  ghost predicate ChanOk(c: Chan) {
    && c.cap >= 1
    && c.cap <= c.head <= c.End()
    && |c.log| <= c.head
    && |c.index| <= c.slotsMax
    && Sized(c.log)
    && Bytes(c.cap, c.log, c.head) <= c.bytesMax
    && IndexLive(c.cap, c.head, c.log, c.index)
  }

  function Touch(info: SlotInfo, m: Notice): SlotInfo {
    match m
    case SlotMsg(_, parent, status) =>
      SlotInfo(info.head, if parent.Some? then parent else info.parent,
               info.confirmed || status.Confirmed?, info.finalized || status.Rooted?)
    case _ => info
  }

  /** The index with the slot of `m` entered, at `pos` if it is new. */
  function Enter(index: Index, m: Notice, pos: nat): Index {
    var info := if m.slot in index then index[m.slot] else SlotInfo(pos, None, false, false);
    index[m.slot := Touch(info, m)]
  }

  /** Slot `t` is above every slot of the positions [lo, hi). */
  ghost predicate Above(cap: nat, log: Log, lo: nat, hi: nat, t: nat)
    requires cap <= lo && hi <= Tail(cap, log)
  {
    forall p :: lo <= p < hi ==> SlotAt(cap, log, p) < t
  }

  /** Losing the positions [lo, hi) costs the index every slot up to the largest slot lost. */
  ghost function Survivors(index: Index, cap: nat, log: Log, lo: nat, hi: nat): Index
    requires cap <= lo && hi <= Tail(cap, log)
  {
    map t | t in index && Above(cap, log, lo, hi, t) :: index[t]
  }

  /** Where `head` stands once the slot limit is met, if it can be met. */
  ghost function SlotHead(c: Chan, index: Index): (h: Option<nat>)
    requires c.cap <= c.head <= c.End()
    requires forall t :: t in index ==> c.head <= index[t].head <= c.End()
    ensures h.Some? ==> c.head <= h.value <= c.End()
  {
    if |index| <= c.slotsMax then Some(c.head)
    else
      var s := Least(index.Keys);
      var q := RunEnd(c.cap, c.log, index[s].head, s);
      if q < c.End() then Some(q) else None
  }

  function Max(a: nat, b: nat): nat { if a < b then b else a }

  /** One push; `None` is a panic. */
  ghost function AfterPush(c: Chan, m: Notice, data: seq<Byte>): (r: Option<Chan>)
    requires ChanOk(c)
  {
    var index := Enter(c.index, m, c.End());
    var h := SlotHead(c, index);
    if h.None? || |data| > c.bytesMax then None
    else
      var fit := FitFrom(c.cap, c.log, h.value, c.bytesMax - |data|);
      var head := Max(fit, |c.log| + 1);
      Some(c.(head := head, log := c.log + [ToEntry(m, data)],
              index := Survivors(index, c.cap, c.log, c.head, head)))
  }

  // ---------------------------------------------------------------------------
  // The invariant
  // ---------------------------------------------------------------------------

  /** A push that does not panic keeps the ring invariant, appends exactly the
      new message to the log, and only ever moves `head` forward. */
  lemma PushKeepsChannel(c: Chan, m: Notice, data: seq<Byte>)
    requires ChanOk(c) && AfterPush(c, m, data).Some?
    ensures var c' := AfterPush(c, m, data).value;
      && ChanOk(c')
      && c'.log == c.log + [ToEntry(m, data)]
      && c.head <= c'.head
      && c'.head < c'.End()
      && (c'.cap, c'.slotsMax, c'.bytesMax) == (c.cap, c.slotsMax, c.bytesMax)
  {
    var c' := AfterPush(c, m, data).value;
    var index := Enter(c.index, m, c.End());
    BytesAppend(c.cap, c.log, ToEntry(m, data), c'.head);
    var fit := FitFrom(c.cap, c.log, SlotHead(c, index).value, c.bytesMax - |data|);
    BytesShrink(c.cap, c.log, fit, c'.head);
    SurvivorsLive(c, index, c'.head, ToEntry(m, data));
    SurvivorsFit(c, m, c'.head);
  }

  lemma SurvivorsLive(c: Chan, index: Index, head: nat, e: Entry<Payload>)
    requires c.cap <= c.head <= head <= c.End()
    requires forall t :: t in index ==>
      Live(c.cap, c.head, c.log, t, index[t].head) || (index[t].head == c.End() && t == e.slot)
    ensures IndexLive(c.cap, head, c.log + [e], Survivors(index, c.cap, c.log, c.head, head))
  {
    var kept := Survivors(index, c.cap, c.log, c.head, head);
    forall t | t in kept ensures Live(c.cap, head, c.log + [e], t, kept[t].head) {
      assert c.head <= index[t].head < head ==> SlotAt(c.cap, c.log, index[t].head) == t;
    }
  }

  lemma SurvivorsFit(c: Chan, m: Notice, head: nat)
    requires ChanOk(c)
    requires var index := Enter(c.index, m, c.End());
      SlotHead(c, index).Some? && SlotHead(c, index).value <= head <= c.End()
    ensures |Survivors(Enter(c.index, m, c.End()), c.cap, c.log, c.head, head)| <= c.slotsMax
  {
    var index := Enter(c.index, m, c.End());
    EnterSize(c.index, m, c.End());
    if |index| > c.slotsMax { EnteredHead(c, m, Least(index.Keys)); }
    OneDropped(c, index, head);
  }

  /** An index with at most one slot too many fits again once its least slot is dropped. */
  lemma OneDropped(c: Chan, index: Index, head: nat)
    requires c.cap <= c.head <= c.End() && |index| <= c.slotsMax + 1
    requires forall t :: t in index ==> c.head <= index[t].head <= c.End()
    requires |index| > c.slotsMax ==>
      var s := Least(index.Keys); index[s].head < c.End() ==> SlotAt(c.cap, c.log, index[s].head) == s
    requires SlotHead(c, index).Some? && SlotHead(c, index).value <= head <= c.End()
    ensures |Survivors(index, c.cap, c.log, c.head, head)| <= c.slotsMax
  {
    var kept := Survivors(index, c.cap, c.log, c.head, head);
    SubsetSize(kept.Keys, index.Keys);
    if |index| > c.slotsMax {
      var s := Least(index.Keys);
      assert SlotHead(c, index).value == RunEnd(c.cap, c.log, index[s].head, s);
      LeastGone(c, index, s, head);
      SubsetSize(kept.Keys, index.Keys - {s});
    }
  }

  /** An entered slot is at a message of its own, or at the tail. */
  lemma EnteredHead(c: Chan, m: Notice, t: nat)
    requires ChanOk(c) && t in Enter(c.index, m, c.End())
    ensures var h := Enter(c.index, m, c.End())[t].head;
      c.head <= h <= c.End() && (h < c.End() ==> SlotAt(c.cap, c.log, h) == t)
  {
    if t in c.index { assert Live(c.cap, c.head, c.log, t, c.index[t].head); }
  }

  /** A slot whose first message is evicted does not survive. */
  lemma LeastGone(c: Chan, index: Index, s: nat, head: nat)
    requires c.cap <= c.head <= head <= c.End() && s in index && c.head <= index[s].head < head
    requires SlotAt(c.cap, c.log, index[s].head) == s
    ensures s !in Survivors(index, c.cap, c.log, c.head, head)
  {
  }

  lemma EnterSize(index: Index, m: Notice, pos: nat)
    ensures Enter(index, m, pos).Keys == index.Keys + {m.slot}
    ensures |Enter(index, m, pos)| == |index| + (if m.slot in index then 0 else 1)
  {
    assert Enter(index, m, pos).Keys == index.Keys + {m.slot};
    if m.slot in index {
      assert index.Keys + {m.slot} == index.Keys;
    }
  }

  // ---------------------------------------------------------------------------
  // When a push panics
  // ---------------------------------------------------------------------------

  /** The index is full of other slots, and either the new slot is below them
      all or the ring holds, from the first message of the least slot on,
      messages of that slot only. */
  ghost predicate Drains(c: Chan, slot: nat)
    requires ChanOk(c)
  {
    && slot !in c.index
    && |c.index| == c.slotsMax
    && ((forall t :: t in c.index ==> slot < t)
        || (c.index != map[]
            && var least := Least(c.index.Keys);
               forall p :: c.index[least].head <= p < c.End() ==> SlotAt(c.cap, c.log, p) == least))
  }

  /** Exactly when an assert or panic of `push_msg` fires. */
  lemma PushPanicsIff(c: Chan, m: Notice, data: seq<Byte>)
    requires ChanOk(c)
    ensures AfterPush(c, m, data).None? <==> |data| > c.bytesMax || Drains(c, m.slot)
  {
    var index := Enter(c.index, m, c.End());
    EnterSize(c.index, m, c.End());
    if |index| > c.slotsMax {
      assert m.slot !in c.index && |c.index| == c.slotsMax;
      var s := Least(index.Keys);
      if s == m.slot {
        assert forall t :: t in c.index ==> t in index.Keys && s <= t && t != s;
      } else {
        assert s in c.index;
        assert forall t :: t in c.index ==> t in index.Keys;
        assert s == Least(c.index.Keys);
        assert m.slot > s;
      }
    }
  }

  /** A caller that keeps payloads within the byte limit, and never lets the
      slots above the incoming one, or above the newest stored one, fill the
      index (the incoming slot counted), never meets a panic. */
  lemma PushIsSafe(c: Chan, m: Notice, data: seq<Byte>)
    requires ChanOk(c)
    requires |data| <= c.bytesMax
    requires FewAbove(c.index.Keys, m.slot, c.slotsMax)
    requires c.head < c.End() ==>
      FewAbove(c.index.Keys + {m.slot}, SlotAt(c.cap, c.log, c.End() - 1), c.slotsMax)
    ensures AfterPush(c, m, data).Some?
  {
    PushPanicsIff(c, m, data);
    if Drains(c, m.slot) { DrainsCrowded(c, m.slot); }
  }

  lemma DrainsCrowded(c: Chan, slot: nat)
    requires ChanOk(c) && Drains(c, slot)
    ensures !FewAbove(c.index.Keys, slot, c.slotsMax)
      || (c.head < c.End()
          && !FewAbove(c.index.Keys + {slot}, SlotAt(c.cap, c.log, c.End() - 1), c.slotsMax))
  {
    var keys := c.index.Keys;
    if forall t :: t in c.index ==> slot < t {
      assert GreaterIn(keys, slot) == keys;
    } else {
      var s := Least(keys);
      assert Live(c.cap, c.head, c.log, s, c.index[s].head);
      assert SlotAt(c.cap, c.log, c.End() - 1) == s;
      assert GreaterIn(keys + {slot}, s) == keys + {slot} - {s};
      assert |keys + {slot}| == |keys| + 1;
    }
  }

  /** Counting only the slots indexed before the push is not enough: with room
      for two slots, slots 10, 5 and then 12 drain the ring. */
  lemma UncountedIncomingSlotPanics()
    ensures exists c: Chan, m: Notice ::
      && ChanOk(c)
      && FewAbove(c.index.Keys, m.slot, c.slotsMax)
      && c.head < c.End() && FewAbove(c.index.Keys, SlotAt(c.cap, c.log, c.End() - 1), c.slotsMax)
      && AfterPush(c, m, []).None?
  {
    var c, m := Crowded(), AccountMsg(12);
    CrowdedOk(c);
    assert GreaterIn(c.index.Keys, 12) == {};
    assert GreaterIn(c.index.Keys, 5) == {10};
    PushPanicsIff(c, m, []);
  }

  /** Room for two slots, and a message each of slots 10 and 5. */
  function Crowded(): Chan {
    var e10, e5 := Entry(10, 0, Payload(AccountKind, [])), Entry(5, 0, Payload(AccountKind, []));
    Chan(4, 2, 100, 4, [e10, e5], map[10 := SlotInfo(4, None, false, false), 5 := SlotInfo(5, None, false, false)])
  }

  lemma CrowdedOk(c: Chan)
    requires c == Crowded()
    ensures c.index.Keys == {10, 5} && |c.index| == 2
    ensures ChanOk(c) && Drains(c, 12)
  {
    assert c.index.Keys == {10, 5};
    assert |c.index| == |c.index.Keys| == 2;
    assert Bytes(4, c.log, 6) == 0 && Bytes(4, c.log, 5) == 0 && Bytes(4, c.log, 4) == 0;
    assert Least(c.index.Keys) == 5;
  }
}
