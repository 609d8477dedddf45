/** The richat sender: feeds the processed ring with every message and releases
    whole slots to the confirmed and finalized rings. */
module RichatSender {
  import opened Base
  import opened Ring
  import opened RichatRing
  import opened BlockBuilder
  import opened RichatHub

  function Bodies(log: seq<Entry<Parsed>>): (ms: History)
    ensures |ms| == |log| && forall i :: 0 <= i < |log| ==> ms[i] == log[i].body
  {
    seq(|log|, i requires 0 <= i < |log| => log[i].body)
  }

  function Msgs(log: seq<Sent>): (ms: History)
    ensures |ms| == |log| && forall i :: 0 <= i < |log| ==> ms[i] == log[i].msg
  {
    seq(|log|, i requires 0 <= i < |log| => log[i].msg)
  }

  function Given(item: Option<Parsed>): History {
    if item.Some? then [item.value] else []
  }

  /** The messages that are still there. */
  function Present(stored: seq<Option<Parsed>>): History {
    if stored == [] then []
    else Present(stored[..|stored| - 1]) + Given(stored[|stored| - 1])
  }

  lemma PresentStep(stored: seq<Option<Parsed>>, i: nat)
    requires i < |stored|
    ensures Present(stored[..i + 1]) == Present(stored[..i]) + Given(stored[i])
  {
    assert stored[..i + 1][..i] == stored[..i];
  }

  lemma {:induction false} ReplayPresent(stored: seq<Option<Parsed>>, places: seq<nat>, at: nat)
    requires |stored| == |places|
    ensures Msgs(Replay(stored, places, at)) == Present(stored)
    decreases |stored|
  {
    if stored != [] {
      var n := |stored| - 1;
      ReplayPresent(stored[..n], places[..n], at);
    }
  }

  /** The ring entries of messages of one slot. */
  function EntriesOf(size: Parsed -> nat, slot: nat, ms: History): (es: seq<Entry<Parsed>>)
    ensures |es| == |ms| && forall i :: 0 <= i < |ms| ==> es[i] == Entry(slot, size(ms[i]), ms[i])
  {
    seq(|ms|, i requires 0 <= i < |ms| => Entry(slot, size(ms[i]), ms[i]))
  }

  /** Every entry counts the size of its message. */
  ghost predicate Weighed(log: seq<Entry<Parsed>>, size: Parsed -> nat) {
    forall i :: 0 <= i < |log| ==> log[i].size == size(log[i].body)
  }

  /** The sizes of the messages from `i` on. */
  ghost function WeightFrom(size: Parsed -> nat, ms: History, i: nat): nat
    decreases |ms| - i
  {
    if i >= |ms| then 0 else size(ms[i]) + WeightFrom(size, ms, i + 1)
  }

  lemma {:induction false} BytesAreWeight(cap: nat, log: seq<Entry<Parsed>>, p: nat, size: Parsed -> nat)
    requires cap <= p <= Tail(cap, log) && Weighed(log, size)
    ensures Bytes(cap, log, p) == WeightFrom(size, Bodies(log), p - cap)
    decreases Tail(cap, log) - p
  {
    if p < Tail(cap, log) { BytesAreWeight(cap, log, p + 1, size); }
  }

  /** The ring once it has taken the messages `ms` of one slot. */
  ghost function Took(v: State<Parsed>, size: Parsed -> nat, slot: nat, ms: History): (w: State<Parsed>)
    requires StateOk(v)
    ensures StateOk(w) && w.cap == v.cap && Bodies(w.log) == Bodies(v.log) + ms
    ensures Weighed(v.log, size) ==> Weighed(w.log, size)
  {
    AppendedAll(v, EntriesOf(size, slot, ms))
  }

  lemma TookNothing(v: State<Parsed>, size: Parsed -> nat, slot: nat)
    requires StateOk(v)
    ensures Took(v, size, slot, []) == v
  {
  }

  lemma AppendedConcat(v: State<Parsed>, a: seq<Entry<Parsed>>, b: seq<Entry<Parsed>>, both: seq<Entry<Parsed>>)
    requires StateOk(v) && both == a + b
    ensures AppendedAll(AppendedAll(v, a), b) == AppendedAll(v, both)
  {
    FoldConcat(Appended, v, a, b);
  }

  lemma TookConcat(v: State<Parsed>, size: Parsed -> nat, slot: nat, a: History, b: History)
    requires StateOk(v)
    ensures Took(Took(v, size, slot, a), size, slot, b) == Took(v, size, slot, a + b)
  {
    AppendedConcat(v, EntriesOf(size, slot, a), EntriesOf(size, slot, b), EntriesOf(size, slot, a + b));
  }

  /** A ring takes the messages and, if it is then cleared, clearing does not panic. */
  ghost predicate Takes(v: State<Parsed>, c: Setup, slot: nat, ms: History, clears: bool)
    requires StateOk(v)
  {
    clears ==> Cleared(Took(v, c.size, slot, ms), c.bytesMax, c.slotsMax).Some?
  }

  /** What an update releases to the ring of `level` besides itself. */
  ghost function Rest(stored: seq<Option<Parsed>>, m: Parsed, level: Commitment): History
    requires m.PSlot?
  {
    if m.commitment == level then Present(stored) else []
  }

  /** The three rings, and what a sender knows to be configured. */
  datatype Rings = Rings(processed: State<Parsed>, confirmed: State<Parsed>, finalized: State<Parsed>)

  datatype Setup = Setup(grpc: bool, slotsMax: nat, bytesMax: nat, size: Parsed -> nat)

  ghost predicate RingsOk(r: Rings) {
    StateOk(r.processed) && StateOk(r.confirmed) && StateOk(r.finalized)
  }

  /** `m` releases its slot to the ring of `level`. */
  predicate Releases(m: Parsed, grpc: bool, level: Commitment) {
    grpc && m.PSlot? && m.commitment == level
  }

  /** The gates do not panic when `m` arrives, whose slot then stores `stored`. */
  ghost predicate GatesFit(r: Rings, c: Setup, m: Parsed, stored: seq<Option<Parsed>>)
    requires RingsOk(r)
  {
    && Takes(r.confirmed, c, m.slot, Gain(stored, m, c.grpc, Confirmed), Releases(m, c.grpc, Confirmed))
    && Takes(r.finalized, c, m.slot, Gain(stored, m, c.grpc, Finalized), Releases(m, c.grpc, Finalized))
  }

  /** No ring panics when `m`, whose slot then stores `stored`, makes the sender publish `out`. */
  ghost predicate PushFits(r: Rings, c: Setup, m: Parsed, stored: seq<Option<Parsed>>, out: History)
    requires RingsOk(r)
  {
    GatesFit(r, c, m, stored) && Takes(r.processed, c, m.slot, out, true)
  }

  /** In every ring that `m` makes the sender clear, fewer than the allowed number
      of slots are newer than the slot of `m`. */
  ghost predicate FewNewer(r: Rings, c: Setup, m: Parsed) {
    && FewAbove(r.processed.slots.Keys, m.slot, c.slotsMax)
    && (Releases(m, c.grpc, Confirmed) ==> FewAbove(r.confirmed.slots.Keys, m.slot, c.slotsMax))
    && (Releases(m, c.grpc, Finalized) ==> FewAbove(r.finalized.slots.Keys, m.slot, c.slotsMax))
  }

  lemma FewNewerTakes(v: State<Parsed>, c: Setup, slot: nat, ms: History)
    requires StateOk(v) && ms != [] && FewAbove(v.slots.Keys, slot, c.slotsMax)
    ensures Takes(v, c, slot, ms, true)
  {
    FewAboveClears(v, EntriesOf(c.size, slot, ms), slot, c.bytesMax, c.slotsMax);
  }

  lemma FewNewerFits(r: Rings, c: Setup, m: Parsed, stored: seq<Option<Parsed>>, out: History)
    requires RingsOk(r) && FewNewer(r, c, m) && out != []
    ensures PushFits(r, c, m, stored, out)
  {
    FewNewerTakes(r.processed, c, m.slot, out);
    if Releases(m, c.grpc, Confirmed) {
      FewNewerTakes(r.confirmed, c, m.slot, Gain(stored, m, c.grpc, Confirmed));
    }
    if Releases(m, c.grpc, Finalized) {
      FewNewerTakes(r.finalized, c, m.slot, Gain(stored, m, c.grpc, Finalized));
    }
  }

  function Out(m: Parsed, block: Option<Parsed>): History {
    [m] + if block.Some? then [block.value] else []
  }

  /** Every slot's info is that of its history. */
  ghost predicate InfosMatch(slots: map<nat, Info>, tracks: map<nat, Track>) {
    slots.Keys == tracks.Keys && forall s :: s in slots ==> slots[s].Of(tracks[s].history)
  }

  lemma LaterMatch(slots: map<nat, Info>, tracks: map<nat, Track>, slot: nat)
    requires InfosMatch(slots, tracks)
    ensures InfosMatch(Later(slots, slot), Later(tracks, slot))
  {
  }

  lemma InfosUpdate(slots: map<nat, Info>, tracks: map<nat, Track>, slot: nat, info: Info, t: Track)
    requires InfosMatch(slots, tracks) && info.Of(t.history)
    ensures InfosMatch(slots[slot := info], tracks[slot := t])
  {
  }

  /** A push forgets the slots up to a finalized one, adds its own slot otherwise,
      and leaves the info of all others alone. */
  ghost predicate Remembers(was: map<nat, Info>, now: map<nat, Info>, m: Parsed, grpc: bool) {
    var gone := grpc && m.PSlot? && m.commitment == Finalized;
    && (forall s :: s in now <==> (s in was || s == m.slot) && (gone ==> s > m.slot))
    && (forall s :: s in now && s != m.slot ==> now[s] == was[s])
  }

  lemma RemembersOthers(was: map<nat, Info>, now: map<nat, Info>, m: Parsed, grpc: bool)
    requires m.slot in now && now == was[m.slot := now[m.slot]]
    ensures Remembers(was, if Releases(m, grpc, Finalized) then Later(now, m.slot) else now, m, grpc)
  {
  }

  /** One slot's info absorbs a message; a slot not met before starts afresh. */
  method AbsorbInfo(slot: nat, known: Option<Info>, ghost h: History, m: Parsed)
    returns (info: Info, block: Option<Parsed>)
    requires if known.Some? then known.value.Of(h) else h == []
    requires !m.PBlock?
    ensures info.Of(h + [m]) && info.messages == Stored(h + [m])
    ensures Out(m, block) == Output(h, m)
  {
    var o: SlotInfo;
    if known.Some? {
      o := new SlotInfo.Resume(known.value, h);
    } else {
      o := new SlotInfo(slot);
    }
    block := o.GetBlockMessage(m);
    info := o.View();
  }

  class Sender {
    const grpc: bool
    const slotsMax: nat
    const bytesMax: nat
    const size: Parsed -> nat
    const processed: SenderShared<Parsed>
    const confirmed: SenderShared<Parsed>
    const finalized: SenderShared<Parsed>
    var slots: map<nat, Info>
    ghost var hub: Hub

    ghost predicate RingsApart() {
      && processed != confirmed && confirmed != finalized && finalized != processed
      && processed.buffer != confirmed.buffer && confirmed.buffer != finalized.buffer
      && finalized.buffer != processed.buffer
    }

    ghost predicate RingsMatch(p: History, c: History, f: History)
      reads processed, processed.buffer, confirmed, confirmed.buffer, finalized, finalized.buffer
    {
      && RingsApart()
      && processed.Valid() && Bodies(processed.log) == p && Weighed(processed.log, size)
      && confirmed.Valid() && Bodies(confirmed.log) == c && Weighed(confirmed.log, size)
      && finalized.Valid() && Bodies(finalized.log) == f && Weighed(finalized.log, size)
    }

    ghost predicate Valid()
      reads this
      reads processed, processed.buffer, confirmed, confirmed.buffer, finalized, finalized.buffer
    {
      && HubOk(hub) && InfosMatch(slots, hub.slots)
      && RingsMatch(hub.processed, Msgs(hub.confirmed), Msgs(hub.finalized))
    }

    constructor (maxMessages: nat, maxSlots: nat, maxBytes: nat, g: bool, f: Parsed -> nat)
      ensures Valid() && hub == EmptyHub && grpc == g
    {
      grpc, slotsMax, bytesMax, size := g, maxSlots, maxBytes, f;
      processed := new SenderShared<Parsed>(maxMessages);
      confirmed := new SenderShared<Parsed>(maxMessages);
      finalized := new SenderShared<Parsed>(maxMessages);
      slots, hub := map[], EmptyHub;
    }

    ghost function Config(): Setup {
      Setup(grpc, slotsMax, bytesMax, size)
    }

    ghost function Now(): Rings
      reads processed, confirmed, finalized
    {
      Rings(processed.Abs(), confirmed.Abs(), finalized.Abs())
    }

    /** The sizes of the messages a ring holds. */
    ghost function LiveWeight(ring: SenderShared<Parsed>): nat
      reads ring
      requires ring.cap <= ring.head
    {
      WeightFrom(size, Bodies(ring.log), ring.head - ring.cap)
    }

    /** Not too many slots, and the sizes of the messages held within the limit. */
    ghost predicate Limited(ring: SenderShared<Parsed>)
      reads ring
    {
      ring.cap <= ring.head && |ring.slots| <= slotsMax && LiveWeight(ring) <= bytesMax
    }

    method PushTo(ring: SenderShared<Parsed>, slot: nat, m: Parsed)
      requires ring.Valid()
      modifies ring, ring.buffer
      ensures ring.Valid() && StateOk(old(ring.Abs()))
      ensures ring.log == old(ring.log) + [Entry(slot, size(m), m)]
      ensures ring.Abs() == Took(old(ring.Abs()), size, slot, [m])
    {
      ghost var es := EntriesOf(size, slot, [m]);
      ring.Push(Entry(slot, size(m), m));
      FoldMore(Appended, old(ring.Abs()), [], es[0]);
      assert es == [] + [es[0]];
    }

    /** Everything the slot still stores, in order. */
    method Release(ring: SenderShared<Parsed>, slot: nat, stored: seq<Option<Parsed>>)
      requires ring.Valid()
      modifies ring, ring.buffer
      ensures ring.Valid() && StateOk(old(ring.Abs()))
      ensures ring.Abs() == Took(old(ring.Abs()), size, slot, Present(stored))
    {
      ghost var v := ring.Abs();
      ghost var done: History := [];
      var i := 0;
      TookNothing(v, size, slot);
      while i < |stored|
        invariant 0 <= i <= |stored| && ring.Valid() && StateOk(v)
        invariant done == Present(stored[..i]) && ring.Abs() == Took(v, size, slot, done)
      {
        PresentStep(stored, i);
        PushNext(ring, slot, stored[i], v, done);
        done := done + Given(stored[i]);
        i := i + 1;
      }
      assert stored[..i] == stored;
    }

    method PushNext(ring: SenderShared<Parsed>, slot: nat, item: Option<Parsed>, ghost v: State<Parsed>,
        ghost done: History)
      requires ring.Valid() && StateOk(v) && ring.Abs() == Took(v, size, slot, done)
      modifies ring, ring.buffer
      ensures ring.Valid() && ring.Abs() == Took(v, size, slot, done + Given(item))
    {
      if item.Some? {
        TookConcat(v, size, slot, done, [item.value]);
        PushTo(ring, slot, item.value);
      } else {
        assert done + [] == done;
      }
    }

    lemma BytesCounted(ring: SenderShared<Parsed>)
      requires ring.Valid() && Weighed(ring.log, size)
      ensures LiveWeight(ring) == ring.bytesTotal
    {
      BytesAreWeight(ring.cap, ring.log, ring.head, size);
    }

    /** Both limits met, by the sizes of the messages held. */
    method Clear(ring: SenderShared<Parsed>) returns (ok: bool)
      requires ring.Valid() && Weighed(ring.log, size)
      modifies ring, ring.buffer
      ensures ring.Valid() && ring.log == old(ring.log)
      ensures StateOk(old(ring.Abs())) && ok == Cleared(old(ring.Abs()), bytesMax, slotsMax).Some?
      ensures ok ==> Limited(ring)
      ensures !ok ==> ring.head == ring.tail
    {
      ok := ring.TryClear(bytesMax, slotsMax);
      BytesCounted(ring);
    }

    /** Release the slot to one ring and clear it. */
    method ReleaseAndClear(ring: SenderShared<Parsed>, slot: nat, stored: seq<Option<Parsed>>) returns (ok: bool)
      requires ring.Valid() && Weighed(ring.log, size)
      modifies ring, ring.buffer
      ensures ring.Valid() && StateOk(old(ring.Abs()))
      ensures ring.log == Took(old(ring.Abs()), size, slot, Present(stored)).log
      ensures ok == Takes(old(ring.Abs()), Config(), slot, Present(stored), true)
      ensures ok ==> Limited(ring)
      ensures !ok ==> ring.head == ring.tail
    {
      Release(ring, slot, stored);
      ok := Clear(ring);
    }

    method GatePushes(m: Parsed)
      requires RingsApart() && confirmed.Valid() && finalized.Valid()
      modifies confirmed, confirmed.buffer, finalized, finalized.buffer
      ensures confirmed.Valid() && StateOk(old(confirmed.Abs()))
      ensures finalized.Valid() && StateOk(old(finalized.Abs()))
      ensures confirmed.Abs() == Took(old(confirmed.Abs()), size, m.slot, [m])
      ensures finalized.Abs() == Took(old(finalized.Abs()), size, m.slot, [m])
    {
      PushTo(confirmed, m.slot, m);
      PushTo(finalized, m.slot, m);
    }

    method GateReleases(m: Parsed, stored: seq<Option<Parsed>>) returns (ok: bool)
      requires RingsApart() && confirmed.Valid() && finalized.Valid() && m.PSlot?
      requires Weighed(confirmed.log, size) && Weighed(finalized.log, size)
      modifies confirmed, confirmed.buffer, finalized, finalized.buffer
      ensures confirmed.Valid() && StateOk(old(confirmed.Abs()))
      ensures finalized.Valid() && StateOk(old(finalized.Abs()))
      ensures confirmed.log == Took(old(confirmed.Abs()), size, m.slot, Rest(stored, m, Confirmed)).log
      ensures finalized.log == Took(old(finalized.Abs()), size, m.slot, Rest(stored, m, Finalized)).log
      ensures ok <==>
        && Takes(old(confirmed.Abs()), Config(), m.slot, Rest(stored, m, Confirmed), m.commitment == Confirmed)
        && Takes(old(finalized.Abs()), Config(), m.slot, Rest(stored, m, Finalized), m.commitment == Finalized)
      ensures ok && m.commitment == Confirmed ==> Limited(confirmed)
      ensures ok && m.commitment == Finalized ==> Limited(finalized)
      ensures !ok ==> confirmed.head == confirmed.tail || finalized.head == finalized.tail
    {
      TookNothing(confirmed.Abs(), size, m.slot);
      TookNothing(finalized.Abs(), size, m.slot);
      ok := true;
      if m.commitment.Confirmed? {
        ok := ReleaseAndClear(confirmed, m.slot, stored);
      } else if m.commitment.Finalized? {
        ok := ReleaseAndClear(finalized, m.slot, stored);
      }
    }

    /** A slot update goes to both rings; an update to a ring's own commitment
        releases the slot there and then clears that ring. */
    method Gate(m: Parsed, stored: seq<Option<Parsed>>) returns (ok: bool)
      requires RingsApart() && confirmed.Valid() && finalized.Valid() && m.PSlot?
      requires Weighed(confirmed.log, size) && Weighed(finalized.log, size)
      modifies confirmed, confirmed.buffer, finalized, finalized.buffer
      ensures confirmed.Valid() && StateOk(old(confirmed.Abs()))
      ensures finalized.Valid() && StateOk(old(finalized.Abs()))
      ensures Weighed(confirmed.log, size) && Weighed(finalized.log, size)
      ensures Bodies(confirmed.log) == old(Bodies(confirmed.log)) + Gain(stored, m, true, Confirmed)
      ensures Bodies(finalized.log) == old(Bodies(finalized.log)) + Gain(stored, m, true, Finalized)
      ensures ok <==>
        && Takes(old(confirmed.Abs()), Config(), m.slot, Gain(stored, m, true, Confirmed), m.commitment == Confirmed)
        && Takes(old(finalized.Abs()), Config(), m.slot, Gain(stored, m, true, Finalized), m.commitment == Finalized)
      ensures ok && m.commitment == Confirmed ==> Limited(confirmed)
      ensures ok && m.commitment == Finalized ==> Limited(finalized)
      ensures !ok ==> confirmed.head == confirmed.tail || finalized.head == finalized.tail
    {
      TookConcat(confirmed.Abs(), size, m.slot, [m], Rest(stored, m, Confirmed));
      TookConcat(finalized.Abs(), size, m.slot, [m], Rest(stored, m, Finalized));
      GatePushes(m);
      ok := GateReleases(m, stored);
    }

    method FeedOut(m: Parsed, block: Option<Parsed>)
      requires processed.Valid()
      modifies processed, processed.buffer
      ensures processed.Valid() && StateOk(old(processed.Abs()))
      ensures processed.Abs() == Took(old(processed.Abs()), size, m.slot, Out(m, block))
    {
      ghost var v := processed.Abs();
      PushTo(processed, m.slot, m);
      if block.Some? {
        PushTo(processed, m.slot, block.value);
        TookConcat(v, size, m.slot, [m], [block.value]);
      } else {
        assert Out(m, block) == [m];
      }
    }

    /** Every message, and the block it completes, goes to the processed ring. */
    method Feed(m: Parsed, block: Option<Parsed>) returns (ok: bool)
      requires processed.Valid() && Weighed(processed.log, size)
      modifies processed, processed.buffer
      ensures processed.Valid() && StateOk(old(processed.Abs()))
      ensures Bodies(processed.log) == old(Bodies(processed.log)) + Out(m, block)
      ensures Weighed(processed.log, size)
      ensures ok <==> Takes(old(processed.Abs()), Config(), m.slot, Out(m, block), true)
      ensures ok ==> Limited(processed)
      ensures !ok ==> processed.head == processed.tail
    {
      FeedOut(m, block);
      ok := Clear(processed);
    }

    /** Forget every slot up to a finalized one. */
    method DropUpto(slot: nat)
      modifies this`slots
      ensures forall s :: s in slots <==> s in old(slots) && s > slot
      ensures forall s :: s in slots ==> slots[s] == old(slots)[s]
      ensures slots == Later(old(slots), slot)
    {
      while true
        invariant forall s :: s in slots ==> s in old(slots) && slots[s] == old(slots)[s]
        invariant forall s :: s in old(slots) && s > slot ==> s in slots
        decreases |slots|
      {
        if slots == map[] { break; }
        var least := Least(slots.Keys);
        if least > slot { break; }
        ghost var before := slots;
        slots := slots - {least};
        assert slots.Keys == before.Keys - {least};
      }
    }

    /** The slot's info, made if need be, absorbs the message. */
    method Absorbed(m: Parsed) returns (stored: seq<Option<Parsed>>, block: Option<Parsed>)
      requires InfosMatch(slots, hub.slots) && !m.PBlock?
      modifies this`slots
      ensures InfosMatch(slots, hub.slots[m.slot := RichatHub.Absorb(TrackOf(hub, m.slot), m, |hub.processed|)])
      ensures m.slot in slots && slots == old(slots)[m.slot := slots[m.slot]]
      ensures stored == Stored(TrackOf(hub, m.slot).history + [m])
      ensures Out(m, block) == Output(TrackOf(hub, m.slot).history, m)
    {
      ghost var t := TrackOf(hub, m.slot);
      var known := if m.slot in slots then Some(slots[m.slot]) else None;
      var info;
      info, block := AbsorbInfo(m.slot, known, t.history, m);
      InfosUpdate(slots, hub.slots, m.slot, info, RichatHub.Absorb(t, m, |hub.processed|));
      slots := slots[m.slot := info];
      stored := info.messages;
    }

    /** What the rings gain: the gates first, then the processed ring. */
    method Publish(m: Parsed, stored: seq<Option<Parsed>>, block: Option<Parsed>,
                   ghost p: History, ghost c: History, ghost f: History)
      returns (ok: bool)
      requires RingsMatch(p, c, f)
      modifies processed, processed.buffer, confirmed, confirmed.buffer, finalized, finalized.buffer
      modifies this`slots
      ensures RingsOk(old(Now())) && ok == PushFits(old(Now()), Config(), m, stored, Out(m, block))
      ensures ok ==> RingsMatch(p + Out(m, block),
                                c + Gain(stored, m, grpc, Confirmed), f + Gain(stored, m, grpc, Finalized))
      ensures ok ==> slots == if Releases(m, grpc, Finalized) then Later(old(slots), m.slot) else old(slots)
      ensures ok ==> Limited(processed)
      ensures ok && Releases(m, grpc, Confirmed) ==> Limited(confirmed)
      ensures ok && Releases(m, grpc, Finalized) ==> Limited(finalized)
      ensures !ok ==> Drained()
    {
      ok := PublishGates(m, stored, c, f);
      if !ok { return; }
      ok := Feed(m, block);
    }

    method PublishGates(m: Parsed, stored: seq<Option<Parsed>>, ghost c: History, ghost f: History)
      returns (ok: bool)
      requires RingsMatch(Bodies(processed.log), c, f)
      modifies confirmed, confirmed.buffer, finalized, finalized.buffer, this`slots
      ensures RingsOk(old(Now())) && ok == GatesFit(old(Now()), Config(), m, stored)
      ensures confirmed.Valid() && Bodies(confirmed.log) == c + Gain(stored, m, grpc, Confirmed)
      ensures finalized.Valid() && Bodies(finalized.log) == f + Gain(stored, m, grpc, Finalized)
      ensures Weighed(confirmed.log, size) && Weighed(finalized.log, size)
      ensures ok ==> slots == if Releases(m, grpc, Finalized) then Later(old(slots), m.slot) else old(slots)
      ensures ok && Releases(m, grpc, Confirmed) ==> Limited(confirmed)
      ensures ok && Releases(m, grpc, Finalized) ==> Limited(finalized)
      ensures !ok ==> Drained()
    {
      ok := true;
      if grpc && m.PSlot? {
        ok := Gate(m, stored);
        if !ok { return; }
        if m.commitment.Finalized? { DropUpto(m.slot); }
      }
    }

    /** One push.  It succeeds exactly when no ring it clears drains, and always
        when few enough slots are newer than that of the message; then the three
        logs grow exactly as `Step` says and the processed ring ends within its limits. */
    method Push(m: Parsed) returns (ok: bool)
      requires Valid() && !m.PBlock?
      modifies this
      modifies processed, processed.buffer, confirmed, confirmed.buffer, finalized, finalized.buffer
      ensures RingsOk(old(Now()))
      ensures var h := TrackOf(old(hub), m.slot).history;
        ok <==> PushFits(old(Now()), Config(), m, Stored(h + [m]), Output(h, m))
      ensures FewNewer(old(Now()), Config(), m) ==> ok
      ensures ok ==> Valid() && hub == Step(old(hub), m, grpc)
      ensures ok ==> Remembers(old(slots), slots, m, grpc)
      ensures ok ==> Limited(processed)
      ensures ok && grpc && m.PSlot? && m.commitment == Confirmed ==> Limited(confirmed)
      ensures ok && grpc && m.PSlot? && m.commitment == Finalized ==> Limited(finalized)
      ensures !ok ==> Drained()
    {
      ghost var before, after, rings, known := hub, Step(hub, m, grpc), Now(), slots;
      StepBodies(hub, m, grpc);
      var stored, block := Absorbed(m);
      StepInfos(slots, before, m, grpc);
      RemembersOthers(known, slots, m, grpc);
      ok := Publish(m, stored, block, before.processed, Msgs(before.confirmed), Msgs(before.finalized));
      if FewNewer(rings, Config(), m) { FewNewerFits(rings, Config(), m, stored, Out(m, block)); }
      if !ok { return; }
      assert InfosMatch(slots, after.slots);
      assert RingsMatch(after.processed, Msgs(after.confirmed), Msgs(after.finalized));
      hub := after;
    }

    ghost predicate Drained()
      reads processed, confirmed, finalized
    {
      processed.head == processed.tail || confirmed.head == confirmed.tail || finalized.head == finalized.tail
    }
  }

  lemma MsgsConcat(a: seq<Sent>, b: seq<Sent>)
    ensures Msgs(a + b) == Msgs(a) + Msgs(b)
  {
  }

  lemma ReleasedMsgs(t: Track, m: Parsed, p: nat, level: Commitment)
    requires m.PSlot? && |Stored(t.history)| == |t.places|
    ensures Msgs(Released(t, m, p, level))
         == [m] + if m.commitment == level then Present(Stored(t.history)) else []
  {
    if m.commitment == level {
      var rest := Replay(Stored(t.history), t.places, p);
      ReplayPresent(Stored(t.history), t.places, p);
      MsgsConcat([Sent(m, p, p)], rest);
    }
  }

  lemma StepInfos(slots: map<nat, Info>, hub: Hub, m: Parsed, grpc: bool)
    requires InfosMatch(slots, hub.slots[m.slot := Absorb(TrackOf(hub, m.slot), m, |hub.processed|)])
    ensures InfosMatch(if grpc && m.PSlot? && m.commitment.Finalized? then Later(slots, m.slot) else slots,
                       Step(hub, m, grpc).slots)
  {
    LaterMatch(slots, hub.slots[m.slot := Absorb(TrackOf(hub, m.slot), m, |hub.processed|)], m.slot);
  }

  /** The messages a step adds to the log of `level`. */
  lemma StepGain(hub: Hub, m: Parsed, grpc: bool, level: Commitment, log: seq<Sent>)
    requires HubOk(hub) && !m.PBlock?
    ensures var p, t := |hub.processed|, Absorb(TrackOf(hub, m.slot), m, |hub.processed|);
      Msgs(log + if grpc && m.PSlot? then Released(t, m, p, level) else [])
        == Msgs(log) + Gain(Stored(t.history), m, grpc, level)
  {
    var p, t := |hub.processed|, Absorb(TrackOf(hub, m.slot), m, |hub.processed|);
    var more := if grpc && m.PSlot? then Released(t, m, p, level) else [];
    MsgsConcat(log, more);
    if grpc && m.PSlot? {
      StepTracks(hub, m, grpc);
      StoredPlaced(t, m.slot, Step(hub, m, grpc).processed, p);
      ReleasedMsgs(t, m, p, level);
    }
  }

  /** The messages a step adds to each log. */
  lemma StepBodies(hub: Hub, m: Parsed, grpc: bool)
    requires HubOk(hub) && !m.PBlock?
    ensures HubOk(Step(hub, m, grpc))
    ensures var h, after := TrackOf(hub, m.slot).history, Step(hub, m, grpc);
      && after.processed == hub.processed + Output(h, m)
      && Msgs(after.confirmed) == Msgs(hub.confirmed) + Gain(Stored(h + [m]), m, grpc, Confirmed)
      && Msgs(after.finalized) == Msgs(hub.finalized) + Gain(Stored(h + [m]), m, grpc, Finalized)
  {
    StepKeepsHub(hub, m, grpc);
    StepGain(hub, m, grpc, Confirmed, hub.confirmed);
    StepGain(hub, m, grpc, Finalized, hub.finalized);
  }

  /** What the log of `level` gains from `m` when the slot stores `stored`. */
  ghost function Gain(stored: seq<Option<Parsed>>, m: Parsed, grpc: bool, level: Commitment): History {
    if grpc && m.PSlot? then [m] + (if m.commitment == level then Present(stored) else []) else []
  }
}
