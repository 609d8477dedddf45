/** One commitment level's ring of the richat channel: its writer, its readers
    and the two copies of its slot index. */
module RichatRing {
  import opened Base
  import opened RingIndex
  import opened Ring

  type Heads = map<nat, nat>

  /** No position of [lo, hi) is of slot `t`. */
  ghost predicate Unlost<T>(cap: nat, log: seq<Entry<T>>, lo: nat, hi: nat, t: nat)
  {
    forall p :: lo <= p < hi && cap <= p < Tail(cap, log) ==> SlotAt(cap, log, p) != t
  }

  /** Losing the positions [lo, hi) costs the index exactly the slots met there. */
  ghost function Kept<T>(index: Heads, cap: nat, log: seq<Entry<T>>, lo: nat, hi: nat): Heads {
    map t | t in index && Unlost(cap, log, lo, hi, t) :: index[t]
  }

  ghost predicate AtSlot<T>(cap: nat, log: seq<Entry<T>>, t: nat, h: nat) {
    cap <= h < Tail(cap, log) && SlotAt(cap, log, h) == t
  }

  /** Every indexed slot starts at a live message of its own. */
  ghost predicate IndexLive<T>(index: Heads, cap: nat, log: seq<Entry<T>>, head: nat) {
    forall t :: t in index ==> head <= index[t] && AtSlot(cap, log, t, index[t])
  }

  /** Every published position is one of a message of that slot, live or not. */
  ghost predicate Sound<T>(index: Heads, cap: nat, log: seq<Entry<T>>) {
    forall t :: t in index ==> AtSlot(cap, log, t, index[t])
  }

  /** What was published and not in the local index stays published. */
  ghost predicate Stays(was: Heads, local: Heads, now: Heads) {
    forall t :: t in was && t !in local ==> t in now && now[t] == was[t]
  }

  ghost predicate Within(a: Heads, b: Heads) {
    forall t :: t in a ==> t in b && b[t] == a[t]
  }

  lemma KeptStep<T>(index: Heads, cap: nat, log: seq<Entry<T>>, lo: nat, hi: nat)
    requires cap <= lo <= hi < Tail(cap, log)
    ensures Kept(index, cap, log, lo, hi) - {SlotAt(cap, log, hi)} == Kept(index, cap, log, lo, hi + 1)
  {
  }

  lemma KeptLive<T>(index: Heads, cap: nat, log: seq<Entry<T>>, lo: nat, hi: nat)
    requires cap <= lo <= hi <= Tail(cap, log) && IndexLive(index, cap, log, lo)
    ensures IndexLive(Kept(index, cap, log, lo, hi), cap, log, hi)
  {
    forall t | t in Kept(index, cap, log, lo, hi) ensures hi <= index[t] {
      assert AtSlot(cap, log, t, index[t]);
    }
  }

  /** Where `head` stands once the slot limit is met, having started from `lo`
      and reached `h`; `None` if the ring drains first, which is a panic. */
  ghost function SlotsHead<T>(index: Heads, cap: nat, log: seq<Entry<T>>, lo: nat, h: nat, slotsMax: nat)
      : (r: Option<nat>)
    requires cap <= lo <= h <= Tail(cap, log) && IndexLive(index, cap, log, lo)
    ensures r.Some? ==> h <= r.value <= Tail(cap, log)
    ensures r.Some? ==> |Kept(index, cap, log, lo, r.value)| <= slotsMax
    decreases Tail(cap, log) - h
  {
    KeptLive(index, cap, log, lo, h);
    var left := Kept(index, cap, log, lo, h);
    if |left| <= slotsMax then Some(h)
    else
      var s := Least(left.Keys);
      var q := RunEnd(cap, log, left[s], s);
      assert SlotAt(cap, log, left[s]) == s;
      if q < Tail(cap, log) then SlotsHead(index, cap, log, lo, q, slotsMax) else None
  }

  /** Both limits: bytes first, which can always be met, then slots. */
  ghost function ClearedHead<T>(index: Heads, cap: nat, log: seq<Entry<T>>, head: nat, bytesMax: nat, slotsMax: nat)
      : Option<nat>
    requires cap <= head <= Tail(cap, log) && IndexLive(index, cap, log, head)
  {
    SlotsHead(index, cap, log, head, FitFrom(cap, log, head, bytesMax), slotsMax)
  }

  /** The index of the slots before `n`. */
  ghost function Below(index: Heads, n: nat): Heads {
    map t | t in index && t < n :: index[t]
  }

  /** The slot of the newest message. */
  function Newest<T>(log: seq<Entry<T>>): nat
    requires log != []
  {
    log[|log| - 1].slot
  }

  /** A run that reaches the tail is of the newest message's slot. */
  lemma RunToTail<T>(cap: nat, log: seq<Entry<T>>, p: nat, s: nat)
    requires AtSlot(cap, log, s, p)
    ensures p < RunEnd(cap, log, p, s) && (RunEnd(cap, log, p, s) == Tail(cap, log) ==> Newest(log) == s)
  {
    assert Newest(log) == SlotAt(cap, log, Tail(cap, log) - 1);
  }

  /** One slot less: the least one goes, with everything up to the end of its run. */
  lemma NextClear<T>(index: Heads, cap: nat, log: seq<Entry<T>>, lo: nat, h: nat, slotsMax: nat)
      returns (s: nat, q: nat)
    requires cap <= lo <= h <= Tail(cap, log) && IndexLive(index, cap, log, lo)
    requires |Kept(index, cap, log, lo, h)| > slotsMax
    ensures var left := Kept(index, cap, log, lo, h);
      s in left && s == Least(left.Keys) && AtSlot(cap, log, s, index[s]) && q == RunEnd(cap, log, index[s], s)
    ensures h < q <= Tail(cap, log) && (q == Tail(cap, log) ==> Newest(log) == s)
    ensures SlotsHead(index, cap, log, lo, h, slotsMax)
         == if q < Tail(cap, log) then SlotsHead(index, cap, log, lo, q, slotsMax) else None
    ensures forall t :: t in Kept(index, cap, log, lo, q) ==> t > s
  {
    var left := Kept(index, cap, log, lo, h);
    KeptLive(index, cap, log, lo, h);
    s := Least(left.Keys);
    assert AtSlot(cap, log, s, left[s]);
    q := RunEnd(cap, log, left[s], s);
    RunToTail(cap, log, left[s], s);
    KeptShrinks(index, cap, log, lo, h, q);
    assert SlotAt(cap, log, index[s]) == s;
  }

  lemma KeptShrinks<T>(index: Heads, cap: nat, log: seq<Entry<T>>, lo: nat, h: nat, h': nat)
    requires cap <= lo <= h <= h' <= Tail(cap, log)
    ensures |Kept(index, cap, log, lo, h')| <= |Kept(index, cap, log, lo, h)|
    ensures Kept(index, cap, log, lo, h').Keys <= Kept(index, cap, log, lo, h).Keys
  {
    SubsetSize(Kept(index, cap, log, lo, h').Keys, Kept(index, cap, log, lo, h).Keys);
  }

  /** Slots older than the newest message's can always be cleared, all of them. */
  lemma {:induction false} OlderClear<T>(index: Heads, cap: nat, log: seq<Entry<T>>, lo: nat, h: nat)
    requires cap <= lo <= h <= Tail(cap, log) && IndexLive(index, cap, log, lo)
    requires log != [] && forall t :: t in index ==> t < Newest(log)
    ensures SlotsHead(index, cap, log, lo, h, 0).Some?
    decreases Tail(cap, log) - h
  {
    if |Kept(index, cap, log, lo, h)| > 0 {
      var s, q := NextClear(index, cap, log, lo, h, 0);
      OlderClear(index, cap, log, lo, q);
    }
  }

  /** Where `head` stands once every slot older than the newest message's is cleared. */
  ghost function OlderHead<T>(index: Heads, cap: nat, log: seq<Entry<T>>, lo: nat, h: nat): (r: nat)
    requires cap <= lo <= h <= Tail(cap, log) && IndexLive(index, cap, log, lo) && log != []
    ensures h <= r <= Tail(cap, log)
    ensures forall t :: t in Kept(index, cap, log, lo, r) ==> t >= Newest(log)
  {
    var older := Below(index, Newest(log));
    OlderClear(older, cap, log, lo, h);
    var r := SlotsHead(older, cap, log, lo, h, 0).value;
    assert Kept(older, cap, log, lo, r) == map[];
    assert forall t :: t in Kept(index, cap, log, lo, r) && t < Newest(log) ==> t in Kept(older, cap, log, lo, r);
    r
  }

  /** With the older slots cleared there are still too many slots, the newest
      message's is the least of them, and from its first message on the ring
      holds nothing else. */
  ghost predicate Drains<T>(index: Heads, cap: nat, log: seq<Entry<T>>, lo: nat, h: nat, slotsMax: nat)
    requires cap <= lo <= h <= Tail(cap, log) && IndexLive(index, cap, log, lo)
  {
    log != [] &&
    var n, left := Newest(log), Kept(index, cap, log, lo, OlderHead(index, cap, log, lo, h));
    |left| > slotsMax && n in left && RunEnd(cap, log, index[n], n) == Tail(cap, log)
  }

  /** While an older slot is left, it is the one to go; then `OlderHead` stands. */
  lemma OlderGoesFirst<T>(index: Heads, cap: nat, log: seq<Entry<T>>, lo: nat, h: nat, s: nat, q: nat)
    requires cap <= lo <= h <= Tail(cap, log) && IndexLive(index, cap, log, lo) && log != []
    requires var left := Kept(index, cap, log, lo, h); s in left && s == Least(left.Keys)
    requires q == RunEnd(cap, log, index[s], s) && h < q
    ensures if s < Newest(log)
            then q < Tail(cap, log) && OlderHead(index, cap, log, lo, h) == OlderHead(index, cap, log, lo, q)
            else OlderHead(index, cap, log, lo, h) == h
  {
    var older := Below(index, Newest(log));
    var left, lower := Kept(index, cap, log, lo, h), Kept(older, cap, log, lo, h);
    assert lower.Keys <= left.Keys;
    if s < Newest(log) {
      assert s in lower;
      var s', q' := NextClear(older, cap, log, lo, h, 0);
      assert s' == s;
      OlderClear(older, cap, log, lo, q);
    } else {
      assert lower == map[];
    }
  }

  /** Once the slots left are all newer, the newest message's slot cannot drain the ring. */
  lemma LostStaysLost<T>(index: Heads, cap: nat, log: seq<Entry<T>>, lo: nat, q: nat, slotsMax: nat)
    requires cap <= lo <= q <= Tail(cap, log) && IndexLive(index, cap, log, lo) && log != []
    requires Newest(log) !in Kept(index, cap, log, lo, q)
    ensures !Drains(index, cap, log, lo, q, slotsMax)
  {
    KeptShrinks(index, cap, log, lo, q, OlderHead(index, cap, log, lo, q));
  }

  /** Clearing panics exactly when the ring drains, which can be told beforehand. */
  lemma {:induction false} ClearPanicsIff<T>(index: Heads, cap: nat, log: seq<Entry<T>>, lo: nat, h: nat, slotsMax: nat)
    requires cap <= lo <= h <= Tail(cap, log) && IndexLive(index, cap, log, lo)
    ensures SlotsHead(index, cap, log, lo, h, slotsMax).None? <==> Drains(index, cap, log, lo, h, slotsMax)
    decreases Tail(cap, log) - h
  {
    if |Kept(index, cap, log, lo, h)| <= slotsMax {
      if log != [] { KeptShrinks(index, cap, log, lo, h, OlderHead(index, cap, log, lo, h)); }
    } else {
      var s, q := NextClear(index, cap, log, lo, h, slotsMax);
      OlderGoesFirst(index, cap, log, lo, h, s, q);
      if q < Tail(cap, log) {
        ClearPanicsIff(index, cap, log, lo, q, slotsMax);
        if s >= Newest(log) { LostStaysLost(index, cap, log, lo, q, slotsMax); }
      }
    }
  }

  /** So it does not panic as long as fewer than `slotsMax` indexed slots are
      above the slot of the newest message. */
  lemma ClearIsSafe<T>(index: Heads, cap: nat, log: seq<Entry<T>>, lo: nat, h: nat, slotsMax: nat)
    requires cap <= lo <= h <= Tail(cap, log) && IndexLive(index, cap, log, lo)
    requires log != [] && FewAbove(index.Keys, Newest(log), slotsMax)
    ensures SlotsHead(index, cap, log, lo, h, slotsMax).Some?
  {
    ClearPanicsIff(index, cap, log, lo, h, slotsMax);
    if Drains(index, cap, log, lo, h, slotsMax) {
      var n, left := Newest(log), Kept(index, cap, log, lo, OlderHead(index, cap, log, lo, h));
      assert left.Keys - {n} <= GreaterIn(index.Keys, n);
      SubsetSize(left.Keys - {n}, GreaterIn(index.Keys, n));
    }
  }

  /** Without that condition it can: two slots, the older one written last, and room for one. */
  lemma ClearCanDrain()
    ensures exists index: Heads, log: seq<Entry<()>> ::
      IndexLive(index, 2, log, 2) && ClearedHead(index, 2, log, 2, 100, 1).None?
  {
    var log := [Entry(7, 0, ()), Entry(3, 0, ())];
    var index := map[7 := 2, 3 := 3];
    assert SlotAt(2, log, 2) == 7 && SlotAt(2, log, 3) == 3;
    assert Bytes(2, log, 4) == 0 && Bytes(2, log, 3) == 0 && Bytes(2, log, 2) == 0;
    assert FitFrom(2, log, 2, 100) == 2;
    assert Kept(index, 2, log, 2, 2) == index;
    assert index.Keys == {7, 3} && |index.Keys| == 2;
    assert Least(index.Keys) == 3;
    assert RunEnd(2, log, 4, 3) == 4 && RunEnd(2, log, 3, 3) == 4;
    assert IndexLive(index, 2, log, 2);
  }

  // ---------------------------------------------------------------------------
  // The ring as a value
  // ---------------------------------------------------------------------------

  datatype State<T> = State(cap: nat, head: nat, log: seq<Entry<T>>, slots: Heads)

  ghost predicate StateOk<T>(v: State<T>) {
    && 1 <= v.cap <= v.head <= Tail(v.cap, v.log) && |v.log| <= v.head
    && IndexLive(v.slots, v.cap, v.log, v.head)
  }

  /** One more message; a full ring loses its oldest one, and with it that one's slot. */
  ghost function Appended<T>(v: State<T>, e: Entry<T>): (v': State<T>)
    ensures StateOk(v) ==> StateOk(v') && v'.cap == v.cap && v'.log == v.log + [e]
    ensures StateOk(v) ==> v'.slots.Keys <= v.slots.Keys + {e.slot}
  {
    var head := if v.head == |v.log| then v.head + 1 else v.head;
    var left := Kept(v.slots, v.cap, v.log, v.head, head);
    AppendedOk(v, e, head, left);
    State(v.cap, head, v.log + [e], if e.slot in left then left else left[e.slot := Tail(v.cap, v.log)])
  }

  lemma AppendedOk<T>(v: State<T>, e: Entry<T>, head: nat, left: Heads)
    requires head == if v.head == |v.log| then v.head + 1 else v.head
    requires left == Kept(v.slots, v.cap, v.log, v.head, head)
    ensures StateOk(v) ==>
      IndexLive(if e.slot in left then left else left[e.slot := Tail(v.cap, v.log)], v.cap, v.log + [e], head)
  {
    if StateOk(v) {
      KeptLive(v.slots, v.cap, v.log, v.head, head);
      IndexesGrow(left, left, v.cap, v.log, head, e);
    }
  }

  /** All of them, one after the other. */
  ghost function AppendedAll<T>(v: State<T>, es: seq<Entry<T>>): (v': State<T>)
    requires StateOk(v)
    ensures StateOk(v') && v'.cap == v.cap && v'.log == v.log + es
  {
    AppendedKeeps(v, es);
    Fold(Appended, v, es)
  }

  lemma {:induction false} AppendedKeeps<T>(v: State<T>, es: seq<Entry<T>>)
    requires StateOk(v)
    ensures var v' := Fold(Appended, v, es); StateOk(v') && v'.cap == v.cap && v'.log == v.log + es
    decreases |es|
  {
    if es != [] {
      var n := |es| - 1;
      AppendedKeeps(v, es[..n]);
      assert es == es[..n] + [es[n]];
    }
  }

  lemma {:induction false} AppendedSlots<T>(v: State<T>, es: seq<Entry<T>>, s: nat)
    requires StateOk(v) && forall i :: 0 <= i < |es| ==> es[i].slot == s
    ensures Fold(Appended, v, es).slots.Keys <= v.slots.Keys + {s}
    decreases |es|
  {
    if es != [] {
      AppendedSlots(v, es[..|es| - 1], s);
      AppendedKeeps(v, es[..|es| - 1]);
    }
  }

  /** Both limits met, or a panic. */
  ghost function Cleared<T>(v: State<T>, bytesMax: nat, slotsMax: nat): (r: Option<State<T>>)
    requires StateOk(v)
    ensures r.Some? ==> StateOk(r.value) && r.value.log == v.log
  {
    match ClearedHead(v.slots, v.cap, v.log, v.head, bytesMax, slotsMax)
    case None => None
    case Some(h) =>
      KeptLive(v.slots, v.cap, v.log, v.head, h);
      Some(v.(head := h, slots := Kept(v.slots, v.cap, v.log, v.head, h)))
  }

  /** Messages of one slot can be taken and cleared whenever fewer than `slotsMax`
      slots above it are indexed beforehand. */
  lemma FewAboveClears<T>(v: State<T>, es: seq<Entry<T>>, s: nat, bytesMax: nat, slotsMax: nat)
    requires StateOk(v) && es != [] && forall i :: 0 <= i < |es| ==> es[i].slot == s
    requires FewAbove(v.slots.Keys, s, slotsMax)
    ensures Cleared(AppendedAll(v, es), bytesMax, slotsMax).Some?
  {
    var w := AppendedAll(v, es);
    AppendedSlots(v, es, s);
    assert Newest(w.log) == s;
    assert GreaterIn(w.slots.Keys, s) <= GreaterIn(v.slots.Keys, s);
    SubsetSize(GreaterIn(w.slots.Keys, s), GreaterIn(v.slots.Keys, s));
    ClearIsSafe(w.slots, w.cap, w.log, w.head, FitFrom(w.cap, w.log, w.head, bytesMax), slotsMax);
  }

  // ---------------------------------------------------------------------------
  // Reading
  // ---------------------------------------------------------------------------

  datatype RecvError = Lagged

  /** What a reader of position `h` is told that sees `seen` as the tail. */
  ghost function Answer<T>(cap: nat, head: nat, log: seq<Entry<T>>, h: nat, seen: nat)
      : Result<Option<Entry<T>>, RecvError>
    requires cap <= head <= Tail(cap, log) && seen <= Tail(cap, log)
  {
    if h >= seen then Ok(None) else if h < head then Err(Lagged) else Ok(Some(log[h - cap]))
  }

  /** The position readers see: that of the newest message. */
  ghost function SeenTail<T>(cap: nat, log: seq<Entry<T>>): nat {
    if log == [] then cap else Tail(cap, log) - 1
  }

  /** A published position, whenever it was read off the index, later leads to a
      message of its slot, to Lagged, or to nothing while it is the newest
      position the reader can see: never to another slot's message. */
  lemma ReplayIsSound<T>(before: seq<Entry<T>>, published: Heads, t: nat, cap: nat, head: nat, log: seq<Entry<T>>,
      seen: nat)
    requires Sound(published, cap, before) && t in published && before <= log
    requires cap <= head <= Tail(cap, log) && seen <= SeenTail(cap, log)
    ensures match Answer(cap, head, log, published[t], seen)
      case Err(_) => published[t] < head
      case Ok(Some(e)) => e.slot == t
      case Ok(None) => seen == SeenTail(cap, log) ==> published[t] == SeenTail(cap, log)
  {
    assert AtSlot(cap, before, t, published[t]);
  }

  /** Both indexes stay in order over a longer log, with or without the new slot. */
  lemma IndexesGrow<T>(slots: Heads, published: Heads, cap: nat, log: seq<Entry<T>>, head: nat, e: Entry<T>)
    requires cap <= head <= Tail(cap, log)
    requires IndexLive(slots, cap, log, head) && Within(slots, published) && Sound(published, cap, log)
    ensures var pos, log' := Tail(cap, log), log + [e];
      && IndexLive(slots, cap, log', head) && IndexLive(slots[e.slot := pos], cap, log', head)
      && Sound(published, cap, log') && Sound(published[e.slot := pos], cap, log')
      && Within(slots[e.slot := pos], published[e.slot := pos])
  {
    var pos, log' := Tail(cap, log), log + [e];
    assert AtSlot(cap, log', e.slot, pos);
    forall t | t in published ensures AtSlot(cap, log', t, published[t]) {
      assert AtSlot(cap, log, t, published[t]);
    }
    forall t | t in slots ensures AtSlot(cap, log', t, slots[t]) {
      assert AtSlot(cap, log, t, slots[t]);
    }
  }

  class SenderShared<T> {
    const cap: nat
    const buffer: array<Item<T>>
    var head: nat
    var tail: nat
    var bytesTotal: nat
    var slots: Heads
    // what readers see
    var publishedTail: nat
    var published: Heads
    ghost var log: seq<Entry<T>>

    ghost function Abs(): State<T>
      reads this
    {
      State(cap, head, log, slots)
    }

    ghost predicate Consistent()
      reads this, buffer
    {
      && buffer.Length == cap
      && Holds(buffer[..], cap, head, log)
      && tail == Tail(cap, log)
      && bytesTotal == Bytes(cap, log, head)
    }

    /** The ring invariant: the local index is live, and contained in the
        published one, which may hold evicted positions but never wrong ones.
        The published tail is the position of the newest message. */
    ghost predicate Valid()
      reads this, buffer
    {
      && Consistent()
      && IndexLive(slots, cap, log, head)
      && Within(slots, published) && Sound(published, cap, log)
      && publishedTail == SeenTail(cap, log)
    }

    constructor (maxMessages: nat)
      ensures Valid() && fresh(buffer)
      ensures cap == NextPow2(maxMessages) && log == [] && head == cap && slots == map[] == published
    {
      var size := NextPow2(maxMessages);
      var cells := new Item<T>[size](i requires i >= 0 => Item(i, 0, None, false));
      cap, buffer := size, cells;
      head, tail, bytesTotal, slots := size, size, 0, map[];
      publishedTail, published, log := size, map[], [];
      new;
      FreshHolds(buffer[..], cap);
    }

    /** Forget `slot` in both indexes, if the local one has it. */
    method Forget(slot: nat)
      modifies this`slots, this`published
      ensures slots == old(slots) - {slot}
      ensures published == old(published) - (if slot in old(slots) then {slot} else {})
    {
      if slot in slots {
        slots := slots - {slot};
        published := published - {slot};
      }
    }

    /** Empty the cell at `head`. */
    method TakeOldest() returns (slot: nat)
      requires Consistent() && head < tail
      modifies this`head, this`bytesTotal, buffer
      ensures Consistent()
      ensures head == old(head) + 1 && slot == SlotAt(cap, log, old(head))
    {
      ghost var cells := buffer[..];
      var idx := Idx(head, cap);
      var item := buffer[idx];
      TakeHead(cells, cap, head, log, cells[idx := item.(data := None)]);
      assert item.data.Some?;
      buffer[idx] := item.(data := None);
      assert buffer[..] == cells[idx := item.(data := None)];
      head := head + 1;
      bytesTotal := bytesTotal - item.data.value.size;
      slot := item.slot;
    }

    /** What evictions keep: `index` is the local index when `head` was `lo`, and
        `was` the published one. */
    ghost predicate Clearing(index: Heads, was: Heads, lo: nat)
      reads this, buffer
    {
      && Consistent() && cap <= lo <= head
      && slots == Kept(index, cap, log, lo, head)
      && Within(slots, published) && Within(published, was)
    }

    method EvictOldest(ghost index: Heads, ghost was: Heads, ghost lo: nat)
      requires Clearing(index, was, lo) && head < tail
      modifies this`head, this`bytesTotal, this`slots, this`published, buffer
      ensures Clearing(index, was, lo) && head == old(head) + 1
      ensures Stays(old(published), old(slots), published) && slots.Keys <= old(slots).Keys
    {
      KeptStep(index, cap, log, lo, head);
      var slot := TakeOldest();
      Forget(slot);
    }

    /** Write the cell of `tail`, known to be empty, and publish its position. */
    method Write(e: Entry<T>)
      requires Consistent() && head > |log|
      modifies this`tail, this`bytesTotal, this`log, this`publishedTail, buffer
      ensures Consistent() && log == old(log) + [e] && publishedTail == old(tail)
    {
      ghost var cells := buffer[..];
      var idx := Idx(tail, cap);
      var item := buffer[idx];
      StoreTail(cells, cap, head, log, e, cells[idx := Item(tail, e.slot, Some(e), item.closed)], head);
      BytesAppend(cap, log, e, head);
      bytesTotal := bytesTotal + e.size;
      buffer[idx] := Item(tail, e.slot, Some(e), item.closed);
      assert buffer[..] == cells[idx := Item(tail, e.slot, Some(e), item.closed)];
      publishedTail, tail := tail, tail + 1;
      log := log + [e];
    }

    method Insert(e: Entry<T>)
      requires Valid()
      modifies this, buffer
      ensures Valid()
      ensures log == old(log) + [e]
      ensures head == if old(head) == |old(log)| then old(head) + 1 else old(head)
      ensures var left := Kept(old(slots), cap, old(log), old(head), head);
        slots == if e.slot in left then left else left[e.slot := old(tail)]
      ensures e.slot in published && published[e.slot] == slots[e.slot]
      ensures Stays(old(published) - {e.slot}, old(slots), published)
      ensures Within(published - {e.slot}, old(published))
    {
      ghost var index, was, lo, log0 := slots, published, head, log;
      assert Kept(index, cap, log, lo, lo) == index;
      LocateTail(buffer[..], cap, head, log);
      assert buffer[..][Idx(tail, cap)] == buffer[Idx(tail, cap)];
      if buffer[Idx(tail, cap)].data.Some? {
        IdxWraps(head, cap);
        EvictOldest(index, was, lo);
      }
      KeptLive(index, cap, log, lo, head);
      Write(e);
      IndexesGrow(slots, published, cap, log0, head, e);
      if e.slot !in slots {
        published := published[e.slot := publishedTail];
        slots := slots[e.slot := publishedTail];
      }
    }

    /** Append one message; a full ring loses its oldest one. */
    method Push(e: Entry<T>)
      requires Valid()
      modifies this, buffer
      ensures Valid() && log == old(log) + [e]
      ensures StateOk(old(Abs())) && Abs() == Appended(old(Abs()), e)
      ensures e.slot in published && published[e.slot] == slots[e.slot]
      ensures Stays(old(published) - {e.slot}, old(slots), published)
      ensures Within(published - {e.slot}, old(published))
    {
      Insert(e);
    }

    method ClearBytes(bytesMax: nat, ghost index: Heads, ghost was: Heads, ghost lo: nat)
      requires Clearing(index, was, lo)
      modifies this`head, this`bytesTotal, this`slots, this`published, buffer
      ensures Clearing(index, was, lo)
      ensures head == FitFrom(cap, log, old(head), bytesMax)
      ensures Stays(old(published), old(slots), published) && slots.Keys <= old(slots).Keys
    {
      ghost var goal := FitFrom(cap, log, head, bytesMax);
      while bytesTotal > bytesMax
        invariant Clearing(index, was, lo)
        invariant FitFrom(cap, log, head, bytesMax) == goal
        invariant Stays(old(published), old(slots), published) && slots.Keys <= old(slots).Keys
        decreases tail - head
      {
        assert head < tail;
        EvictOldest(index, was, lo);
      }
    }

    method EvictUpto(start: nat, ghost index: Heads, ghost was: Heads, ghost lo: nat)
      requires Clearing(index, was, lo) && head <= start <= tail
      modifies this`head, this`bytesTotal, this`slots, this`published, buffer
      ensures Clearing(index, was, lo) && head == start
      ensures Stays(old(published), old(slots), published) && slots.Keys <= old(slots).Keys
    {
      while head < start
        invariant Clearing(index, was, lo) && head <= start
        invariant Stays(old(published), old(slots), published) && slots.Keys <= old(slots).Keys
      {
        EvictOldest(index, was, lo);
      }
    }

    method OldestSlot() returns (slot: nat)
      requires Consistent() && head < tail
      ensures slot == SlotAt(cap, log, head)
    {
      Locate(buffer[..], cap, head, log, head);
      var idx := Idx(head, cap);
      assert CellOk(buffer[..][idx], idx, cap, head, log);
      slot := buffer[idx].slot;
    }

    /** Evict the run of slot `s`, already out of the index, at `head`. */
    method EvictRun(s: nat, ghost index: Heads, ghost was: Heads, ghost lo: nat) returns (ok: bool)
      requires Clearing(index, was, lo) && s !in index
      modifies this`head, this`bytesTotal, buffer
      ensures Clearing(index, was, lo)
      ensures head == RunEnd(cap, log, old(head), s)
      ensures ok <==> head < tail
    {
      ghost var goal := RunEnd(cap, log, head, s);
      while true
        invariant Clearing(index, was, lo)
        invariant RunEnd(cap, log, head, s) == goal
        decreases tail - head
      {
        if head >= tail { return false; }
        var slot := OldestSlot();
        if s != slot { return true; }
        KeptStep(index, cap, log, lo, head);
        assert Kept(index, cap, log, lo, head) - {s} == Kept(index, cap, log, lo, head);
        var _ := TakeOldest();
      }
    }

    /** One slot less: everything before the slot's first message, then its run.
        The slot leaves the local index only. */
    method ClearSlot(s: nat, ghost index: Heads, ghost was: Heads, ghost lo: nat) returns (ok: bool)
      requires Clearing(index, was, lo)
      requires s in slots && head <= slots[s] && AtSlot(cap, log, s, slots[s])
      modifies this`head, this`bytesTotal, this`slots, this`published, buffer
      ensures Clearing(index, was, lo)
      ensures head == RunEnd(cap, log, old(slots[s]), s) > old(head)
      ensures ok <==> head < tail
      ensures Stays(old(published), old(slots) - {s}, published) && slots.Keys <= old(slots).Keys - {s}
    {
      var start := slots[s];
      ghost var rest := index - {s};
      slots := slots - {s};
      assert slots == Kept(rest, cap, log, lo, head);
      EvictUpto(start, rest, was, lo);
      ok := EvictRun(s, rest, was, lo);
      assert SlotAt(cap, log, start) == s;
      assert Kept(rest, cap, log, lo, head) == Kept(index, cap, log, lo, head);
    }

    /** The least slot goes. */
    method ClearLeast(slotsMax: nat, ghost index: Heads, ghost was: Heads, ghost lo: nat) returns (ok: bool)
      requires Clearing(index, was, lo) && IndexLive(index, cap, log, lo) && |slots| > slotsMax
      modifies this`head, this`bytesTotal, this`slots, this`published, buffer
      ensures Clearing(index, was, lo) && old(head) < head && bytesTotal <= old(bytesTotal)
      ensures old(slots) != map[]
      ensures var s := Least(old(slots).Keys); Stays(old(published), old(slots) - {s}, published)
      ensures slots.Keys <= old(slots).Keys
      ensures ok <==> head < tail
      ensures SlotsHead(index, cap, log, lo, old(head), slotsMax)
        == if ok then SlotsHead(index, cap, log, lo, head, slotsMax) else None
    {
      ghost var least, q := NextClear(index, cap, log, lo, head, slotsMax);
      KeptLive(index, cap, log, lo, head);
      BytesShrink(cap, log, head, q);
      var s := Least(slots.Keys);
      ok := ClearSlot(s, index, was, lo);
    }

    method Clear(bytesMax: nat, slotsMax: nat) returns (ok: bool)
      requires Valid()
      modifies this`head, this`bytesTotal, this`slots, this`published, buffer
      ensures Valid()
      ensures ok <==> ClearedHead(old(slots), cap, log, old(head), bytesMax, slotsMax).Some?
      ensures ok ==> Some(head) == ClearedHead(old(slots), cap, log, old(head), bytesMax, slotsMax)
      ensures ok ==> |slots| <= slotsMax && bytesTotal <= bytesMax
      ensures !ok ==> head == tail
      ensures old(head) <= head && slots == Kept(old(slots), cap, log, old(head), head)
      ensures Within(published, old(published)) && Stays(old(published), old(slots), published)
    {
      ghost var index, was, lo := slots, published, head;
      assert Kept(index, cap, log, lo, head) == index;
      ClearBytes(bytesMax, index, was, lo);
      while |slots| > slotsMax
        invariant Clearing(index, was, lo) && bytesTotal <= bytesMax
        invariant Stays(was, index, published) && slots.Keys <= index.Keys
        invariant SlotsHead(index, cap, log, lo, head, slotsMax)
          == ClearedHead(index, cap, log, lo, bytesMax, slotsMax)
        decreases tail - head
      {
        ok := ClearLeast(slotsMax, index, was, lo);
        if !ok { KeptLive(index, cap, log, lo, head); return; }
      }
      KeptLive(index, cap, log, lo, head);
      ok := true;
    }

    /** Meet both limits.  Meeting the byte limit cannot panic; meeting the slot
        limit panics exactly when what then is in the ring drains it. */
    method TryClear(bytesMax: nat, slotsMax: nat) returns (ok: bool)
      requires Valid()
      modifies this`head, this`bytesTotal, this`slots, this`published, buffer
      ensures Valid()
      ensures ok <==> !Drains(old(slots), cap, log, old(head), FitFrom(cap, log, old(head), bytesMax), slotsMax)
      ensures StateOk(old(Abs())) && ok == Cleared(old(Abs()), bytesMax, slotsMax).Some?
      ensures ok ==> Some(Abs()) == Cleared(old(Abs()), bytesMax, slotsMax)
      ensures ok ==> |slots| <= slotsMax && bytesTotal <= bytesMax
      ensures !ok ==> head == tail
      ensures Within(published, old(published)) && Stays(old(published), old(slots), published)
    {
      ClearPanicsIff(slots, cap, log, head, FitFrom(cap, log, head, bytesMax), slotsMax);
      ok := Clear(bytesMax, slotsMax);
    }

    /** Read position `h`, with a possibly outdated view `seen` of the tail.
        Nothing yet exactly from `seen` on; otherwise lagged exactly below `head`,
        and else the log's own entry. */
    method TryRecv(h: nat, seen: nat) returns (r: Result<Option<Entry<T>>, RecvError>)
      requires Valid() && seen <= publishedTail
      ensures r == Answer(cap, head, log, h, seen)
      ensures r == Ok(None) <==> h >= seen
      ensures h < seen ==> (r == Err(Lagged) <==> h < head)
      ensures h < seen && h >= head ==> r == Ok(Some(log[h - cap]))
    {
      if h < seen {
        ReadExact(buffer[..], cap, head, log, h);
        var item := buffer[Idx(h, cap)];
        assert item == buffer[..][Idx(h, cap)];
        if item.pos != h { return Err(Lagged); }
        if item.data.None? { return Err(Lagged); }
        return Ok(Some(item.data.value));
      }
      return Ok(None);
    }

    /** Where a new reader starts: at a published position of the requested slot,
        or at the newest message. */
    method CurrentTail(replayFrom: Option<nat>) returns (r: Option<nat>)
      requires Valid()
      ensures replayFrom.None? ==> r == Some(publishedTail)
      ensures replayFrom.Some? ==> (r.Some? <==> replayFrom.value in published)
      ensures replayFrom.Some? && r.Some? ==> AtSlot(cap, log, replayFrom.value, r.value)
    {
      match replayFrom {
        case None => r := Some(publishedTail);
        case Some(slot) => r := if slot in published then Some(published[slot]) else None;
      }
    }
  }
}
