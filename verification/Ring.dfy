/** The picture both broadcast rings keep: an append-only log of entries, of
    which the newest `tail - head` are held in `cap` cells.  Positions start at
    `cap`, so the entry at position `p` is `log[p - cap]`, `tail` is
    `cap + |log|`, and the cells remember the last `cap` positions. */
module Ring {
  import opened Base
  import opened RingIndex

  datatype Entry<T> = Entry(slot: nat, size: nat, body: T)

  /** One cell.  The richat ring never sets `closed`. */
  datatype Item<T> = Item(pos: nat, slot: nat, data: Option<Entry<T>>, closed: bool)

  function Tail<T>(cap: nat, log: seq<Entry<T>>): nat {
    cap + |log|
  }

  ghost predicate CellOk<T>(c: Item<T>, i: nat, cap: nat, head: nat, log: seq<Entry<T>>)
    requires cap >= 1 && cap <= head
  {
    && |log| <= c.pos < Tail(cap, log)
    && Idx(c.pos, cap) == i
    && (c.pos < head ==> c.data.None?)
    && (head <= c.pos ==> c.data == Some(log[c.pos - cap]) && c.slot == log[c.pos - cap].slot)
  }

  /** Exactly the positions of [head, tail) hold their entry. */
  ghost predicate Holds<T>(cells: seq<Item<T>>, cap: nat, head: nat, log: seq<Entry<T>>) {
    && cap >= 1 && IsPow2(cap) && |cells| == cap
    && cap <= head <= Tail(cap, log)
    && |log| <= head
    && forall i :: 0 <= i < cap ==> CellOk(cells[i], i, cap, head, log)
  }

  /** The sum of the sizes of the entries from position `p` on. */
  ghost function Bytes<T>(cap: nat, log: seq<Entry<T>>, p: nat): nat
    requires cap <= p <= Tail(cap, log)
    decreases Tail(cap, log) - p
  {
    if p == Tail(cap, log) then 0 else log[p - cap].size + Bytes(cap, log, p + 1)
  }

  lemma {:induction false} BytesAppend<T>(cap: nat, log: seq<Entry<T>>, e: Entry<T>, p: nat)
    requires cap <= p <= Tail(cap, log)
    ensures Bytes(cap, log + [e], p) == Bytes(cap, log, p) + e.size
    decreases Tail(cap, log) - p
  {
    if p < Tail(cap, log) {
      BytesAppend(cap, log, e, p + 1);
    } else {
      assert Bytes(cap, log + [e], p + 1) == 0;
    }
  }

  lemma {:induction false} BytesShrink<T>(cap: nat, log: seq<Entry<T>>, p: nat, q: nat)
    requires cap <= p <= q <= Tail(cap, log)
    ensures Bytes(cap, log, q) <= Bytes(cap, log, p)
    decreases q - p
  {
    if p < q { BytesShrink(cap, log, p + 1, q); }
  }

  function SlotAt<T>(cap: nat, log: seq<Entry<T>>, p: nat): nat
    requires cap <= p < Tail(cap, log)
  {
    log[p - cap].slot
  }

  /** The first position from `p` on whose slot is not `s`, or the tail. */
  ghost function RunEnd<T>(cap: nat, log: seq<Entry<T>>, p: nat, s: nat): (q: nat)
    requires cap <= p <= Tail(cap, log)
    ensures p <= q <= Tail(cap, log)
    ensures forall r :: p <= r < q ==> SlotAt(cap, log, r) == s
    ensures q < Tail(cap, log) ==> SlotAt(cap, log, q) != s
    decreases Tail(cap, log) - p
  {
    if p < Tail(cap, log) && log[p - cap].slot == s then RunEnd(cap, log, p + 1, s) else p
  }

  /** The first position from `p` on such that what is left fits in `room`. */
  ghost function FitFrom<T>(cap: nat, log: seq<Entry<T>>, p: nat, room: nat): (q: nat)
    requires cap <= p <= Tail(cap, log)
    ensures p <= q <= Tail(cap, log)
    ensures Bytes(cap, log, q) <= room
    ensures forall r :: p <= r < q ==> Bytes(cap, log, r) > room
    decreases Tail(cap, log) - p
  {
    if Bytes(cap, log, p) <= room then p else FitFrom(cap, log, p + 1, room)
  }

  function GreaterIn(keys: set<nat>, s: nat): set<nat> {
    set t | t in keys && t > s
  }

  /** Fewer than `n` of `keys` are greater than `s`. */
  ghost predicate FewAbove(keys: set<nat>, s: nat, n: nat) {
    |GreaterIn(keys, s)| < n
  }

  /** A position the cells remember is found in its own cell. */
  lemma Locate<T>(cells: seq<Item<T>>, cap: nat, head: nat, log: seq<Entry<T>>, p: nat)
    requires Holds(cells, cap, head, log)
    requires |log| <= p < Tail(cap, log)
    ensures cells[Idx(p, cap)].pos == p
  {
    var i := Idx(p, cap);
    assert CellOk(cells[i], i, cap, head, log);
    IdxInjective(cells[i].pos, p, cap);
  }

  /** The cell of the next position to be written still remembers the position
      one lap behind, which is live exactly when the ring is full. */
  lemma LocateTail<T>(cells: seq<Item<T>>, cap: nat, head: nat, log: seq<Entry<T>>)
    requires Holds(cells, cap, head, log)
    ensures cells[Idx(Tail(cap, log), cap)].pos == |log|
    ensures cells[Idx(Tail(cap, log), cap)].data.Some? <==> head == |log|
    ensures head == |log| ==>
      cells[Idx(Tail(cap, log), cap)].data == Some(log[head - cap])
      && cells[Idx(Tail(cap, log), cap)].slot == log[head - cap].slot
  {
    IdxWraps(|log|, cap);
    Locate(cells, cap, head, log, |log|);
    var i := Idx(Tail(cap, log), cap);
    assert CellOk(cells[i], i, cap, head, log);
  }

  /** Emptying the cell of `head` advances `head`. */
  lemma TakeHead<T>(cells: seq<Item<T>>, cap: nat, head: nat, log: seq<Entry<T>>, cells': seq<Item<T>>)
    requires Holds(cells, cap, head, log)
    requires head < Tail(cap, log)
    requires cells' == cells[Idx(head, cap) := cells[Idx(head, cap)].(data := None)]
    ensures cells[Idx(head, cap)].data == Some(log[head - cap])
    ensures cells[Idx(head, cap)].slot == log[head - cap].slot
    ensures Holds(cells', cap, head + 1, log)
  {
    var h := Idx(head, cap);
    Locate(cells, cap, head, log, head);
    assert CellOk(cells[h], h, cap, head, log);
    forall i | 0 <= i < cap ensures CellOk(cells'[i], i, cap, head + 1, log) {
      assert CellOk(cells[i], i, cap, head, log);
    }
  }

  /** Writing the cell of `tail` appends to the log; a full ring loses its oldest entry. */
  lemma StoreTail<T>(cells: seq<Item<T>>, cap: nat, head: nat, log: seq<Entry<T>>,
                     e: Entry<T>, cells': seq<Item<T>>, head': nat)
    requires Holds(cells, cap, head, log)
    requires head' == if head == |log| then head + 1 else head
    requires var t := Idx(Tail(cap, log), cap);
      cells' == cells[t := Item(Tail(cap, log), e.slot, Some(e), cells[t].closed)]
    ensures Holds(cells', cap, head', log + [e])
  {
    LocateTail(cells, cap, head, log);
    var t, log' := Idx(Tail(cap, log), cap), log + [e];
    forall i | 0 <= i < cap ensures CellOk(cells'[i], i, cap, head', log') {
      assert CellOk(cells[i], i, cap, head, log);
      if i != t {
        assert cells[i].pos != |log| by { IdxWraps(|log|, cap); }
      }
    }
  }

  /** The fresh ring remembers positions 0, 1, … cap - 1 and holds nothing. */
  lemma FreshHolds<T>(cells: seq<Item<T>>, cap: nat)
    requires cap >= 1 && IsPow2(cap) && |cells| == cap
    requires forall i :: 0 <= i < cap ==> cells[i] == Item(i, 0, None, false)
    ensures Holds(cells, cap, cap, [])
  {
    forall i | 0 <= i < cap ensures CellOk(cells[i], i, cap, cap, []) {
      IdxSmall(i, cap);
    }
  }

  datatype Reading<T> = Found(entry: Entry<T>) | Behind | Ahead

  /** What reading the cell of `next` tells a receiver: its entry, that it is
      gone, or that it is still to come. */
  function Read<T>(c: Item<T>, next: nat): Reading<T> {
    if c.pos < next then Ahead
    else if c.pos > next then Behind
    else match c.data
      case None => Behind
      case Some(e) => Found(e)
  }

  /** A receiver that is not past `tail` reads exactly: `Ahead` at `tail`,
      `Behind` below `head`, and the log's own entry in between. */
  lemma ReadExact<T>(cells: seq<Item<T>>, cap: nat, head: nat, log: seq<Entry<T>>, next: nat)
    requires Holds(cells, cap, head, log)
    requires next <= Tail(cap, log)
    ensures var r := Read(cells[Idx(next, cap)], next);
      && (r.Ahead? <==> next == Tail(cap, log))
      && (r.Behind? <==> next < head)
      && (head <= next < Tail(cap, log) ==> r == Found(log[next - cap]))
  {
    var i := Idx(next, cap);
    assert CellOk(cells[i], i, cap, head, log);
    if |log| <= next < Tail(cap, log) {
      Locate(cells, cap, head, log, next);
    }
  }
}
