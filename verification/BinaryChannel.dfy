/** The bounded single-producer single-consumer queue of byte buffers.  The
    capacity is whatever the caller asked for, so `pos & mask` need not visit
    every cell, nor different cells for neighbouring positions. */
module BinaryChannel {
  import opened Base
  import opened RingIndex

  /** Some position in flight uses the cell of `pos`. */
  ghost predicate Occupied(cap: nat, head: nat, tail: nat, pos: nat)
    requires cap >= 1
  {
    exists p :: head <= p < tail && Idx(p, cap) == Idx(pos, cap)
  }

  /** Positions in flight have cells of their own. */
  ghost predicate Apart(cap: nat, head: nat, tail: nat)
    requires cap >= 1
  {
    forall p, q :: head <= p < q < tail ==> Idx(p, cap) != Idx(q, cap)
  }

  type Cells = seq<Option<seq<Byte>>>

  ghost predicate Used(cap: nat, head: nat, tail: nat, i: nat)
    requires cap >= 1
  {
    exists p :: head <= p < tail && Idx(p, cap) == i
  }

  /** The occupied cells are, one for one, the positions of [head, tail), and hold the queue. */
  ghost predicate Queued(cells: Cells, head: nat, tail: nat, queue: seq<seq<Byte>>) {
    && |cells| >= 1
    && head <= tail && |queue| == tail - head
    && Apart(|cells|, head, tail)
    && (forall p :: head <= p < tail ==> cells[Idx(p, |cells|)] == Some(queue[p - head]))
    && (forall i :: 0 <= i < |cells| && cells[i].Some? ==> Used(|cells|, head, tail, i))
  }

  lemma CellFree(cells: Cells, head: nat, tail: nat, queue: seq<seq<Byte>>)
    requires Queued(cells, head, tail, queue)
    ensures cells[Idx(tail, |cells|)].Some? <==> Occupied(|cells|, head, tail, tail)
  {
    if cells[Idx(tail, |cells|)].Some? { assert Used(|cells|, head, tail, Idx(tail, |cells|)); }
  }

  lemma SendKeeps(cells: Cells, head: nat, tail: nat, queue: seq<seq<Byte>>, item: seq<Byte>)
    requires Queued(cells, head, tail, queue) && cells[Idx(tail, |cells|)].None?
    ensures Queued(cells[Idx(tail, |cells|) := Some(item)], head, tail + 1, queue + [item])
  {
    var cap, idx := |cells|, Idx(tail, |cells|);
    var cells' := cells[idx := Some(item)];
    forall i | 0 <= i < cap && cells'[i].Some? ensures Used(cap, head, tail + 1, i) {
      if i != idx {
        assert Used(cap, head, tail, i);
        var p :| head <= p < tail && Idx(p, cap) == i;
        assert head <= p < tail + 1;
      }
    }
  }

  lemma RecvKeeps(cells: Cells, head: nat, tail: nat, queue: seq<seq<Byte>>)
    requires Queued(cells, head, tail, queue) && head < tail
    ensures Queued(cells[Idx(head, |cells|) := None], head + 1, tail, queue[1..])
  {
    var cap, idx := |cells|, Idx(head, |cells|);
    var cells' := cells[idx := None];
    forall i | 0 <= i < cap && cells'[i].Some? ensures Used(cap, head + 1, tail, i) {
      assert Used(cap, head, tail, i);
      var p :| head <= p < tail && Idx(p, cap) == i;
      assert p != head;
    }
    forall p | head + 1 <= p < tail ensures cells'[Idx(p, cap)] == Some(queue[1..][p - head - 1]) {
      assert Idx(head, cap) != Idx(p, cap);
    }
  }

  class Channel {
    const buffer: array<Option<seq<Byte>>>
    var tail: nat  // the sender's
    var head: nat  // the receiver's
    ghost var queue: seq<seq<Byte>>

    ghost predicate Valid()
      reads this, buffer
    {
      Queued(buffer[..], head, tail, queue)
    }

    constructor (maxMessages: nat)
      requires maxMessages >= 1
      ensures Valid() && fresh(buffer) && buffer.Length == maxMessages && queue == []
    {
      buffer := new Option<seq<Byte>>[maxMessages](_ => None);
      tail, head, queue := 0, 0, [];
    }

    /** Enqueue, or hand the item back, exactly when its cell is still occupied. */
    method Send(item: seq<Byte>) returns (back: Option<seq<Byte>>)
      requires Valid()
      modifies this`tail, this`queue, buffer
      ensures Valid()
      ensures back.Some? <==> old(Occupied(buffer.Length, head, tail, tail))
      ensures back.Some? ==> back.value == item
      ensures back.Some? ==> queue == old(queue) && tail == old(tail) && buffer[..] == old(buffer[..])
      ensures back.None? ==> queue == old(queue) + [item] && tail == old(tail) + 1
    {
      ghost var cells := buffer[..];
      CellFree(cells, head, tail, queue);
      var idx := Idx(tail, buffer.Length);
      assert buffer[idx] == cells[idx];
      if buffer[idx].Some? {
        back := Some(item);
      } else {
        SendKeeps(cells, head, tail, queue, item);
        buffer[idx] := Some(item);
        assert buffer[..] == cells[idx := Some(item)];
        tail := tail + 1;
        queue := queue + [item];
        back := None;
      }
    }

    /** Dequeue the oldest item, if there is one. */
    method Recv() returns (item: Option<seq<Byte>>)
      requires Valid()
      modifies this`head, this`queue, buffer
      ensures Valid()
      ensures old(queue) == [] ==> item == None && queue == []
      ensures old(queue) != [] ==> item == Some(old(queue)[0]) && queue == old(queue)[1..]
    {
      ghost var cells := buffer[..];
      var idx := Idx(head, buffer.Length);
      item := buffer[idx];
      assert item == cells[idx];
      assert item.Some? ==> Used(|cells|, head, tail, idx);
      if item.Some? {
        RecvKeeps(cells, head, tail, queue);
        buffer[idx] := None;
        assert buffer[..] == cells[idx := None];
        head := head + 1;
        queue := queue[1..];
      }
    }
  }

  /** For a power of two, a send is refused exactly with the queue full. */
  lemma RefusedIffFull(cap: nat, head: nat, tail: nat)
    requires cap >= 1 && IsPow2(cap) && head <= tail && Apart(cap, head, tail)
    ensures tail - head <= cap
    ensures Occupied(cap, head, tail, tail) <==> tail - head == cap
  {
    IdxWraps(head, cap);
    if Occupied(cap, head, tail, tail) && tail - head < cap {
      var p :| head <= p < tail && Idx(p, cap) == Idx(tail, cap);
      IdxInjective(p, tail, cap);
    }
  }

  /** The cells of the positions in flight. */
  ghost function CellsUsed(cap: nat, head: nat, tail: nat): set<nat>
    requires cap >= 1 && head <= tail
    decreases tail - head
  {
    if head == tail then {} else CellsUsed(cap, head, tail - 1) + {Idx(tail - 1, cap)}
  }

  lemma UsedSplit(cap: nat, head: nat, tail: nat, i: nat)
    requires cap >= 1 && head < tail
    ensures Used(cap, head, tail, i) <==> Used(cap, head, tail - 1, i) || Idx(tail - 1, cap) == i
  {
    if Used(cap, head, tail - 1, i) {
      var p :| head <= p < tail - 1 && Idx(p, cap) == i;
      assert head <= p < tail;
    }
    if Used(cap, head, tail, i) {
      var p :| head <= p < tail && Idx(p, cap) == i;
      assert p < tail - 1 || p == tail - 1;
    }
  }

  lemma {:induction false} CellsUsedAre(cap: nat, head: nat, tail: nat, i: nat)
    requires cap >= 1 && head <= tail
    ensures i in CellsUsed(cap, head, tail) <==> Used(cap, head, tail, i)
    decreases tail - head
  {
    if head < tail {
      CellsUsedAre(cap, head, tail - 1, i);
      UsedSplit(cap, head, tail, i);
    }
  }

  lemma {:induction false} CellsUsedCount(cap: nat, head: nat, tail: nat)
    requires cap >= 1 && head <= tail && Apart(cap, head, tail)
    ensures |CellsUsed(cap, head, tail)| == tail - head
    decreases tail - head
  {
    if head < tail {
      CellsUsedCount(cap, head, tail - 1);
      LastIsNew(cap, head, tail);
      CellsUsedAre(cap, head, tail - 1, Idx(tail - 1, cap));
    }
  }

  lemma LastIsNew(cap: nat, head: nat, tail: nat)
    requires cap >= 1 && head < tail && Apart(cap, head, tail)
    ensures !Used(cap, head, tail - 1, Idx(tail - 1, cap))
  {
  }

  ghost function AllCells(n: nat): (s: set<nat>)
    ensures |s| == n && forall i: nat :: i in s <==> i < n
  {
    if n == 0 then {} else AllCells(n - 1) + {n - 1}
  }

  /** With any other capacity some cell is never used, so the queue never fills. */
  lemma NeverFull(cap: nat, head: nat, tail: nat)
    requires cap >= 1 && !IsPow2(cap) && head <= tail && Apart(cap, head, tail)
    ensures tail - head < cap
  {
    var unused := UnusedCell(cap);
    CellsUsedCount(cap, head, tail);
    CellsUsedAre(cap, head, tail, unused);
    var used, all := CellsUsed(cap, head, tail), AllCells(cap);
    assert unused in all && unused !in used;
    forall i | i in used ensures i in all { CellsUsedAre(cap, head, tail, i); }
    SubsetSize(used, all);
  }

  /** Sends from an empty queue go on until one is refused, short of the capacity. */
  lemma {:induction false} RefusedShort(cap: nat, tail: nat) returns (n: nat)
    requires cap >= 1 && !IsPow2(cap) && Apart(cap, 0, tail)
    ensures tail <= n < cap && Apart(cap, 0, n) && Occupied(cap, 0, n, n)
    decreases cap - tail
  {
    NeverFull(cap, 0, tail);
    if Occupied(cap, 0, tail, tail) {
      n := tail;
    } else {
      forall p, q | 0 <= p < q < tail + 1 ensures Idx(p, cap) != Idx(q, cap) {
        assert q == tail ==> !(Idx(p, cap) == Idx(tail, cap));
      }
      NeverFull(cap, 0, tail + 1);
      n := RefusedShort(cap, tail + 1);
    }
  }

  /** In every state of the queue, a send is refused exactly with it full. */
  ghost predicate RefusesExactlyFull(cap: nat)
    requires cap >= 1
  {
    forall head: nat, tail: nat :: head <= tail && Apart(cap, head, tail) ==>
      (Occupied(cap, head, tail, tail) <==> tail - head == cap)
  }

  /** The powers of two are exactly the capacities for which that is so. */
  lemma RefusesExactlyFullIff(cap: nat)
    requires cap >= 1
    ensures RefusesExactlyFull(cap) <==> IsPow2(cap)
  {
    if IsPow2(cap) {
      forall head: nat, tail: nat | head <= tail && Apart(cap, head, tail)
        ensures Occupied(cap, head, tail, tail) <==> tail - head == cap
      {
        RefusedIffFull(cap, head, tail);
      }
    } else {
      assert Apart(cap, 0, 0);
      var n := RefusedShort(cap, 0);
    }
  }

  /** Otherwise it can be refused almost empty: with three cells the mask is two,
      so the first two positions share a cell. */
  lemma RefusedEarly()
    ensures Apart(3, 0, 1) && Occupied(3, 0, 1, 1)
  {
    assert BitAnd(0, 2) == 0 && BitAnd(1, 2) == 0;
    assert Idx(0, 3) == Idx(1, 3);
  }
}
