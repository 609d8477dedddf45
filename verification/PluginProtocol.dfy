/** The plugin channel's interleavings, one lock acquisition at a time.

    A push holds the state lock from start to end but locks cells one by one;
    a receiver first reads a cell without the state lock and re-checks it under
    the lock (with the cell's read lock still held) before it parks; a close
    flags cells without the state lock and takes it afterwards to wake
    everybody.  Every such section is one event here. */
module PluginProtocol {
  import opened Base
  import opened RingIndex
  import opened Ring
  import opened PluginSpec
  import opened PluginReceiver

  /** Who holds the state lock. */
  datatype Owner = Free | Pushing | Draining(closer: Option<nat>)

  datatype Pc = Ready | Mismatch | Parked | Done(error: RecvError)

  /** A receiver.  `seen` is one past the last entry it consumed and `out` is
      everything it delivered. */
  datatype Rx = Rx(start: nat, next: nat, seen: nat, wants: Wants, pc: Pc, out: seq<seq<Byte>>)

  datatype World = World(
    cap: nat, head: nat, log: Log, cells: seq<Item<Payload>>,
    owner: Owner, wakers: seq<nat>,
    closers: map<nat, nat>,  // running closes: how many cells each has flagged
    rx: map<nat, Rx>)

  datatype Event =
    | Lock                                          // a push begins
    | Evict                                         // it empties the oldest cell
    | Append(e: Entry<Payload>)                     // it writes the next cell
    | Drain                                         // it turns to the wakers
    | WakeOne
    | Unlock
    | CloseBegin(c: nat)
    | CloseFlag(c: nat)
    | CloseLock(c: nat)
    | Subscribe(r: nat, start: nat, wants: Wants)
    | Look(r: nat)                                  // a cell read without the state lock
    | Recheck(r: nat)                               // the same cell under the state lock
    | Repoll(r: nat)                                // a poll nobody asked for
    | Cancel(r: nat)                                // a receiver is dropped, its waker stays behind

  ghost predicate Shape(w: World) {
    Holds(w.cells, w.cap, w.head, w.log)
  }

  function CellOf(w: World, next: nat): Item<Payload>
    requires w.cap >= 1 && |w.cells| == w.cap
  {
    w.cells[Idx(next, w.cap)]
  }

  ghost predicate Enabled(w: World, e: Event)
    requires Shape(w)
  {
    match e
    case Lock => w.owner == Free
    case Evict => w.owner == Pushing && w.head < Tail(w.cap, w.log)
    case Append(_) => w.owner == Pushing
    case Drain => w.owner == Pushing
    case WakeOne => w.owner.Draining? && w.wakers != []
    case Unlock => w.owner.Draining? && w.wakers == []
    case CloseBegin(c) => c !in w.closers
    case CloseFlag(c) => c in w.closers && w.closers[c] < w.cap
    case CloseLock(c) => w.owner == Free && c in w.closers && w.closers[c] == w.cap
    case Subscribe(r, start, _) => w.owner == Free && r !in w.rx && w.head <= start <= Tail(w.cap, w.log)
    case Look(r) => r in w.rx && w.rx[r].pc == Ready
    case Recheck(r) => w.owner == Free && r in w.rx && w.rx[r].pc == Mismatch
    case Repoll(r) => r in w.rx && w.rx[r].pc == Parked
    case Cancel(r) => r in w.rx
  }

  /** Past the position checks: take what the cell holds. */
  function Consume(x: Rx, c: Item<Payload>): Rx {
    match c.data
    case None => x.(next := x.next + 1, pc := Done(Lagged))
    case Some(e) =>
      x.(next := x.next + 1, seen := x.next + 1, pc := Ready,
         out := x.out + if x.wants.Passes(e.body.kind) then [e.body.bytes] else [])
  }

  function Glance(x: Rx, c: Item<Payload>): Rx {
    if c.closed then x.(pc := Done(Closed))
    else if c.pos != x.next then x.(pc := Mismatch)
    else Consume(x, c)
  }

  function Confirm(x: Rx, c: Item<Payload>): Rx {
    if c.closed then x.(pc := Done(Closed))
    else if c.pos == x.next then Consume(x, c)
    else if c.pos < x.next then x.(pc := Parked)
    else x.(pc := Done(Lagged))
  }

  ghost function Apply(w: World, e: Event): World
    requires Shape(w) && Enabled(w, e)
  {
    match e
    case Lock => w.(owner := Pushing)
    case Evict =>
      var h := Idx(w.head, w.cap);
      w.(cells := w.cells[h := w.cells[h].(data := None)], head := w.head + 1)
    case Append(entry) =>
      var t := Idx(Tail(w.cap, w.log), w.cap);
      w.(cells := w.cells[t := Item(Tail(w.cap, w.log), entry.slot, Some(entry), w.cells[t].closed)],
         head := if w.head == |w.log| then w.head + 1 else w.head,
         log := w.log + [entry])
    case Drain => w.(owner := Draining(None))
    case WakeOne =>
      var r := w.wakers[0];
      w.(wakers := w.wakers[1..],
         rx := if r in w.rx && w.rx[r].pc == Parked then w.rx[r := w.rx[r].(pc := Ready)] else w.rx)
    case Unlock =>
      w.(owner := Free,
         closers := if w.owner.closer.Some? then w.closers - {w.owner.closer.value} else w.closers)
    case CloseBegin(c) => w.(closers := w.closers[c := 0])
    case CloseFlag(c) =>
      var i := w.closers[c];
      w.(cells := w.cells[i := w.cells[i].(closed := true)], closers := w.closers[c := i + 1])
    case CloseLock(c) => w.(owner := Draining(Some(c)))
    case Subscribe(r, start, wants) => w.(rx := w.rx[r := Rx(start, start, start, wants, Ready, [])])
    case Look(r) => w.(rx := w.rx[r := Glance(w.rx[r], CellOf(w, w.rx[r].next))])
    case Recheck(r) =>
      var x := Confirm(w.rx[r], CellOf(w, w.rx[r].next));
      w.(rx := w.rx[r := x], wakers := if x.pc == Parked then w.wakers + [r] else w.wakers)
    case Repoll(r) => w.(rx := w.rx[r := w.rx[r].(pc := Ready)])
    case Cancel(r) => w.(rx := w.rx - {r})
  }

  // ---------------------------------------------------------------------------
  // The invariant
  // ---------------------------------------------------------------------------

  /** A close is under way that has flagged cell `i` and not woken everybody yet. */
  ghost predicate CloseRunning(closers: map<nat, nat>, i: nat) {
    exists c :: c in closers && closers[c] > i
  }

  /** What a receiver has delivered is exactly what it wants of what it passed. */
  ghost predicate Faithful(w: World, x: Rx) {
    && w.cap <= x.start <= x.seen <= x.next <= Tail(w.cap, w.log)
    && x.out == Wanted(x.wants, w.log[x.start - w.cap..x.seen - w.cap])
    && (!x.pc.Done? ==> x.next == x.seen)
    && (x.pc == Done(Lagged) ==> x.seen < w.head)
  }

  /** A parked receiver will be woken: its waker is registered, and if there is
      news for it somebody still holds the lock or is closing. */
  ghost predicate Awaited(w: World, r: nat)
    requires Shape(w) && r in w.rx
  {
    w.rx[r].pc == Parked ==>
      && r in w.wakers
      && (w.rx[r].next < Tail(w.cap, w.log) ==> w.owner != Free)
      && (CellOf(w, w.rx[r].next).closed ==> CloseRunning(w.closers, Idx(w.rx[r].next, w.cap)))
  }

  ghost predicate Inv(w: World) {
    && Shape(w)
    && (forall c :: c in w.closers ==> w.closers[c] <= w.cap)
    && (w.owner.Draining? && w.owner.closer.Some? ==>
          w.owner.closer.value in w.closers && w.closers[w.owner.closer.value] == w.cap)
    && (forall r :: r in w.rx ==> Faithful(w, w.rx[r]))
    && (forall r :: r in w.rx ==> Awaited(w, r))
  }

  lemma WantedNext(wants: Wants, log: Log, lo: nat, hi: nat)
    requires lo <= hi < |log|
    ensures Wanted(wants, log[lo..hi + 1])
         == Wanted(wants, log[lo..hi]) + if wants.Passes(log[hi].body.kind) then [log[hi].body.bytes] else []
  {
    assert log[lo..hi + 1][..hi - lo] == log[lo..hi];
  }

  lemma ConsumeFaithful(w: World, x: Rx)
    requires Shape(w) && Faithful(w, x) && !x.pc.Done?
    requires CellOf(w, x.next).pos == x.next
    ensures Faithful(w, Consume(x, CellOf(w, x.next)))
    ensures x.next < Tail(w.cap, w.log)
  {
    var c := CellOf(w, x.next);
    ReadExact(w.cells, w.cap, w.head, w.log, x.next);
    assert if w.head <= x.next then c.data == Some(w.log[x.next - w.cap]) else c.data.None?;
    if w.head <= x.next { ConsumedFaithful(w, x, c); }
  }

  lemma ConsumedFaithful(w: World, x: Rx, c: Item<Payload>)
    requires Faithful(w, x) && !x.pc.Done? && x.next < Tail(w.cap, w.log) && c.data == Some(w.log[x.next - w.cap])
    ensures Faithful(w, Consume(x, c))
  {
    WantedNext(x.wants, w.log, x.start - w.cap, x.next - w.cap);
  }

  lemma GrowFaithful(w: World, w': World, x: Rx)
    requires Faithful(w, x) && w'.cap == w.cap && w.head <= w'.head && w.log <= w'.log
    ensures Faithful(w', x)
  {
    assert w'.log[x.start - w.cap..x.seen - w.cap] == w.log[x.start - w.cap..x.seen - w.cap];
  }

  lemma EvictKeeps(w: World)
    requires Inv(w) && Enabled(w, Evict)
    ensures Inv(Apply(w, Evict))
  {
    var w' := Apply(w, Evict);
    TakeHead(w.cells, w.cap, w.head, w.log, w'.cells);
    forall r | r in w'.rx ensures Faithful(w', w'.rx[r]) && Awaited(w', r) {
      GrowFaithful(w, w', w.rx[r]);
      assert Awaited(w, r);
    }
  }

  lemma AppendKeeps(w: World, e: Entry<Payload>)
    requires Inv(w) && Enabled(w, Append(e))
    ensures Inv(Apply(w, Append(e)))
  {
    var w' := Apply(w, Append(e));
    StoreTail(w.cells, w.cap, w.head, w.log, e, w'.cells, w'.head);
    forall r | r in w'.rx ensures Faithful(w', w'.rx[r]) && Awaited(w', r) {
      GrowFaithful(w, w', w.rx[r]);
      assert Awaited(w, r);
    }
  }

  lemma WakeAwaited(w: World, w': World, r: nat)
    requires Inv(w) && Enabled(w, WakeOne) && w' == Apply(w, WakeOne) && Shape(w') && r in w'.rx
    ensures Awaited(w', r)
  {
    assert Awaited(w, r);
    assert r in w.wakers ==> r == w.wakers[0] || r in w'.wakers;
  }

  lemma WakeKeeps(w: World)
    requires Inv(w) && Enabled(w, WakeOne)
    ensures Inv(Apply(w, WakeOne))
  {
    var w' := Apply(w, WakeOne);
    forall r | r in w'.rx ensures Faithful(w', w'.rx[r]) { assert Faithful(w, w.rx[r]); }
    forall r | r in w'.rx ensures Awaited(w', r) { WakeAwaited(w, w', r); }
  }

  /** Whoever releases the lock leaves nobody parked. */
  lemma UnlockKeeps(w: World)
    requires Inv(w) && Enabled(w, Unlock)
    ensures Inv(Apply(w, Unlock))
    ensures forall r :: r in Apply(w, Unlock).rx ==> Apply(w, Unlock).rx[r].pc != Parked
  {
    var w' := Apply(w, Unlock);
    forall r | r in w'.rx ensures Faithful(w', w'.rx[r]) && w'.rx[r].pc != Parked {
      assert Faithful(w, w.rx[r]) && Awaited(w, r);
    }
  }

  lemma FlagHolds(cells: seq<Item<Payload>>, cap: nat, head: nat, log: Log, i: nat)
    requires Holds(cells, cap, head, log) && i < cap
    ensures Holds(cells[i := cells[i].(closed := true)], cap, head, log)
  {
    var cells' := cells[i := cells[i].(closed := true)];
    forall j | 0 <= j < cap ensures CellOk(cells'[j], j, cap, head, log) {
      assert CellOk(cells[j], j, cap, head, log);
    }
  }

  /** All receivers stay as they are. */
  lemma SameReceivers(w: World, w': World)
    requires Inv(w) && w'.rx == w.rx && (w'.cap, w'.head, w'.log) == (w.cap, w.head, w.log)
    ensures forall r :: r in w'.rx ==> Faithful(w', w'.rx[r])
  {
    forall r | r in w'.rx ensures Faithful(w', w'.rx[r]) { FaithfulFrame(w, w', w.rx[r]); }
  }

  lemma FlagAwaited(w: World, c: nat, w': World, r: nat)
    requires Inv(w) && Enabled(w, CloseFlag(c)) && w' == Apply(w, CloseFlag(c)) && Shape(w') && r in w.rx
    ensures Awaited(w', r)
  {
    assert Awaited(w, r);
    CloseRunningGrows(w.closers, c, Idx(w.rx[r].next, w.cap));
  }

  lemma CloseFlagKeeps(w: World, c: nat)
    requires Inv(w) && Enabled(w, CloseFlag(c))
    ensures Inv(Apply(w, CloseFlag(c)))
  {
    var w' := Apply(w, CloseFlag(c));
    FlagHolds(w.cells, w.cap, w.head, w.log, w.closers[c]);
    SameReceivers(w, w');
    forall r | r in w'.rx ensures Awaited(w', r) { FlagAwaited(w, c, w', r); }
  }

  lemma CloseRunningGrows(closers: map<nat, nat>, c: nat, i: nat)
    requires c in closers
    ensures CloseRunning(closers, i) || closers[c] == i ==> CloseRunning(closers[c := closers[c] + 1], i)
  {
    var closers' := closers[c := closers[c] + 1];
    if closers[c] == i {
      assert closers'[c] > i;
    } else if CloseRunning(closers, i) {
      var d :| d in closers && closers[d] > i;
      assert d in closers' && closers'[d] > i;
    }
  }

  lemma BeginAwaited(w: World, c: nat, w': World, r: nat)
    requires Inv(w) && Enabled(w, CloseBegin(c)) && w' == Apply(w, CloseBegin(c)) && Shape(w') && r in w.rx
    ensures Awaited(w', r)
  {
    assert Awaited(w, r);
    var i := Idx(w.rx[r].next, w.cap);
    if CloseRunning(w.closers, i) {
      var d :| d in w.closers && w.closers[d] > i;
      assert d in w'.closers && w'.closers[d] > i;
    }
  }

  lemma CloseBeginKeeps(w: World, c: nat)
    requires Inv(w) && Enabled(w, CloseBegin(c))
    ensures Inv(Apply(w, CloseBegin(c)))
  {
    var w' := Apply(w, CloseBegin(c));
    SameReceivers(w, w');
    forall r | r in w'.rx ensures Awaited(w', r) { BeginAwaited(w, c, w', r); }
  }

  /** Only receiver `r0` changes, to a state that is in order. */
  lemma ReceiverKeeps(w: World, r0: nat, x: Rx, w': World)
    requires Inv(w) && Faithful(w, x)
    requires w' == w.(rx := w.rx[r0 := x], wakers := w'.wakers)
    requires forall r :: r in w.wakers ==> r in w'.wakers
    requires Awaited(w', r0)
    ensures Inv(w')
  {
    forall r | r in w'.rx ensures Faithful(w', w'.rx[r]) {
      FaithfulFrame(w, w', w'.rx[r]);
    }
    forall r | r in w'.rx ensures Awaited(w', r) {
      if r != r0 { assert Awaited(w, r); }
    }
  }

  lemma FaithfulFrame(w: World, w': World, x: Rx)
    requires Faithful(w, x) && (w'.cap, w'.head, w'.log) == (w.cap, w.head, w.log)
    ensures Faithful(w', x)
  {
  }

  lemma GlanceFaithful(w: World, x: Rx)
    requires Shape(w) && Faithful(w, x) && !x.pc.Done?
    ensures Faithful(w, Glance(x, CellOf(w, x.next)))
  {
    if CellOf(w, x.next).pos == x.next { ConsumeFaithful(w, x); }
  }

  lemma ConfirmFaithful(w: World, x: Rx)
    requires Shape(w) && Faithful(w, x) && !x.pc.Done?
    ensures Faithful(w, Confirm(x, CellOf(w, x.next)))
    ensures Confirm(x, CellOf(w, x.next)).pc == Parked ==>
      x.next == Tail(w.cap, w.log) && !CellOf(w, x.next).closed
  {
    ReadExact(w.cells, w.cap, w.head, w.log, x.next);
    if CellOf(w, x.next).pos == x.next { ConsumeFaithful(w, x); }
  }

  lemma LookKeeps(w: World, r0: nat)
    requires Inv(w) && Enabled(w, Look(r0))
    ensures Inv(Apply(w, Look(r0)))
  {
    var x := w.rx[r0];
    GlanceFaithful(w, x);
    ReceiverKeeps(w, r0, Glance(x, CellOf(w, x.next)), Apply(w, Look(r0)));
  }

  lemma RecheckKeeps(w: World, r0: nat)
    requires Inv(w) && Enabled(w, Recheck(r0))
    ensures Inv(Apply(w, Recheck(r0)))
  {
    var x := w.rx[r0];
    ConfirmFaithful(w, x);
    ReceiverKeeps(w, r0, Confirm(x, CellOf(w, x.next)), Apply(w, Recheck(r0)));
  }

  lemma SubscribeKeeps(w: World, e: Event)
    requires Inv(w) && Enabled(w, e) && e.Subscribe?
    ensures Inv(Apply(w, e))
  {
    var x := Rx(e.start, e.start, e.start, e.wants, Ready, []);
    assert w.log[e.start - w.cap..e.start - w.cap] == [];
    ReceiverKeeps(w, e.r, x, Apply(w, e));
  }

  /** Somebody takes the state lock, or goes on holding it. */
  lemma OwnerKeeps(w: World, w': World)
    requires Inv(w) && w' == w.(owner := w'.owner) && w'.owner != Free
    requires w'.owner.Draining? && w'.owner.closer.Some? ==>
      w'.owner.closer.value in w.closers && w.closers[w'.owner.closer.value] == w.cap
    ensures Inv(w')
  {
    SameReceivers(w, w');
    forall r | r in w'.rx ensures Awaited(w', r) { assert Awaited(w, r); }
  }

  lemma RepollKeeps(w: World, r0: nat)
    requires Inv(w) && Enabled(w, Repoll(r0))
    ensures Inv(Apply(w, Repoll(r0)))
  {
    assert Faithful(w, w.rx[r0]);
    ReceiverKeeps(w, r0, w.rx[r0].(pc := Ready), Apply(w, Repoll(r0)));
  }

  lemma CancelKeeps(w: World, r0: nat)
    requires Inv(w) && Enabled(w, Cancel(r0))
    ensures Inv(Apply(w, Cancel(r0)))
  {
    var w' := Apply(w, Cancel(r0));
    forall r | r in w'.rx ensures Faithful(w', w'.rx[r]) { FaithfulFrame(w, w', w.rx[r]); }
    forall r | r in w'.rx ensures Awaited(w', r) { assert Awaited(w, r); }
  }

  /** Every event keeps the invariant, extends the log and only advances `head`. */
  lemma StepKeeps(w: World, e: Event)
    requires Inv(w) && Enabled(w, e)
    ensures Inv(Apply(w, e))
    ensures w.log <= Apply(w, e).log && w.head <= Apply(w, e).head && Apply(w, e).cap == w.cap
  {
    match e
    case Evict => EvictKeeps(w);
    case Append(entry) => AppendKeeps(w, entry);
    case WakeOne => WakeKeeps(w);
    case Unlock => UnlockKeeps(w);
    case CloseBegin(c) => CloseBeginKeeps(w, c);
    case CloseFlag(c) => CloseFlagKeeps(w, c);
    case Subscribe(_, _, _) => SubscribeKeeps(w, e);
    case Look(r) => LookKeeps(w, r);
    case Recheck(r) => RecheckKeeps(w, r);
    case Cancel(r) => CancelKeeps(w, r);
    case Repoll(r) => RepollKeeps(w, r);
    case _ => OwnerKeeps(w, Apply(w, e));
  }

  // ---------------------------------------------------------------------------
  // All runs
  // ---------------------------------------------------------------------------

  /** `es` can happen from `w` and leads to `w'`. */
  ghost predicate Leads(w: World, es: seq<Event>, w': World)
    decreases |es|
  {
    if es == [] then w == w'
    else Shape(w) && Enabled(w, es[0]) && Leads(Apply(w, es[0]), es[1..], w')
  }

  ghost predicate Fresh(w: World) {
    && w.cap >= 1 && IsPow2(w.cap) && |w.cells| == w.cap
    && (forall i :: 0 <= i < w.cap ==> w.cells[i] == Item(i, 0, None, false))
    && w.head == w.cap && w.log == [] && w.owner == Free && w.wakers == []
    && w.closers == map[] && w.rx == map[]
  }

  lemma {:induction false} RunKeeps(w: World, es: seq<Event>, w': World)
    requires Inv(w) && Leads(w, es, w')
    ensures Inv(w') && w.log <= w'.log && w.head <= w'.head && w.cap == w'.cap
    decreases |es|
  {
    if es != [] {
      StepKeeps(w, es[0]);
      RunKeeps(Apply(w, es[0]), es[1..], w');
    }
  }

  /** Whatever the interleaving, a stream that started at `start` has delivered
      exactly the wanted entries of `start`, `start + 1`, … `seen - 1`: no gap, no
      duplicate, no reordering.  Until it fails it has passed everything below
      its next position, and it fails as lagged only with that position evicted. */
  lemma StreamIsLog(w0: World, es: seq<Event>, w: World, r: nat)
    requires Fresh(w0) && Leads(w0, es, w) && r in w.rx
    ensures var x := w.rx[r];
      && w.cap <= x.start <= x.seen <= Tail(w.cap, w.log)
      && x.out == Wanted(x.wants, w.log[x.start - w.cap..x.seen - w.cap])
      && (!x.pc.Done? ==> x.seen == x.next)
      && (x.pc == Done(Lagged) ==> x.seen < w.head)
  {
    FreshHolds(w0.cells, w0.cap);
    RunKeeps(w0, es, w);
  }

  /** Under the lock the outcome is exact: lagged exactly below `head`, parked
      exactly at the tail, and otherwise the log's own entry is consumed. */
  lemma RecheckExact(w0: World, es: seq<Event>, w: World, r: nat)
    requires Fresh(w0) && Leads(w0, es, w)
    requires Shape(w) && Enabled(w, Recheck(r))
    requires !CellOf(w, w.rx[r].next).closed
    ensures var x, x' := w.rx[r], Apply(w, Recheck(r)).rx[r];
      && (x'.pc == Done(Lagged) <==> x.next < w.head)
      && (x'.pc == Parked <==> x.next == Tail(w.cap, w.log))
      && (x'.pc == Ready <==> w.head <= x.next < Tail(w.cap, w.log))
      && (x'.pc == Ready ==> x'.seen == x.next + 1)
  {
    FreshHolds(w0.cells, w0.cap);
    RunKeeps(w0, es, w);
    assert Faithful(w, w.rx[r]);
    ReadExact(w.cells, w.cap, w.head, w.log, w.rx[r].next);
  }

  /** Without the lock a read may see any moment of a push, and is still exact:
      only a position outside [head, tail) sends the receiver to the lock. */
  lemma LookExact(w0: World, es: seq<Event>, w: World, r: nat)
    requires Fresh(w0) && Leads(w0, es, w)
    requires Shape(w) && Enabled(w, Look(r))
    requires !CellOf(w, w.rx[r].next).closed
    ensures var x, x' := w.rx[r], Apply(w, Look(r)).rx[r];
      && (x'.pc == Ready <==> w.head <= x.next < Tail(w.cap, w.log))
      && (x'.pc == Done(Lagged) ==> x.next < w.head)
      && (x.next == Tail(w.cap, w.log) ==> x'.pc == Mismatch)
  {
    FreshHolds(w0.cells, w0.cap);
    RunKeeps(w0, es, w);
    assert Faithful(w, w.rx[r]);
    ReadExact(w.cells, w.cap, w.head, w.log, w.rx[r].next);
  }

  /** No wake-up is lost: a parked receiver is registered, and once no push and
      no close is running there is nothing it has missed: it waits at the very
      tail, before a cell that is not closed. */
  lemma NoLostWakeup(w0: World, es: seq<Event>, w: World, r: nat)
    requires Fresh(w0) && Leads(w0, es, w) && r in w.rx && w.rx[r].pc == Parked
    ensures r in w.wakers
    ensures Shape(w)
    ensures w.owner == Free && w.closers == map[] ==>
      w.rx[r].next == Tail(w.cap, w.log) && !CellOf(w, w.rx[r].next).closed
  {
    FreshHolds(w0.cells, w0.cap);
    RunKeeps(w0, es, w);
    assert Awaited(w, r) && Faithful(w, w.rx[r]);
  }

  // ---------------------------------------------------------------------------
  // A push is made of these events
  // ---------------------------------------------------------------------------

  ghost function Evictions(n: nat): (es: seq<Event>)
    ensures |es| == n
  {
    if n == 0 then [] else [Evict] + Evictions(n - 1)
  }

  lemma LeadsFrom(w: World, e: Event, es: seq<Event>, w': World)
    requires Shape(w) && Enabled(w, e) && Leads(Apply(w, e), es, w')
    ensures Leads(w, [e] + es, w')
  {
    assert ([e] + es)[1..] == es;
  }

  lemma {:induction false} EvictionsThenAppend(w: World, n: nat, e: Entry<Payload>) returns (w': World)
    requires Inv(w) && w.owner == Pushing && w.head + n <= Tail(w.cap, w.log)
    ensures Leads(w, Evictions(n) + [Append(e)], w')
    ensures w'.log == w.log + [e] && w'.head == Max(w.head + n, |w.log| + 1)
    decreases n
  {
    if n == 0 {
      w' := Apply(w, Append(e));
      assert Evictions(0) + [Append(e)] == [Append(e)] + [];
      LeadsFrom(w, Append(e), [], w');
    } else {
      EvictKeeps(w);
      w' := EvictionsThenAppend(Apply(w, Evict), n - 1, e);
      assert Evictions(n) + [Append(e)] == [Evict] + (Evictions(n - 1) + [Append(e)]);
      LeadsFrom(w, Evict, Evictions(n - 1) + [Append(e)], w');
    }
  }

  lemma PushedHead(c: Chan, m: Notice, data: seq<Byte>)
    requires ChanOk(c) && AfterPush(c, m, data).Some?
    ensures var c' := AfterPush(c, m, data).value;
      && c'.log == c.log + [ToEntry(m, data)]
      && c.head <= c'.head <= Tail(c.cap, c.log) && c'.head >= |c.log| + 1
  {
    PushKeepsChannel(c, m, data);
  }

  /** From `w`, `n` evictions and an append lead to `w'`, with this head and log. */
  ghost predicate Pushed(w: World, n: nat, e: Entry<Payload>, w': World, head: nat, log: Log) {
    Leads(w, Evictions(n) + [Append(e)], w') && w'.head == head && w'.log == log
  }

  lemma PushedExists(w: World, head: nat, e: Entry<Payload>, log: Log)
    requires Inv(w) && w.owner == Pushing && log == w.log + [e]
    requires w.head <= head <= Tail(w.cap, w.log) && head >= |w.log| + 1
    ensures exists n: nat, w': World :: Pushed(w, n, e, w', head, log)
  {
    var n := head - w.head;
    var w' := EvictionsThenAppend(w, n, e);
    assert Pushed(w, n, e, w', head, log);
  }

  /** What `AfterPush` says of `head` and the log is reached by evictions and one append. */
  lemma PushIsEvents(c: Chan, m: Notice, data: seq<Byte>, w: World)
    requires ChanOk(c) && AfterPush(c, m, data).Some?
    requires Inv(w) && w.owner == Pushing && (w.cap, w.head, w.log) == (c.cap, c.head, c.log)
    ensures var c' := AfterPush(c, m, data).value;
      exists n: nat, w': World :: Pushed(w, n, ToEntry(m, data), w', c'.head, c'.log)
  {
    PushedHead(c, m, data);
    var c' := AfterPush(c, m, data).value;
    PushedExists(w, c'.head, ToEntry(m, data), c'.log);
  }
}
