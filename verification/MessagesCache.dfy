/** The per-worker cache in front of a richat ring. */
module MessagesCache {
  import opened Base
  import opened RingIndex
  import opened Ring
  import opened RichatRing

  /** Subtraction of 64-bit words, which wraps in a release build. */
  function WrappingSub(a: nat, b: nat): nat
    requires a <= U64_MAX && b <= U64_MAX
  {
    if a >= b then a - b else a + U64_MAX + 1 - b
  }

  /** A cached message under its position; an empty cell has position `U64_MAX`. */
  datatype Cached<T> = Cached(pos: nat, msg: Option<Entry<T>>)

  ghost predicate CellAgrees<T>(c: Cached<T>, i: nat, size: nat, cap: nat, log: seq<Entry<T>>)
    requires size >= 1
  {
    c.pos != U64_MAX ==>
      Idx(c.pos, size) == i && cap <= c.pos < Tail(cap, log) && c.msg == Some(log[c.pos - cap])
  }

  /** Whatever is cached is the log's own entry. */
  ghost predicate Agree<T>(cells: seq<Cached<T>>, cap: nat, log: seq<Entry<T>>) {
    && 1 <= |cells| <= U64_MAX && IsPow2(|cells|)
    && forall i :: 0 <= i < |cells| ==>
         CellAgrees(cells[i], i, |cells|, cap, log) && (cells[i].pos == U64_MAX ==> cells[i].msg.None?)
  }

  /** Position `p` is cached. */
  ghost predicate Has<T>(cells: seq<Cached<T>>, p: nat) {
    exists i :: 0 <= i < |cells| && cells[i].pos == p
  }

  /** The cache stays right while the log grows. */
  lemma AgreeGrows<T>(cells: seq<Cached<T>>, cap: nat, log: seq<Entry<T>>, log': seq<Entry<T>>)
    requires Agree(cells, cap, log) && log <= log'
    ensures Agree(cells, cap, log')
  {
    forall i | 0 <= i < |cells| ensures CellAgrees(cells[i], i, |cells|, cap, log') {
      assert CellAgrees(cells[i], i, |cells|, cap, log);
    }
  }

  /** Caching `h` displaces nothing of the window it lies in. */
  lemma StoreInWindow<T>(cells: seq<Cached<T>>, cap: nat, log: seq<Entry<T>>, h: nat, mark: nat)
    requires Agree(cells, cap, log) && cap <= h < Tail(cap, log) <= U64_MAX
    requires h <= mark < h + |cells|
    ensures var cells' := cells[Idx(h, |cells|) := Cached(h, Some(log[h - cap]))];
      && Agree(cells', cap, log)
      && forall p: nat :: Has(cells, p) && p != U64_MAX && p <= mark < p + |cells| ==> Has(cells', p)
  {
    var idx := Idx(h, |cells|);
    var cells' := cells[idx := Cached(h, Some(log[h - cap]))];
    forall p: nat | Has(cells, p) && p != U64_MAX && p <= mark < p + |cells| ensures Has(cells', p) {
      var i :| 0 <= i < |cells| && cells[i].pos == p;
      assert CellAgrees(cells[i], i, |cells|, cap, log);
      if i == idx { IdxInjective(p, h, |cells|); }
      assert cells'[i].pos == p;
    }
  }

  // ---------------------------------------------------------------------------
  // One request
  // ---------------------------------------------------------------------------

  function MarkAfter(mark: nat, h: nat): nat { if h > mark then h else mark }

  predicate InRange(mark: nat, h: nat, size: nat)
    requires 1 <= size <= U64_MAX && mark <= U64_MAX
  {
    h >= WrappingSub(mark, size - 1)
  }

  /** What the cache says about position `h`, and its cells afterwards, when the
      ring says `answer`. */
  function Lookup<T>(cells: seq<Cached<T>>, mark: nat, h: nat, answer: Result<Option<Entry<T>>, RecvError>)
    : (r: (Result<Option<Entry<T>>, RecvError>, seq<Cached<T>>))
    requires 1 <= |cells| <= U64_MAX && mark <= U64_MAX && h <= U64_MAX
    ensures |r.1| == |cells|
  {
    var idx, inRange := Idx(h, |cells|), InRange(MarkAfter(mark, h), h, |cells|);
    if inRange && cells[idx].pos == h then (Ok(cells[idx].msg), cells)
    else if answer.Ok? && answer.value.Some? && inRange then (answer, cells[idx := Cached(h, answer.value)])
    else (answer, cells)
  }

  /** Anything returned is the log's entry at `h`; otherwise the answer is the
      ring's own.  Nothing cached inside the window that ends at the high-water
      mark is displaced. */
  lemma LookupRefines<T>(cells: seq<Cached<T>>, mark: nat, cap: nat, head: nat, log: seq<Entry<T>>, h: nat, seen: nat)
    requires Agree(cells, cap, log) && mark <= U64_MAX && h <= U64_MAX
    requires cap <= head <= Tail(cap, log) <= U64_MAX && seen <= Tail(cap, log)
    ensures var (r, cells') := Lookup(cells, mark, h, Answer(cap, head, log, h, seen));
      && Agree(cells', cap, log)
      && (r.Ok? && r.value.Some? ==> cap <= h < Tail(cap, log) && r.value.value == log[h - cap])
      && (r.Err? ==> h < seen && h < head)
      && (r == Ok(None) ==> h >= seen)
      && (head <= h < seen ==> r == Ok(Some(log[h - cap])))
      && forall p: nat :: Has(cells, p) && p != U64_MAX && p <= MarkAfter(mark, h) < p + |cells| ==> Has(cells', p)
  {
    var idx := Idx(h, |cells|);
    assert CellAgrees(cells[idx], idx, |cells|, cap, log);
    if InRange(MarkAfter(mark, h), h, |cells|) && cells[idx].pos != h && head <= h < seen {
      StoreInWindow(cells, cap, log, h, MarkAfter(mark, h));
    }
  }

  /** The mark has come a whole cache far, and `h` is one of its last `size` positions. */
  ghost predicate InWindow(mark: nat, h: nat, size: nat) {
    h <= mark < h + size && size <= mark + 1
  }

  lemma InRangeMeans(mark: nat, h: nat, size: nat)
    requires 1 <= size <= U64_MAX && h <= mark <= U64_MAX
    ensures InRange(mark, h, size) <==> InWindow(mark, h, size)
  {
  }

  /** Inside the window what the ring gives is kept, and what is kept is given out
      whatever the ring says; outside of it the cache is left alone. */
  lemma LookupRemembers<T>(cells: seq<Cached<T>>, mark: nat, cap: nat, log: seq<Entry<T>>, h: nat,
      answer: Result<Option<Entry<T>>, RecvError>)
    requires Agree(cells, cap, log) && mark <= U64_MAX && h <= U64_MAX
    ensures var (r, cells') := Lookup(cells, mark, h, answer);
      if InWindow(if h > mark then h else mark, h, |cells|) then
        && (r.Ok? && r.value.Some? ==> Has(cells', h))
        && (h != U64_MAX && Has(cells, h) ==> cap <= h < Tail(cap, log) && r == Ok(Some(log[h - cap])))
      else
        cells' == cells
  {
    var idx := Idx(h, |cells|);
    var (r, cells') := Lookup(cells, mark, h, answer);
    InRangeMeans(MarkAfter(mark, h), h, |cells|);
    if h != U64_MAX && Has(cells, h) {
      var i :| 0 <= i < |cells| && cells[i].pos == h;
      assert CellAgrees(cells[i], i, |cells|, cap, log);
    }
    if InRange(MarkAfter(mark, h), h, |cells|) && r.Ok? && r.value.Some? {
      assert cells'[idx].pos == h;
    }
  }

  class Cache<T> {
    const buffer: array<Cached<T>>
    var head: nat

    constructor (maxMessages: nat, ghost cap: nat, ghost log: seq<Entry<T>>)
      requires NextPow2(maxMessages) <= U64_MAX
      ensures Agree(buffer[..], cap, log) && head == 0
      ensures fresh(buffer) && buffer.Length == NextPow2(maxMessages)
    {
      buffer := new Cached<T>[NextPow2(maxMessages)](_ => Cached(U64_MAX, None));
      head := 0;
    }

    /** Receive position `h`.  Anything returned is the log's entry at `h`; otherwise the
        answer is the ring's own.  Nothing cached inside the window that ends at the
        high-water mark is displaced, and no answer of the ring is kept from the client. */
    method TryRecv(ring: SenderShared<T>, h: nat, seen: nat) returns (r: Result<Option<Entry<T>>, RecvError>)
      requires ring.Valid() && ring.tail <= U64_MAX && ring.buffer as object != buffer
      requires Agree(buffer[..], ring.cap, ring.log) && head <= U64_MAX && h <= U64_MAX && seen <= ring.publishedTail
      modifies this`head, buffer
      ensures (r, buffer[..]) == Lookup(old(buffer[..]), old(head), h, Answer(ring.cap, ring.head, ring.log, h, seen))
      ensures Agree(buffer[..], ring.cap, ring.log) && head <= U64_MAX
      ensures head == MarkAfter(old(head), h)
      ensures head == if h > old(head) then h else old(head)
      ensures InWindow(head, h, buffer.Length) && r.Ok? && r.value.Some? ==> Has(buffer[..], h)
      ensures InWindow(head, h, buffer.Length) && h != U64_MAX && Has(old(buffer[..]), h) ==>
        ring.cap <= h < ring.tail && r == Ok(Some(ring.log[h - ring.cap]))
      ensures !InWindow(head, h, buffer.Length) ==> buffer[..] == old(buffer[..])
      ensures r.Ok? && r.value.Some? ==>
        ring.cap <= h < ring.tail && r.value.value == ring.log[h - ring.cap]
      ensures r == Err(Lagged) ==> h < seen && h < ring.head
      ensures r == Ok(None) ==> h >= seen
      ensures ring.head <= h < seen ==> r == Ok(Some(ring.log[h - ring.cap]))
      ensures forall p: nat :: Has(old(buffer[..]), p) && p != U64_MAX && p <= head < p + buffer.Length ==>
        Has(buffer[..], p)
    {
      LookupRefines(buffer[..], head, ring.cap, ring.head, ring.log, h, seen);
      LookupRemembers(buffer[..], head, ring.cap, ring.log, h, Answer(ring.cap, ring.head, ring.log, h, seen));
      var hit := Probe(h);
      if hit.Some? { return Ok(hit.value); }
      r := ring.TryRecv(h, seen);
      Save(h, r);
    }

    /** Raise the high-water mark and look into the cache. */
    method Probe(h: nat) returns (hit: Option<Option<Entry<T>>>)
      requires 1 <= buffer.Length <= U64_MAX && head <= U64_MAX && h <= U64_MAX
      modifies this`head
      ensures head == MarkAfter(old(head), h)
      ensures hit.Some? <==> InRange(head, h, buffer.Length) && buffer[Idx(h, buffer.Length)].pos == h
      ensures hit.Some? ==> hit.value == buffer[Idx(h, buffer.Length)].msg
    {
      if h > head { head := h; }
      var inRange := h >= WrappingSub(head, buffer.Length - 1);
      var idx := Idx(h, buffer.Length);
      hit := if inRange && buffer[idx].pos == h then Some(buffer[idx].msg) else None;
    }

    /** Keep a message the ring gave, if its position is in range. */
    method Save(h: nat, r: Result<Option<Entry<T>>, RecvError>)
      requires 1 <= buffer.Length <= U64_MAX && head <= U64_MAX && h <= U64_MAX
      modifies buffer
      ensures buffer[..] ==
        if r.Ok? && r.value.Some? && InRange(head, h, buffer.Length)
        then old(buffer[..])[Idx(h, buffer.Length) := Cached(h, r.value)] else old(buffer[..])
    {
      var inRange := h >= WrappingSub(head, buffer.Length - 1);
      var idx := Idx(h, buffer.Length);
      if r.Ok? && r.value.Some? && inRange { buffer[idx] := Cached(h, r.value); }
    }

    /** The cache's part of a request for position `h`, when the ring says `answer`. */
    method Ask(h: nat, answer: Result<Option<Entry<T>>, RecvError>) returns (r: Result<Option<Entry<T>>, RecvError>)
      requires 1 <= buffer.Length <= U64_MAX && head <= U64_MAX && h <= U64_MAX
      modifies this`head, buffer
      ensures (r, buffer[..]) == Lookup(old(buffer[..]), old(head), h, answer)
      ensures head == MarkAfter(old(head), h)
    {
      var hit := Probe(h);
      if hit.Some? { return Ok(hit.value); }
      r := answer;
      Save(h, r);
    }

    /** Ask while the ring is as in `now`. */
    method Request(h: nat, answer: Result<Option<Entry<T>>, RecvError>, ghost cap: nat, ghost now: View<T>)
      returns (r: Result<Option<Entry<T>>, RecvError>)
      requires cap <= now.head <= Tail(cap, now.log) <= U64_MAX && now.seen <= Tail(cap, now.log)
      requires answer == Answer(cap, now.head, now.log, h, now.seen)
      requires Agree(buffer[..], cap, now.log) && head <= U64_MAX && h <= U64_MAX
      modifies this`head, buffer
      ensures Agree(buffer[..], cap, now.log) && head <= U64_MAX
      ensures r.Ok? && r.value.Some? ==> cap <= h < Tail(cap, now.log) && r.value.value == now.log[h - cap]
      ensures r.Err? ==> h < now.head
      ensures r == Ok(None) ==> h >= now.seen
    {
      LookupRefines(buffer[..], head, cap, now.head, now.log, h, now.seen);
      r := Ask(h, answer);
    }

    /** One turn of a client: a request for each of `answers` at most, one position
        after the other, while the ring moves on between any two of them; `views`
        are the ring at the time of each.  What is received is exactly the log from
        the client's position on, and the turn ends early only where there was
        nothing yet, or with the next message evicted. */
    method Turn(start: nat, answers: seq<Result<Option<Entry<T>>, RecvError>>,
                ghost cap: nat, ghost views: seq<View<T>>)
      returns (next: nat, out: seq<Entry<T>>, error: Option<RecvError>)
      requires |views| == |answers| + 1 && Moving(cap, views) && Answered(answers, start, cap, views)
      requires Agree(buffer[..], cap, views[0].log) && head <= U64_MAX && cap <= start <= Tail(cap, views[0].log)
      modifies this`head, buffer
      ensures |out| <= |answers| && next == start + |out| && head <= U64_MAX
      ensures var now := views[|out|];
        && Agree(buffer[..], cap, now.log)
        && next <= Tail(cap, now.log) && out == now.log[start - cap..next - cap]
        && (|out| < |answers| && error.None? ==> next >= now.seen)
        && (error.Some? ==> |out| < |answers| && next < now.head)
    {
      next, out, error := start, [], None;
      while |out| < |answers|
        invariant |out| <= |answers| && next == start + |out| && head <= U64_MAX
        invariant Served(buffer[..], out, start, cap, views[|out|].log)
      {
        var i := |out|;
        ghost var now := views[i];
        var r := Request(next, answers[i], cap, now);
        match r {
          case Ok(Some(e)) =>
            OneMore(buffer[..], out, start, cap, now.log, views[i + 1].log);
            out, next := out + [e], next + 1;
          case Ok(None) => return;
          case Err(e) =>
            error := Some(e);
            return;
        }
      }
    }
  }

  /** The ring at one moment, and what the reader then takes for its tail. */
  datatype View<T> = View(head: nat, log: seq<Entry<T>>, seen: nat)

  ghost predicate Moving<T>(cap: nat, views: seq<View<T>>) {
    && (forall i :: 0 <= i < |views| ==>
          cap <= views[i].head <= Tail(cap, views[i].log) <= U64_MAX && views[i].seen <= Tail(cap, views[i].log))
    && (forall i :: 0 <= i < |views| - 1 ==> views[i].log <= views[i + 1].log && views[i].head <= views[i + 1].head)
  }

  /** Each answer is the ring's at that moment, for the position then asked. */
  ghost predicate Answered<T>(answers: seq<Result<Option<Entry<T>>, RecvError>>, start: nat,
                              cap: nat, views: seq<View<T>>)
    requires |views| > |answers| && Moving(cap, views)
  {
    forall i :: 0 <= i < |answers| ==>
      answers[i] == Answer(cap, views[i].head, views[i].log, start + i, views[i].seen)
  }

  /** The cache is right, and `out` is the log from `start` on. */
  ghost predicate Served<T>(cells: seq<Cached<T>>, out: seq<Entry<T>>, start: nat, cap: nat, log: seq<Entry<T>>) {
    && Agree(cells, cap, log)
    && cap <= start && start + |out| <= Tail(cap, log) && out == log[start - cap..start - cap + |out|]
  }

  lemma OneMore<T>(cells: seq<Cached<T>>, out: seq<Entry<T>>, start: nat,
                   cap: nat, log: seq<Entry<T>>, log': seq<Entry<T>>)
    requires Agree(cells, cap, log) && log <= log' && cap <= start && start + |out| < Tail(cap, log)
    requires out == log[start - cap..start - cap + |out|]
    ensures Served(cells, out + [log[start - cap + |out|]], start, cap, log')
  {
    AgreeGrows(cells, cap, log, log');
    var lo, n := start - cap, |out|;
    assert log'[lo..lo + n + 1] == log'[lo..lo + n] + [log'[lo + n]];
    assert log'[lo..lo + n] == log[lo..lo + n] && log'[lo + n] == log[lo + n];
  }

  // ---------------------------------------------------------------------------
  // Every run of a worker
  // ---------------------------------------------------------------------------

  /** A client since its last filter: where it began, where it stands, what it got. */
  datatype Client<T> = Client(start: nat, next: nat, out: seq<Entry<T>>, lagged: bool)

  /** A worker's cache, its clients, and the ring as it is at the moment. */
  datatype Desk<T> = Desk(
    cap: nat, head: nat, log: seq<Entry<T>>, cells: seq<Cached<T>>, mark: nat, clients: map<nat, Client<T>>)

  datatype Act<T> =
    | Moves(more: seq<Entry<T>>, head: nat)  // the ring takes messages and evicts some
    | Joins(id: nat, at: nat)                // a client comes, or sets another filter
    | Polls(id: nat, seen: nat)              // the worker asks for a client's next message

  ghost predicate Enabled<T>(d: Desk<T>, a: Act<T>)
    requires d.cap <= d.head <= Tail(d.cap, d.log)
  {
    match a
    case Moves(more, head) => d.head <= head <= Tail(d.cap, d.log + more) <= U64_MAX
    case Joins(_, at) => d.cap <= at <= Tail(d.cap, d.log)
    case Polls(id, seen) => id in d.clients && !d.clients[id].lagged && seen <= Tail(d.cap, d.log)
  }

  /** The client's head advances exactly with a message. */
  function After<T>(c: Client<T>, r: Result<Option<Entry<T>>, RecvError>): Client<T> {
    match r
    case Ok(Some(e)) => c.(next := c.next + 1, out := c.out + [e])
    case Ok(None) => c
    case Err(_) => c.(lagged := true)
  }

  ghost function Apply<T>(d: Desk<T>, a: Act<T>): Desk<T>
    requires DeskOk(d) && Enabled(d, a)
  {
    match a
    case Moves(more, head) => d.(log := d.log + more, head := head)
    case Joins(id, at) => d.(clients := d.clients[id := Client(at, at, [], false)])
    case Polls(id, seen) =>
      var c := d.clients[id];
      var (r, cells) := Lookup(d.cells, d.mark, c.next, Answer(d.cap, d.head, d.log, c.next, seen));
      d.(cells := cells, mark := MarkAfter(d.mark, c.next), clients := d.clients[id := After(c, r)])
  }

  ghost predicate ClientOk<T>(c: Client<T>, cap: nat, head: nat, log: seq<Entry<T>>) {
    && cap <= c.start <= c.next <= Tail(cap, log)
    && c.out == log[c.start - cap..c.next - cap]
    && (c.lagged ==> c.next < head)
  }

  ghost predicate DeskOk<T>(d: Desk<T>) {
    && d.cap <= d.head <= Tail(d.cap, d.log) <= U64_MAX && d.mark <= U64_MAX
    && Agree(d.cells, d.cap, d.log)
    && forall id :: id in d.clients ==> ClientOk(d.clients[id], d.cap, d.head, d.log)
  }

  lemma AfterOk<T>(c: Client<T>, r: Result<Option<Entry<T>>, RecvError>, cap: nat, head: nat, log: seq<Entry<T>>)
    requires ClientOk(c, cap, head, log)
    requires r.Ok? && r.value.Some? ==> c.next < Tail(cap, log) && r.value.value == log[c.next - cap]
    requires r.Err? ==> c.next < head
    requires !c.lagged
    ensures ClientOk(After(c, r), cap, head, log)
  {
    if r.Ok? && r.value.Some? {
      assert log[c.start - cap..c.next + 1 - cap] == log[c.start - cap..c.next - cap] + [log[c.next - cap]];
    }
  }

  lemma PollKeeps<T>(d: Desk<T>, id: nat, seen: nat)
    requires DeskOk(d) && Enabled(d, Polls(id, seen))
    ensures DeskOk(Apply(d, Polls(id, seen)))
  {
    var c := d.clients[id];
    LookupRefines(d.cells, d.mark, d.cap, d.head, d.log, c.next, seen);
    var answer := Answer(d.cap, d.head, d.log, c.next, seen);
    AfterOk(c, Lookup(d.cells, d.mark, c.next, answer).0, d.cap, d.head, d.log);
  }

  /** What a poll does to its client. */
  ghost predicate Polled<T>(d: Desk<T>, c: Client<T>, c': Client<T>, seen: nat)
    requires d.cap <= c.next
  {
    var mark := if c.next > d.mark then c.next else d.mark;
    var cached := InWindow(mark, c.next, |d.cells|) && c.next != U64_MAX && Has(d.cells, c.next);
    && (d.head <= c.next < seen || cached ==>
          && c.next < Tail(d.cap, d.log)
          && c' == Client(c.start, c.next + 1, c.out + [d.log[c.next - d.cap]], false))
    && (c.next < seen && c.next < d.head && !cached ==> c' == Client(c.start, c.next, c.out, true))
    && (c.next >= seen && !cached ==> c' == c)
  }

  lemma PollAnswers<T>(d: Desk<T>, c: Client<T>, seen: nat)
    requires DeskOk(d) && ClientOk(c, d.cap, d.head, d.log) && !c.lagged && seen <= Tail(d.cap, d.log)
    ensures Polled(d, c, After(c, Lookup(d.cells, d.mark, c.next, Answer(d.cap, d.head, d.log, c.next, seen)).0), seen)
  {
    var answer := Answer(d.cap, d.head, d.log, c.next, seen);
    LookupRefines(d.cells, d.mark, d.cap, d.head, d.log, c.next, seen);
    LookupRemembers(d.cells, d.mark, d.cap, d.log, c.next, answer);
    if c.next == U64_MAX || !InWindow(MarkAfter(d.mark, c.next), c.next, |d.cells|) || !Has(d.cells, c.next) {
      MissedAnswer(d.cells, d.mark, d.cap, d.log, c.next, answer);
    }
  }

  /** What is not cached is the ring's to answer. */
  lemma MissedAnswer<T>(cells: seq<Cached<T>>, mark: nat, cap: nat, log: seq<Entry<T>>, h: nat,
      answer: Result<Option<Entry<T>>, RecvError>)
    requires Agree(cells, cap, log) && mark <= U64_MAX && h <= U64_MAX
    requires h == U64_MAX || !InWindow(if h > mark then h else mark, h, |cells|) || !Has(cells, h)
    ensures var r := Lookup(cells, mark, h, answer).0; r == answer || (h == U64_MAX && r == Ok(None))
  {
    InRangeMeans(MarkAfter(mark, h), h, |cells|);
    var idx := Idx(h, |cells|);
    if h != U64_MAX && cells[idx].pos == h { assert Has(cells, h); }
  }

  /** A poll concerns its own client only: it hands over the log's next message, for
      sure if that is live and seen or cached inside the window, or nothing if there
      is none yet, or the news that the next message is evicted. */
  lemma PollShows<T>(d: Desk<T>, id: nat, seen: nat)
    requires DeskOk(d) && Enabled(d, Polls(id, seen))
    ensures var d', c := Apply(d, Polls(id, seen)), d.clients[id];
      && d'.log == d.log && d'.head == d.head && d'.clients.Keys == d.clients.Keys
      && (forall other :: other in d.clients && other != id ==> d'.clients[other] == d.clients[other])
      && Polled(d, c, d'.clients[id], seen)
  {
    PollAnswers(d, d.clients[id], seen);
  }

  lemma MoveKeeps<T>(d: Desk<T>, more: seq<Entry<T>>, head: nat)
    requires DeskOk(d) && Enabled(d, Moves(more, head))
    ensures DeskOk(Apply(d, Moves(more, head)))
  {
    var log := d.log + more;
    AgreeGrows(d.cells, d.cap, d.log, log);
    forall id | id in d.clients ensures ClientOk(d.clients[id], d.cap, head, log) {
      var c := d.clients[id];
      assert ClientOk(c, d.cap, d.head, d.log);
      assert log[c.start - d.cap..c.next - d.cap] == d.log[c.start - d.cap..c.next - d.cap];
    }
  }

  ghost predicate Leads<T>(d: Desk<T>, acts: seq<Act<T>>, d': Desk<T>)
    decreases |acts|
  {
    if acts == [] then d == d'
    else DeskOk(d) && Enabled(d, acts[0]) && Leads(Apply(d, acts[0]), acts[1..], d')
  }

  lemma {:induction false} RunKeepsDesk<T>(d: Desk<T>, acts: seq<Act<T>>, d': Desk<T>)
    requires DeskOk(d) && Leads(d, acts, d')
    ensures DeskOk(d')
    decreases |acts|
  {
    if acts != [] {
      match acts[0] {
        case Moves(more, head) => MoveKeeps(d, more, head);
        case Joins(_, _) =>
        case Polls(id, seen) => PollKeeps(d, id, seen);
      }
      RunKeepsDesk(Apply(d, acts[0]), acts[1..], d');
    }
  }

  /** A worker that has just started. */
  ghost predicate Fresh<T>(d: Desk<T>) {
    && d.cap <= d.head <= Tail(d.cap, d.log) <= U64_MAX
    && 1 <= |d.cells| <= U64_MAX && IsPow2(|d.cells|)
    && (forall i :: 0 <= i < |d.cells| ==> d.cells[i] == Cached(U64_MAX, None))
    && d.mark == 0 && d.clients == map[]
  }

  /** However the ring moves and whoever else asks in between, every client has
      received exactly the log from where it began, without a gap, and is told
      that it lags only with its next message evicted. */
  lemma ClientsSeeLog<T>(d0: Desk<T>, acts: seq<Act<T>>, d: Desk<T>, id: nat)
    requires Fresh(d0) && Leads(d0, acts, d) && id in d.clients
    ensures var c := d.clients[id];
      && d.cap <= c.start <= c.next <= Tail(d.cap, d.log)
      && c.out == d.log[c.start - d.cap..c.next - d.cap]
      && (c.lagged ==> c.next < d.head)
  {
    RunKeepsDesk(d0, acts, d);
  }
}
