/** Receivers of the plugin channel: what one poll returns. */
module PluginReceiver {
  import opened Base
  import opened RingIndex
  import opened Ring
  import opened PluginSpec
  import opened PluginChannel

  /** Which kinds of message a receiver wants; slots and block metas always. */
  datatype Wants = Wants(accounts: bool, transactions: bool, entries: bool)
  {
    predicate Passes(kind: Notification) {
      match kind
      case AccountKind => accounts
      case TransactionKind => transactions
      case EntryKind => entries
      case _ => true
    }
  }

  /** The payloads of the wanted entries, in order. */
  function Wanted(wants: Wants, es: Log): (out: seq<seq<Byte>>)
    ensures |out| <= |es|
  {
    if es == [] then []
    else
      var e := es[|es| - 1];
      Wanted(wants, es[..|es| - 1]) + if wants.Passes(e.body.kind) then [e.body.bytes] else []
  }

  datatype RecvError = Closed | Lagged

  /** `q` is the first wanted position from `p` on, or the tail. */
  ghost predicate FirstWanted(wants: Wants, cap: nat, log: Log, p: nat, q: int) {
    && cap <= p <= q <= Tail(cap, log)
    && (forall r :: p <= r < q ==> !wants.Passes(KindAt(cap, log, r)))
    && (q < Tail(cap, log) ==> wants.Passes(KindAt(cap, log, q)))
  }

  /** An account, a transaction or an entry, with that kind switched off. */
  predicate SwitchedOff(wants: Wants, e: Entry<Payload>) {
    || (e.body.kind == AccountKind && !wants.accounts)
    || (e.body.kind == TransactionKind && !wants.transactions)
    || (e.body.kind == EntryKind && !wants.entries)
  }

  lemma PassesMeans(wants: Wants, e: Entry<Payload>)
    ensures wants.Passes(e.body.kind) <==> !SwitchedOff(wants, e)
  {
  }

  lemma FirstWantedShows(wants: Wants, cap: nat, log: Log, p: nat, q: nat)
    requires FirstWanted(wants, cap, log, p, q)
    ensures forall i :: p - cap <= i < q - cap ==> SwitchedOff(wants, log[i])
    ensures q < Tail(cap, log) ==> !SwitchedOff(wants, log[q - cap])
  {
    forall i | p - cap <= i < q - cap ensures SwitchedOff(wants, log[i]) {
      assert !wants.Passes(KindAt(cap, log, i + cap));
      PassesMeans(wants, log[i]);
    }
    if q < Tail(cap, log) { PassesMeans(wants, log[q - cap]); }
  }

  function KindAt(cap: nat, log: Log, p: nat): Notification
    requires cap <= p < Tail(cap, log)
  {
    log[p - cap].body.kind
  }

  class Receiver {
    const sender: Sender
    const wants: Wants
    var next: nat
    var finished: bool

    constructor (s: Sender, start: nat, w: Wants)
      ensures sender == s && wants == w && next == start && !finished
    {
      sender, wants, next, finished := s, w, start, false;
    }

    ghost predicate InStep()
      reads this, sender, sender.buffer
    {
      sender.Valid() && sender.cap <= next <= sender.tail
    }

    /** The cell of `next`, and what it tells. */
    method Peek() returns (item: Item<Payload>)
      requires InStep()
      ensures item.closed == sender.closed
      ensures item.pos < next <==> next == sender.tail
      ensures item.pos > next ==> next < sender.head
      ensures item.pos == next && item.data.None? ==> next < sender.head
      ensures item.pos == next && item.data.Some? ==>
        sender.head <= next < sender.tail && item.data.value == sender.log[next - sender.cap]
    {
      var idx := Idx(next, sender.cap);
      item := sender.buffer[idx];
      assert item == sender.buffer[..][idx];
      ReadExact(sender.buffer[..], sender.cap, sender.head, sender.log, next);
    }

    /** The loop of a poll: on to the first wanted entry, or to the tail. */
    method Scan(waker: nat) returns (r: Result<Option<seq<Byte>>, RecvError>)
      requires InStep()
      modifies this`next, sender`wakers
      ensures sender.closed ==> r == Err(Closed) && next == old(next)
      ensures !sender.closed ==> (r == Err(Lagged) <==> old(next) < sender.head)
      ensures !sender.closed && old(next) >= sender.head ==>
        && r.Ok?
        && var q := if r.value.Some? then next - 1 else next;
           && FirstWanted(wants, sender.cap, sender.log, old(next), q)
           && (r.value.None? <==> q == sender.tail)
           && (r.value.Some? ==> r.value == Some(sender.log[q - sender.cap].body.bytes))
      ensures sender.wakers == old(sender.wakers) + (if r == Ok(None) then [waker] else [])
      ensures r.Ok? ==> InStep()
    {
      ghost var start := next;
      while true
        invariant InStep() && start <= next && sender.wakers == old(sender.wakers)
        invariant next == start || (!sender.closed && start >= sender.head)
        invariant forall p :: start <= p < next ==> !wants.Passes(KindAt(sender.cap, sender.log, p))
        decreases sender.tail - next
      {
        var item := Peek();
        if item.closed { return Err(Closed); }
        if item.pos != next {
          if item.pos < next {
            sender.wakers := sender.wakers + [waker];
            return Ok(None);
          } else {
            return Err(Lagged);
          }
        }
        next := next + 1;
        if item.data.None? { return Err(Lagged); }
        var payload := item.data.value.body;
        if wants.Passes(payload.kind) { return Ok(Some(payload.bytes)); }
      }
    }

    /** One poll.  `Closed` when the channel is; `Lagged` exactly when `next` is below
        `head`; otherwise the first entry from `next` on whose kind is not switched
        off, or nothing, with the waker registered, exactly when there is none yet. */
    method RecvRef(waker: nat) returns (r: Result<Option<seq<Byte>>, RecvError>)
      requires InStep()
      modifies this`next, sender`wakers
      ensures sender.closed ==> r == Err(Closed) && next == old(next)
      ensures !sender.closed ==> (r == Err(Lagged) <==> old(next) < sender.head)
      ensures !sender.closed && old(next) >= sender.head ==>
        && r.Ok?
        && var q := if r.value.Some? then next - 1 else next;
           && FirstWanted(wants, sender.cap, sender.log, old(next), q)
           && (r.value.None? <==> q == sender.tail)
           && (r.value.Some? ==> r.value == Some(sender.log[q - sender.cap].body.bytes))
           && (forall i :: old(next) - sender.cap <= i < q - sender.cap ==> SwitchedOff(wants, sender.log[i]))
           && (r.value.Some? ==> !SwitchedOff(wants, sender.log[q - sender.cap]))
      ensures sender.wakers == old(sender.wakers) + (if r == Ok(None) then [waker] else [])
      ensures r.Ok? ==> InStep()
    {
      ghost var start := next;
      r := Scan(waker);
      if !sender.closed && start >= sender.head {
        FirstWantedShows(wants, sender.cap, sender.log, start, if r.value.Some? then next - 1 else next);
      }
    }

    /** The stream ends after its first error. */
    method PollNext(waker: nat) returns (r: Option<Option<Result<seq<Byte>, RecvError>>>)
      requires finished || InStep()
      modifies this, sender`wakers
      ensures old(finished) ==> r == Some(None) && next == old(next)
      ensures finished <==> old(finished) || (r.Some? && r.value.Some? && r.value.value.Err?)
      ensures !finished ==> InStep()
      ensures !old(finished) && !sender.closed ==>
        (r == Some(Some(Err(Lagged))) <==> old(next) < sender.head)
      ensures !old(finished) && r == None ==> next == sender.tail && waker in sender.wakers
      ensures !old(finished) && r.Some? && r.value.Some? && r.value.value.Ok? ==>
        && FirstWanted(wants, sender.cap, sender.log, old(next), next - 1)
        && r.value.value.value == sender.log[next - 1 - sender.cap].body.bytes
    {
      if finished { return Some(None); }
      var got := RecvRef(waker);
      match got {
        case Ok(Some(bytes)) => r := Some(Some(Ok(bytes)));
        case Ok(None) => r := None;
        case Err(error) =>
          finished := true;
          r := Some(Some(Err(error)));
      }
    }
  }
}
