/** The channel and the encoder together: what is pushed is what receivers decode. */
module PluginUpdates {
  import opened Base
  import opened Ring
  import opened PluginSpec
  import opened PluginBackfill
  import opened PluginReceiver
  import opened PluginProtocol
  import Encoding
  import EncodingUpdate

  type Update = EncodingUpdate.Message

  type Time = EncodingUpdate.Timestamp

  function NoticeOf(u: Update): Notice {
    match u
    case AccountMessage(a) => AccountMsg(a.slot)
    case SlotMessage(s) => SlotMsg(s.slot, s.parent, s.status)
    case TransactionMessage(t) => TransactionMsg(t.slot)
    case BlockMetaMessage(b) => BlockMetaMsg(b.slot)
    case EntryMessage(e) => EntryMsg(e.slot)
  }

  /** The update that a push of `u` encodes for a notice: `u` itself, or the
      slot update synthesised for an ancestor. */
  function UpdateFor(u: Update, n: Notice): Update {
    if n.SlotMsg? then EncodingUpdate.SlotMessage(Encoding.SlotUpdate(n.slot, n.parent, n.status)) else u
  }

  /** Each update is encoded with the time at which that happens. */
  function Encoder(u: Update, time: Notice -> Time): Notice -> seq<Byte> {
    n => EncodingUpdate.UpdateBytes(UpdateFor(u, n), time(n))
  }

  /** An entry whose bytes decode to `u`, up to what the wire cannot tell apart. */
  ghost predicate Carries(e: Entry<Payload>, u: Update, t: Time) {
    && e.slot == EncodingUpdate.SlotOf(u) && e.body.kind == NoticeOf(u).Kind()
    && DecodesTo(e.body.bytes, (u, t))
  }

  lemma EntryCarries(u: Update, n: Notice, t: Time)
    requires n == NoticeOf(u) || n.SlotMsg?
    ensures Carries(ToEntry(n, EncodingUpdate.UpdateBytes(UpdateFor(u, n), t)), UpdateFor(u, n), t)
  {
    EncodingUpdate.UpdateOk(UpdateFor(u, n), t);
  }

  lemma EntriesCarry(u: Update, time: Notice -> Time, ms: seq<Notice>, i: nat)
    requires i < |ms| && (ms[i] == NoticeOf(u) || ms[i].SlotMsg?)
    ensures Carries(EntriesOf(ms, Encoder(u, time))[i], UpdateFor(u, ms[i]), time(ms[i]))
  {
    EntryCarries(u, ms[i], time(ms[i]));
  }

  lemma AnnounceKinds(index: Index, m: Notice, i: nat)
    requires i < |Announce(index, m)|
    ensures Announce(index, m)[i] == m || (m.SlotMsg? && Announce(index, m)[i].SlotMsg?)
  {
  }

  lemma PushedIsLast(index: Index, u: Update, ms: seq<Notice>)
    requires ms == Announce(index, NoticeOf(u))
    ensures UpdateFor(u, ms[|ms| - 1]) == u
  {
  }

  /** What a push of `u` adds to the log (`AfterPushes` says it is these entries)
      decodes to the synthesised slot updates, ancestors first, and then to `u`. */
  lemma PushedUpdatesDecode(index: Index, u: Update, time: Notice -> Time, ms: seq<Notice>, i: nat)
    requires ms == Announce(index, NoticeOf(u)) && i < |ms|
    ensures Carries(EntriesOf(ms, Encoder(u, time))[i], UpdateFor(u, ms[i]), time(ms[i]))
    ensures UpdateFor(u, ms[|ms| - 1]) == u
  {
    PushedIsLast(index, u, ms);
    AnnounceKinds(index, NoticeOf(u), i);
    EntriesCarry(u, time, ms, i);
  }

  type Stamped = (Update, Time)

  /** The bytes decode to this update and time, up to what the wire cannot tell apart. */
  ghost predicate DecodesTo(b: seq<Byte>, s: Stamped) {
    EncodingUpdate.ReadUpdate(b) == Some((EncodingUpdate.NormalMessage(s.0), s.1))
  }

  /** The updates a receiver wants. */
  function WantedUpdates(wants: Wants, us: seq<Stamped>): seq<Stamped> {
    if us == [] then []
    else
      var u := us[|us| - 1];
      WantedUpdates(wants, us[..|us| - 1]) + if wants.Passes(NoticeOf(u.0).Kind()) then [u] else []
  }

  /** Entry by entry, the log holds payloads that are `good` for the updates. */
  ghost predicate Holding(log: Log, us: seq<Stamped>, good: (seq<Byte>, Stamped) -> bool) {
    && |log| == |us|
    && forall i :: 0 <= i < |log| ==> log[i].body.kind == NoticeOf(us[i].0).Kind() && good(log[i].body.bytes, us[i])
  }

  /** Payload by payload. */
  ghost predicate Matches(out: seq<seq<Byte>>, us: seq<Stamped>, good: (seq<Byte>, Stamped) -> bool) {
    |out| == |us| && forall k :: 0 <= k < |out| ==> good(out[k], us[k])
  }

  ghost predicate Carrying(log: Log, us: seq<Stamped>) {
    |us| == |log| && forall i :: 0 <= i < |us| ==> Carries(log[i], us[i].0, us[i].1)
  }

  lemma {:induction false} WantedHold(wants: Wants, log: Log, us: seq<Stamped>, good: (seq<Byte>, Stamped) -> bool)
    requires Holding(log, us, good)
    ensures Matches(Wanted(wants, log), WantedUpdates(wants, us), good)
    decreases |log|
  {
    if log != [] {
      var n := |log| - 1;
      assert Holding(log[..n], us[..n], good);
      WantedHold(wants, log[..n], us[..n], good);
    }
  }

  /** In every interleaving, whatever payloads the log holds, a stream delivers
      those of the wanted updates from its start on, in order. */
  lemma StreamHolds(w0: World, es: seq<Event>, w: World, r: nat, us: seq<Stamped>, good: (seq<Byte>, Stamped) -> bool)
    requires Fresh(w0) && Leads(w0, es, w) && r in w.rx && Holding(w.log, us, good)
    ensures var x := w.rx[r];
      && w.cap <= x.start <= x.seen <= w.cap + |us|
      && Matches(x.out, WantedUpdates(x.wants, us[x.start - w.cap..x.seen - w.cap]), good)
  {
    StreamIsLog(w0, es, w, r);
    var x := w.rx[r];
    var lo, hi := x.start - w.cap, x.seen - w.cap;
    assert Holding(w.log[lo..hi], us[lo..hi], good);
    WantedHold(x.wants, w.log[lo..hi], us[lo..hi], good);
  }

  lemma CarriedHold(log: Log, us: seq<Stamped>)
    requires Carrying(log, us)
    ensures Holding(log, us, DecodesTo)
  {
    forall i | 0 <= i < |us|
      ensures log[i].body.kind == NoticeOf(us[i].0).Kind() && DecodesTo(log[i].body.bytes, us[i])
    {
      assert Carries(log[i], us[i].0, us[i].1);
    }
  }

  /** So what was pushed is what receivers decode: with a log whose entries carry
      the updates `us`, a stream's output decodes, one by one and in order, to the
      updates it wants of those it has passed. */
  lemma StreamDecodes(w0: World, es: seq<Event>, w: World, r: nat, us: seq<Stamped>)
    requires Fresh(w0) && Leads(w0, es, w) && r in w.rx
    requires Carrying(w.log, us)
    ensures var x := w.rx[r];
      && w.cap <= x.start <= x.seen <= w.cap + |us|
      && Matches(x.out, WantedUpdates(x.wants, us[x.start - w.cap..x.seen - w.cap]), DecodesTo)
  {
    CarriedHold(w.log, us);
    StreamHolds(w0, es, w, r, us, DecodesTo);
  }

  // ---------------------------------------------------------------------------
  // Once more, in terms of the updates and the flags alone
  // ---------------------------------------------------------------------------

  /** The receiver has switched off updates of this kind. */
  ghost predicate Off(wants: Wants, u: Update) {
    || (u.AccountMessage? && !wants.accounts)
    || (u.TransactionMessage? && !wants.transactions)
    || (u.EntryMessage? && !wants.entries)
  }

  lemma PassesUpdate(wants: Wants, u: Update)
    ensures wants.Passes(NoticeOf(u).Kind()) <==> !Off(wants, u)
  {
  }

  ghost function Deliverable(wants: Wants, us: seq<Stamped>): set<nat> {
    set i: nat | i < |us| && !Off(wants, us[i].0)
  }

  ghost predicate Taken(out: seq<Stamped>, us: seq<Stamped>, ix: seq<nat>) {
    |out| == |ix| && forall k :: 0 <= k < |ix| ==> ix[k] < |us| && out[k] == us[ix[k]]
  }

  lemma TakenMore(out: seq<Stamped>, us: seq<Stamped>, ix: seq<nat>)
    requires us != [] && Taken(out, us[..|us| - 1], ix)
    ensures Taken(out, us, ix) && Taken(out + [us[|us| - 1]], us, ix + [|us| - 1])
  {
  }

  lemma WantedMore(wants: Wants, us: seq<Stamped>, less: seq<nat>) returns (ix: seq<nat>)
    requires us != [] && Lists(less, Deliverable(wants, us[..|us| - 1]))
    requires Taken(WantedUpdates(wants, us[..|us| - 1]), us[..|us| - 1], less)
    ensures Lists(ix, Deliverable(wants, us)) && Taken(WantedUpdates(wants, us), us, ix)
  {
    var n := |us| - 1;
    var was := Deliverable(wants, us[..n]);
    PassesUpdate(wants, us[n].0);
    TakenMore(WantedUpdates(wants, us[..n]), us, less);
    if Off(wants, us[n].0) {
      ix := less;
      assert Deliverable(wants, us) == was;
    } else {
      ix := less + [n];
      ListsMore(less, was, n);
      assert Deliverable(wants, us) == was + {n};
    }
  }

  lemma {:induction false} WantedLists(wants: Wants, us: seq<Stamped>) returns (ix: seq<nat>)
    ensures Lists(ix, Deliverable(wants, us)) && Taken(WantedUpdates(wants, us), us, ix)
    decreases |us|
  {
    if us == [] {
      ix := [];
    } else {
      ix := WantedLists(wants, us[..|us| - 1]);
      ix := WantedMore(wants, us, ix);
    }
  }

  /** Payload by payload, what `out` holds are the updates at the places `ix`. */
  ghost predicate Delivers(out: seq<seq<Byte>>, us: seq<Stamped>, ix: seq<nat>, good: (seq<Byte>, Stamped) -> bool) {
    |out| == |ix| && forall k :: 0 <= k < |ix| ==> ix[k] < |us| && good(out[k], us[ix[k]])
  }

  lemma WantedDelivers(wants: Wants, out: seq<seq<Byte>>, us: seq<Stamped>, good: (seq<Byte>, Stamped) -> bool)
      returns (ix: seq<nat>)
    requires Matches(out, WantedUpdates(wants, us), good)
    ensures Lists(ix, Deliverable(wants, us)) && Delivers(out, us, ix, good)
  {
    ix := WantedLists(wants, us);
  }

  lemma StreamHoldsAll(w0: World, es: seq<Event>, w: World, r: nat, us: seq<Stamped>,
      good: (seq<Byte>, Stamped) -> bool) returns (ix: seq<nat>)
    requires Fresh(w0) && Leads(w0, es, w) && r in w.rx && Holding(w.log, us, good)
    ensures var x := w.rx[r];
      && w.cap <= x.start <= x.seen <= w.cap + |us|
      && var passed := us[x.start - w.cap..x.seen - w.cap];
         Lists(ix, Deliverable(x.wants, passed)) && Delivers(x.out, passed, ix, good)
  {
    StreamHolds(w0, es, w, r, us, good);
    var x := w.rx[r];
    ix := WantedDelivers(x.wants, x.out, us[x.start - w.cap..x.seen - w.cap], good);
  }

  /** A stream's output decodes, in order, to exactly those updates from its start
      on whose kind it has not switched off. */
  lemma StreamDecodesAll(w0: World, es: seq<Event>, w: World, r: nat, us: seq<Stamped>) returns (ix: seq<nat>)
    requires Fresh(w0) && Leads(w0, es, w) && r in w.rx
    requires Carrying(w.log, us)
    ensures var x := w.rx[r];
      && w.cap <= x.start <= x.seen <= w.cap + |us|
      && var passed := us[x.start - w.cap..x.seen - w.cap];
         Lists(ix, Deliverable(x.wants, passed)) && Delivers(x.out, passed, ix, DecodesTo)
  {
    CarriedHold(w.log, us);
    ix := StreamHoldsAll(w0, es, w, r, us, DecodesTo);
  }
}
