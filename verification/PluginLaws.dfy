/** What the plugin channel does, once more, in terms of messages, payloads and
    flags alone. */
module PluginLaws {
  import opened Base
  import opened Ring
  import opened PluginSpec
  import opened PluginBackfill
  import opened PluginReceiver
  import opened PluginProtocol

  // ---------------------------------------------------------------------------
  // Entries and the index
  // ---------------------------------------------------------------------------

  /** An entry has its message's slot and kind, and counts the bytes of its payload. */
  lemma EntryShows(m: Notice, data: seq<Byte>)
    ensures var e := ToEntry(m, data);
      && e.slot == m.slot && e.size == |data| && e.body.bytes == data
      && (e.body.kind == AccountKind <==> m.AccountMsg?)
      && (e.body.kind == SlotKind <==> m.SlotMsg?)
      && (e.body.kind == TransactionKind <==> m.TransactionMsg?)
      && (e.body.kind == EntryKind <==> m.EntryMsg?)
      && (e.body.kind == BlockMetaKind <==> m.BlockMetaMsg?)
  {
  }

  lemma AboveMeans(cap: nat, log: Log, lo: nat, hi: nat, t: nat)
    requires cap <= lo <= hi <= Tail(cap, log)
    ensures Above(cap, log, lo, hi, t) <==> forall i :: lo - cap <= i < hi - cap ==> log[i].slot < t
  {
    if Above(cap, log, lo, hi, t) {
      forall i | lo - cap <= i < hi - cap ensures log[i].slot < t { assert SlotAt(cap, log, i + cap) < t; }
    }
  }

  /** After a push a slot is indexed exactly if it was before, or is the message's,
      and is newer than every slot of which a message was evicted. */
  lemma PushIndexes(c: Chan, m: Notice, data: seq<Byte>, t: nat)
    requires ChanOk(c) && AfterPush(c, m, data).Some?
    ensures var c' := AfterPush(c, m, data).value;
      && c.head <= c'.head <= c.cap + |c.log|
      && (t in c'.index <==>
            && (t in c.index || t == m.slot)
            && forall i :: c.head - c.cap <= i < c'.head - c.cap ==> c.log[i].slot < t)
  {
    var c' := AfterPush(c, m, data).value;
    PushKeepsChannel(c, m, data);
    EnterSize(c.index, m, c.End());
    AboveMeans(c.cap, c.log, c.head, c'.head, t);
  }

  /** Other slots keep their entry; that of the message keeps its first position,
      takes a parent that is given, and only ever gains flags. */
  lemma PushEnters(c: Chan, m: Notice, data: seq<Byte>, t: nat)
    requires ChanOk(c) && AfterPush(c, m, data).Some? && t in AfterPush(c, m, data).value.index
    ensures var now := AfterPush(c, m, data).value.index[t];
      if t != m.slot then
        t in c.index && now == c.index[t]
      else
        var was := if t in c.index then c.index[t] else SlotInfo(c.cap + |c.log|, None, false, false);
        && now.head == was.head
        && now.parent == (if m.SlotMsg? && m.parent.Some? then m.parent else was.parent)
        && (now.confirmed <==> was.confirmed || (m.SlotMsg? && m.status.Confirmed?))
        && (now.finalized <==> was.finalized || (m.SlotMsg? && m.status.Rooted?))
  {
    assert AfterPush(c, m, data).value.index[t] == Enter(c.index, m, c.End())[t];
  }

  // ---------------------------------------------------------------------------
  // Evictions
  // ---------------------------------------------------------------------------

  /** `s` is the least slot, which has to go, and entry `i` is before its first
      message or in the run of its messages that starts there. */
  ghost predicate InLeastSlot(c: Chan, m: Notice, s: nat, i: nat) {
    && m.slot !in c.index && |c.index| == c.slotsMax
    && s in c.index && (forall t :: t in c.index ==> s <= t) && s < m.slot
    && c.cap <= c.index[s].head
    && (i < c.index[s].head - c.cap
        || (i < |c.log| && forall j :: c.index[s].head - c.cap <= j <= i ==> c.log[j].slot == s))
  }

  /** What `SlotHead` passes is in the run of the least slot, or before it. */
  lemma RunShows(c: Chan, index: Index, s: nat, i: nat)
    requires c.cap <= c.head && s in index && c.cap <= index[s].head <= c.End()
    requires i + c.cap < RunEnd(c.cap, c.log, index[s].head, s)
    ensures i < index[s].head - c.cap
      || (i < |c.log| && forall j :: index[s].head - c.cap <= j <= i ==> c.log[j].slot == s)
  {
    forall j | index[s].head - c.cap <= j <= i ensures c.log[j].slot == s {
      assert SlotAt(c.cap, c.log, j + c.cap) == s;
    }
  }

  /** The least slot of an overfull index is an old one, unless the new one drains the ring. */
  lemma LeastIsOld(c: Chan, m: Notice)
    requires ChanOk(c) && |Enter(c.index, m, c.End())| > c.slotsMax
    requires Least(Enter(c.index, m, c.End()).Keys) != m.slot
    ensures var s := Least(Enter(c.index, m, c.End()).Keys);
      && m.slot !in c.index && |c.index| == c.slotsMax
      && s in c.index && s < m.slot && (forall t :: t in c.index ==> s <= t)
      && Enter(c.index, m, c.End())[s].head == c.index[s].head
  {
    var index := Enter(c.index, m, c.End());
    EnterSize(c.index, m, c.End());
    assert forall t :: t in c.index ==> t in index.Keys;
    assert m.slot in index.Keys;
  }

  /** If the limit can be met, the slot to go is not the new one. */
  lemma LeastIsNotNew(c: Chan, m: Notice, index: Index)
    requires ChanOk(c) && index == Enter(c.index, m, c.End()) && |index| > c.slotsMax
    requires (forall t :: t in index ==> c.head <= index[t].head <= c.End()) && SlotHead(c, index).Some?
    ensures Least(index.Keys) != m.slot
  {
    EnterSize(c.index, m, c.End());
  }

  lemma SlotEvictions(c: Chan, m: Notice, index: Index, i: nat) returns (s: nat)
    requires ChanOk(c) && index == Enter(c.index, m, c.End())
    requires (forall t :: t in index ==> c.head <= index[t].head <= c.End()) && SlotHead(c, index).Some?
    requires c.head <= i + c.cap < SlotHead(c, index).value
    ensures InLeastSlot(c, m, s, i)
  {
    LeastIsNotNew(c, m, index);
    LeastIsOld(c, m);
    s := Least(index.Keys);
    RunShows(c, index, s, i);
  }

  lemma EnteredHeads(c: Chan, m: Notice)
    requires ChanOk(c)
    ensures var index := Enter(c.index, m, c.End()); forall t :: t in index ==> c.head <= index[t].head <= c.End()
  {
    forall t | t in Enter(c.index, m, c.End())
      ensures c.head <= Enter(c.index, m, c.End())[t].head <= c.End()
    {
      EnteredHead(c, m, t);
    }
  }

  /** A push evicts an entry only if the least slot has to go with it, if the
      payloads from it on and the new one exceed the byte limit, or if it is the
      oldest one of a full ring. */
  lemma PushEvicts(c: Chan, m: Notice, data: seq<Byte>, i: nat)
    requires ChanOk(c) && AfterPush(c, m, data).Some?
    requires c.head <= i + c.cap < AfterPush(c, m, data).value.head
    ensures i < |c.log|
    ensures || (exists s :: InLeastSlot(c, m, s, i))
            || PayloadSum(c.log, i) + |data| > c.bytesMax
            || c.head == i + c.cap == |c.log|
  {
    var index := Enter(c.index, m, c.End());
    PushKeepsChannel(c, m, data);
    EnteredHeads(c, m);
    BytesArePayload(c.cap, c.log, i + c.cap);
    if i + c.cap < SlotHead(c, index).value { var s := SlotEvictions(c, m, index, i); }
  }

  /** So it evicts nothing when its slot and its payload fit beside the live ones
      and the ring is not full. */
  lemma PushEvictsNothing(c: Chan, m: Notice, data: seq<Byte>)
    requires ChanOk(c)
    requires m.slot in c.index || |c.index| < c.slotsMax
    requires PayloadSum(c.log, c.head - c.cap) + |data| <= c.bytesMax
    requires c.cap + |c.log| - c.head < c.cap
    ensures AfterPush(c, m, data).Some? && AfterPush(c, m, data).value.head == c.head
  {
    PushPanicsIff(c, m, data);
    PushKeepsChannel(c, m, data);
    if AfterPush(c, m, data).value.head > c.head { PushEvicts(c, m, data, c.head - c.cap); }
  }

  // ---------------------------------------------------------------------------
  // Back-filled updates
  // ---------------------------------------------------------------------------

  /** Update `i` announced before the message is that of an indexed slot which
      lacks the flag, with its recorded parent; and it is the recorded parent of the
      slot announced next. */
  ghost predicate AncestorAt(index: Index, m: Notice, ms: seq<Notice>, i: nat)
    requires i < |ms| - 1
  {
    && m.SlotMsg? && ms[i].SlotMsg? && ms[i].status == m.status
    && ms[i].slot in index && ms[i].parent == index[ms[i].slot].parent
    && ms[i + 1].slot in index && index[ms[i + 1].slot].parent == Some(ms[i].slot)
    && ((m.status == Confirmed && !index[ms[i].slot].confirmed) || (m.status == Rooted && !index[ms[i].slot].finalized))
  }

  lemma AnnouncesShow(index: Index, m: Notice, w: seq<nat>, ms: seq<Notice>, i: nat)
    requires m.SlotMsg? && Announces(index, m, w, ms) && Follows(index, m.slot, m.status, w) && i < |w|
    ensures AncestorAt(index, m, ms, i)
  {
    var k := |w| - 1 - i;
    assert ms[i] == SlotMsg(w[k], index[w[k]].parent, m.status);
    var node := Node(m.slot, w, k);
    assert node in index && index[node].parent == Some(w[k]) && Lacks(index[w[k]], m.status);
    if k > 0 { assert ms[i + 1] == SlotMsg(w[k - 1], index[w[k - 1]].parent, m.status); }
  }

  lemma AnnounceShows(index: Index, m: Notice, i: nat)
    requires i < |Announce(index, m)| - 1
    ensures AncestorAt(index, m, Announce(index, m), i)
  {
    AnnounceIs(index, m);
    WalkFollows(index, m.slot, m.status, |index| + 1);
    AnnouncesShow(index, m, Missed(index, m.slot, m.status), Announce(index, m), i);
  }

  /** Nothing is left to announce: the recorded parent of the first slot announced,
      if it is indexed, carries the flag. */
  ghost predicate NothingLeft(index: Index, m: Notice, first: nat)
    requires m.SlotMsg?
  {
    first in index && index[first].parent.Some? && index[first].parent.value in index ==>
      var p := index[first].parent.value;
      (m.status == Confirmed ==> index[p].confirmed) && (m.status == Rooted ==> index[p].finalized)
  }

  lemma NoneMissed(index: Index, m: Notice, first: nat)
    requires m.SlotMsg? && NextMissed(index, first, m.status).None?
    ensures NothingLeft(index, m, first)
  {
  }

  lemma AnnounceComplete(index: Index, m: Notice)
    requires m.SlotMsg? ==> Stops(index, m.slot, m.status)
    ensures var ms := Announce(index, m);
      |ms| >= 1 && ms[|ms| - 1] == m && if m.SlotMsg? then NothingLeft(index, m, ms[0].slot) else ms == [m]
  {
    if m.SlotMsg? {
      var w := Missed(index, m.slot, m.status);
      AnnounceIs(index, m);
      WalkIsChain(index, m.slot, m.status, |index| + 1);
      FirstAnnounced(index, m, w, Announce(index, m));
      NoneMissed(index, m, Node(m.slot, w, |w|));
    }
  }

  lemma FirstAnnounced(index: Index, m: Notice, w: seq<nat>, ms: seq<Notice>)
    requires m.SlotMsg? && Announces(index, m, w, ms)
    ensures ms[0].slot == Node(m.slot, w, |w|)
  {
    if w != [] { assert ms[0] == SlotMsg(w[|w| - 1], index[w[|w| - 1]].parent, m.status); }
  }

  // ---------------------------------------------------------------------------
  // Streams
  // ---------------------------------------------------------------------------

  /** Where the entries are whose kind is not switched off. */
  ghost function SwitchedOn(wants: Wants, es: Log): set<nat> {
    set i: nat | i < |es| && !SwitchedOff(wants, es[i])
  }

  /** The wanted payloads are, in order, exactly those of the entries whose kind is
      not switched off. */
  lemma {:induction false} WantedShows(wants: Wants, es: Log) returns (ix: seq<nat>)
    ensures Lists(ix, SwitchedOn(wants, es))
    ensures |Wanted(wants, es)| == |ix| && forall k :: 0 <= k < |ix| ==> Wanted(wants, es)[k] == es[ix[k]].body.bytes
    decreases |es|
  {
    if es == [] {
      ix := [];
    } else {
      var n := |es| - 1;
      var few := WantedShows(wants, es[..n]);
      ListsMore(few, SwitchedOn(wants, es[..n]), n);
      PassesMeans(wants, es[n]);
      ix := if SwitchedOff(wants, es[n]) then few else few + [n];
      assert SwitchedOn(wants, es) ==
        if SwitchedOff(wants, es[n]) then SwitchedOn(wants, es[..n]) else SwitchedOn(wants, es[..n]) + {n};
    }
  }

  /** In every interleaving a stream has delivered, in order, exactly the payloads
      of those entries from its start on whose kind it has not switched off. */
  lemma StreamShows(w0: World, es: seq<Event>, w: World, r: nat) returns (ix: seq<nat>)
    requires Fresh(w0) && Leads(w0, es, w) && r in w.rx
    ensures var x := w.rx[r];
      && w.cap <= x.start <= x.seen <= w.cap + |w.log|
      && var passed := w.log[x.start - w.cap..x.seen - w.cap];
         && Lists(ix, SwitchedOn(x.wants, passed))
         && |x.out| == |ix| && forall k :: 0 <= k < |ix| ==> x.out[k] == passed[ix[k]].body.bytes
  {
    StreamIsLog(w0, es, w, r);
    var x := w.rx[r];
    ix := WantedShows(x.wants, w.log[x.start - w.cap..x.seen - w.cap]);
  }
}
