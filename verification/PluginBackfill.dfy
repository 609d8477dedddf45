/** Back-filling of slot statuses the plugin was not told about: a Confirmed or
    Rooted update first announces the ancestors that lack the same status. */
module PluginBackfill {
  import opened Base
  import opened Ring
  import opened PluginSpec

  predicate Lacks(info: SlotInfo, status: SlotStatus) {
    (status.Confirmed? && !info.confirmed) || (status.Rooted? && !info.finalized)
  }

  /** The recorded parent of `slot`, if it is indexed and lacks `status`. */
  function NextMissed(index: Index, slot: nat, status: SlotStatus): (p: Option<nat>)
    ensures p.Some? ==> p.value in index && Lacks(index[p.value], status)
  {
    if slot in index && index[slot].parent.Some? && index[slot].parent.value in index
       && Lacks(index[index[slot].parent.value], status)
    then index[slot].parent
    else None
  }

  /** The first `n` ancestors the walk visits, nearest first; fewer if it stops. */
  function Walk(index: Index, slot: nat, status: SlotStatus, n: nat): (w: seq<nat>)
    ensures |w| <= n
    ensures forall i :: 0 <= i < |w| ==> w[i] in index && Lacks(index[w[i]], status)
    decreases n
  {
    if n == 0 then []
    else match NextMissed(index, slot, status)
      case None => []
      case Some(p) => [p] + Walk(index, p, status, n - 1)
  }

  /** The walk has not outgrown the index. */
  predicate Stops(index: Index, slot: nat, status: SlotStatus) {
    |Walk(index, slot, status, |index| + 1)| <= |index|
  }

  function Missed(index: Index, slot: nat, status: SlotStatus): seq<nat> {
    Walk(index, slot, status, |index| + 1)
  }

  // ---------------------------------------------------------------------------
  // Termination
  // ---------------------------------------------------------------------------

  function Node(slot: nat, w: seq<nat>, i: nat): nat
    requires i <= |w|
  {
    if i == 0 then slot else w[i - 1]
  }

  lemma {:induction false} WalkFrom(index: Index, slot: nat, status: SlotStatus, n: nat, i: nat)
    requires i <= |Walk(index, slot, status, n)|
    ensures var w := Walk(index, slot, status, n);
      w[i..] == Walk(index, Node(slot, w, i), status, n - i)
    decreases i
  {
    if i > 0 {
      var w := Walk(index, slot, status, n);
      WalkFrom(index, w[0], status, n - 1, i - 1);
      assert w[i..] == w[1..][i - 1..];
    }
  }

  lemma {:induction false} WalkSettled(index: Index, slot: nat, status: SlotStatus, n: nat, m: nat)
    requires |Walk(index, slot, status, n)| < n && |Walk(index, slot, status, n)| < m
    ensures Walk(index, slot, status, m) == Walk(index, slot, status, n)
    decreases n
  {
    match NextMissed(index, slot, status)
    case None =>
    case Some(p) => WalkSettled(index, p, status, n - 1, m - 1);
  }

  lemma {:induction false} WalkPrefix(index: Index, slot: nat, status: SlotStatus, n: nat, m: nat)
    requires n <= m && |Walk(index, slot, status, m)| == m
    ensures |Walk(index, slot, status, n)| == n
    decreases n
  {
    if n > 0 { WalkPrefix(index, NextMissed(index, slot, status).value, status, n - 1, m - 1); }
  }

  lemma {:induction false} DistinctFits(w: seq<nat>, s: set<nat>)
    requires forall i :: 0 <= i < |w| ==> w[i] in s
    requires forall i, j :: 0 <= i < j < |w| ==> w[i] != w[j]
    ensures |w| <= |s|
    decreases |w|
  {
    if w != [] {
      DistinctFits(w[1..], s - {w[0]});
    }
  }

  /** A walk that comes back to an ancestor has not stopped. */
  lemma RevisitGoesOn(index: Index, slot: nat, status: SlotStatus, n: nat, i: nat, j: nat)
    requires var w := Walk(index, slot, status, n); 0 <= i < j < |w| && w[i] == w[j]
    ensures |Walk(index, slot, status, n)| == n
  {
    var w := Walk(index, slot, status, n);
    WalkFrom(index, slot, status, n, i + 1);
    WalkFrom(index, slot, status, n, j + 1);
    assert Node(slot, w, i + 1) == w[i] && Node(slot, w, j + 1) == w[i];
    OneLength(index, w[i], status, n - i - 1, n - j - 1, |w| - i - 1, |w| - j - 1);
  }

  /** From one and the same ancestor a walk that stops has one length. */
  lemma OneLength(index: Index, slot: nat, status: SlotStatus, n: nat, m: nat, a: nat, b: nat)
    requires m < n && n - a == m - b
    requires |Walk(index, slot, status, n)| == a && |Walk(index, slot, status, m)| == b
    ensures a == n
  {
    if b < m { WalkSettled(index, slot, status, m, n); }
  }

  lemma RevisitDiverges(index: Index, slot: nat, status: SlotStatus, n: nat, i: nat, j: nat)
    requires var w := Walk(index, slot, status, n); 0 <= i < j < |w| && w[i] == w[j]
    ensures forall m :: |Walk(index, slot, status, m)| == m
  {
    forall m: nat ensures |Walk(index, slot, status, m)| == m {
      WalkAgrees(index, slot, status, n, m + n);
      RevisitGoesOn(index, slot, status, m + n, i, j);
      WalkPrefix(index, slot, status, m, m + n);
    }
  }

  lemma {:induction false} WalkAgrees(index: Index, slot: nat, status: SlotStatus, n: nat, m: nat)
    requires n <= m
    ensures Walk(index, slot, status, n) <= Walk(index, slot, status, m)
    decreases n
  {
    if n > 0 && NextMissed(index, slot, status).Some? {
      WalkAgrees(index, NextMissed(index, slot, status).value, status, n - 1, m - 1);
    }
  }

  /** A walk that has not stopped after as many ancestors as there are indexed slots never does. */
  lemma DivergesUnlessStops(index: Index, slot: nat, status: SlotStatus)
    ensures (forall n :: |Walk(index, slot, status, n)| == n) <==> !Stops(index, slot, status)
    ensures !Stops(index, slot, status) ==> Revisits(Walk(index, slot, status, |index| + 1))
  {
    var n := |index| + 1;
    var w := Walk(index, slot, status, n);
    if |w| == n {
      assert |index.Keys| == |index|;
      if !Revisits(w) {
        DistinctFits(w, index.Keys);
      } else {
        var i, j :| 0 <= i < j < |w| && w[i] == w[j];
        RevisitDiverges(index, slot, status, n, i, j);
      }
    } else {
      assert |Walk(index, slot, status, n)| != n;
    }
  }

  /** `w` follows recorded parents from `slot` through indexed slots that lack `status`. */
  ghost predicate Follows(index: Index, slot: nat, status: SlotStatus, w: seq<nat>) {
    forall i :: 0 <= i < |w| ==>
      && Node(slot, w, i) in index && index[Node(slot, w, i)].parent == Some(w[i])
      && w[i] in index && Lacks(index[w[i]], status)
  }

  ghost predicate Revisits(w: seq<nat>) {
    exists i, j :: 0 <= i < j < |w| && w[i] == w[j]
  }

  /** A closed chain of recorded parents, all of them lacking `status`, can be reached from `slot`. */
  ghost predicate ReachesCycle(index: Index, slot: nat, status: SlotStatus) {
    exists w :: Follows(index, slot, status, w) && Revisits(w)
  }

  lemma {:induction false} FollowsIsWalk(index: Index, slot: nat, status: SlotStatus, w: seq<nat>)
    requires Follows(index, slot, status, w)
    ensures w == Walk(index, slot, status, |w|)
    decreases |w|
  {
    if w != [] {
      FollowsRest(index, slot, status, w);
      FollowsIsWalk(index, w[0], status, w[1..]);
    }
  }

  lemma FollowsRest(index: Index, slot: nat, status: SlotStatus, w: seq<nat>)
    requires Follows(index, slot, status, w) && w != []
    ensures NextMissed(index, slot, status) == Some(w[0]) && Follows(index, w[0], status, w[1..])
  {
    var rest := w[1..];
    assert Node(slot, w, 0) == slot;
    forall i | 0 <= i < |rest|
      ensures Node(w[0], rest, i) in index && index[Node(w[0], rest, i)].parent == Some(rest[i])
           && rest[i] in index && Lacks(index[rest[i]], status)
    {
      assert Node(w[0], rest, i) == Node(slot, w, i + 1) && rest[i] == w[i + 1];
    }
  }

  lemma {:induction false} WalkFollows(index: Index, slot: nat, status: SlotStatus, n: nat)
    ensures Follows(index, slot, status, Walk(index, slot, status, n))
    decreases n
  {
    if n > 0 && NextMissed(index, slot, status).Some? {
      var p := NextMissed(index, slot, status).value;
      var w, rest := Walk(index, slot, status, n), Walk(index, p, status, n - 1);
      WalkFollows(index, p, status, n - 1);
      assert w == [p] + rest;
      forall i | 0 <= i < |w|
        ensures Node(slot, w, i) in index && index[Node(slot, w, i)].parent == Some(w[i])
             && w[i] in index && Lacks(index[w[i]], status)
      {
        if i > 0 {
          assert Node(slot, w, i) == Node(p, rest, i - 1) && w[i] == rest[i - 1];
        }
      }
    }
  }

  /** The walk of `push` runs for ever exactly when it can reach a cycle of
      recorded parents that all lack the status, and otherwise it stops. */
  lemma DivergesIff(index: Index, slot: nat, status: SlotStatus)
    ensures (forall n :: |Walk(index, slot, status, n)| == n) <==> ReachesCycle(index, slot, status)
    ensures Stops(index, slot, status) <==> !ReachesCycle(index, slot, status)
  {
    DivergesUnlessStops(index, slot, status);
    if ReachesCycle(index, slot, status) {
      var w :| Follows(index, slot, status, w) && Revisits(w);
      var i, j :| 0 <= i < j < |w| && w[i] == w[j];
      FollowsIsWalk(index, slot, status, w);
      RevisitDiverges(index, slot, status, |w|, i, j);
    }
    if !Stops(index, slot, status) { WalkFollows(index, slot, status, |index| + 1); }
  }

  /** Such a cycle can be had: a fresh channel is told that slot 5 is its own parent. */
  lemma SelfParentLoops()
    ensures exists c: Chan, m: Notice ::
      && ChanOk(c) && c.log == [] && AfterPush(c, m, []).Some?
      && ReachesCycle(AfterPush(c, m, []).value.index, m.slot, Confirmed)
  {
    var c, m := Chan(4, 2, 100, 4, [], map[]), SlotMsg(5, Some(5), Processed);
    var index := Enter(c.index, m, c.End());
    assert index.Keys == {5} && |index| == 1;
    assert Bytes(4, c.log, 4) == 0 && FitFrom(4, c.log, 4, 100) == 4;
    var c' := AfterPush(c, m, []).value;
    assert c'.index == index;
    var w := [5, 5];
    assert Node(5, w, 0) == 5 && Node(5, w, 1) == 5;
    assert Follows(c'.index, 5, Confirmed, w);
    assert w[0] == w[1];
    assert ReachesCycle(c'.index, 5, Confirmed);
  }

  /** Recorded parents are older than their slots. */
  predicate ParentsOlder(index: Index) {
    forall t :: t in index && index[t].parent.Some? ==> index[t].parent.value < t
  }

  /** In a ledger, where a parent is older than its child, the walk stops. */
  lemma OlderParentsStop(index: Index, slot: nat, status: SlotStatus)
    requires ParentsOlder(index)
    ensures Stops(index, slot, status)
  {
    var w := Walk(index, slot, status, |index| + 1);
    WalkDescends(index, slot, status, |index| + 1);
    assert |index.Keys| == |index|;
    DistinctFits(w, index.Keys);
  }

  /** From `slot`, ever older. */
  predicate Descends(slot: nat, w: seq<nat>) {
    (forall i :: 0 <= i < |w| ==> w[i] < slot) && (forall i, j :: 0 <= i < j < |w| ==> w[j] < w[i])
  }

  lemma DescendsFrom(slot: nat, p: nat, rest: seq<nat>, w: seq<nat>)
    requires p < slot && Descends(p, rest) && w == [p] + rest
    ensures Descends(slot, w)
  {
    assert forall i :: 0 < i < |w| ==> w[i] == rest[i - 1];
  }

  lemma {:induction false} WalkDescends(index: Index, slot: nat, status: SlotStatus, n: nat)
    requires ParentsOlder(index)
    ensures Descends(slot, Walk(index, slot, status, n))
    decreases n
  {
    if n > 0 && NextMissed(index, slot, status).Some? {
      var p := NextMissed(index, slot, status).value;
      WalkDescends(index, p, status, n - 1);
      DescendsFrom(slot, p, Walk(index, p, status, n - 1), Walk(index, slot, status, n));
    }
  }

  // ---------------------------------------------------------------------------
  // What is synthesised
  // ---------------------------------------------------------------------------

  /** `w` follows recorded parents lacking `status`, and cannot be continued. */
  ghost predicate MaximalChain(index: Index, slot: nat, status: SlotStatus, w: seq<nat>) {
    Follows(index, slot, status, w) && NextMissed(index, Node(slot, w, |w|), status).None?
  }

  lemma {:induction false} ChainIsWalk(index: Index, slot: nat, status: SlotStatus, w: seq<nat>, n: nat)
    requires MaximalChain(index, slot, status, w) && n > |w|
    ensures w == Walk(index, slot, status, n)
    decreases |w|
  {
    if w != [] {
      FollowsRest(index, slot, status, w);
      assert Node(w[0], w[1..], |w| - 1) == Node(slot, w, |w|);
      ChainIsWalk(index, w[0], status, w[1..], n - 1);
    }
  }

  lemma WalkIsChain(index: Index, slot: nat, status: SlotStatus, n: nat)
    requires |Walk(index, slot, status, n)| < n
    ensures MaximalChain(index, slot, status, Walk(index, slot, status, n))
  {
    var w := Walk(index, slot, status, n);
    WalkFollows(index, slot, status, n);
    WalkFrom(index, slot, status, n, |w|);
    assert Walk(index, Node(slot, w, |w|), status, n - |w|) == [];
  }

  /** A walk that stops visits the one maximal chain of parents lacking the status. */
  lemma MissedIsMaximalChain(index: Index, slot: nat, status: SlotStatus, w: seq<nat>)
    requires Stops(index, slot, status)
    ensures w == Missed(index, slot, status) <==> MaximalChain(index, slot, status, w)
  {
    WalkIsChain(index, slot, status, |index| + 1);
    if MaximalChain(index, slot, status, w) {
      var n := if |w| > |index| then |w| + 1 else |index| + 1;
      ChainIsWalk(index, slot, status, w, n);
      WalkSettled(index, slot, status, |index| + 1, n);
    }
  }

  /** Ancestors first, then the message itself. */
  function Announce(index: Index, m: Notice): (ms: seq<Notice>)
    ensures |ms| >= 1 && ms[|ms| - 1] == m
  {
    if m.SlotMsg? then Oldest(index, m.status, Missed(index, m.slot, m.status)) + [m] else [m]
  }

  /** The updates for `w`, last ancestor first. */
  function Oldest(index: Index, status: SlotStatus, w: seq<nat>): (ms: seq<Notice>)
    requires forall i :: 0 <= i < |w| ==> w[i] in index
    ensures |ms| == |w|
    ensures forall i :: 0 <= i < |w| ==>
      ms[i] == SlotMsg(w[|w| - 1 - i], index[w[|w| - 1 - i]].parent, status)
  {
    if w == [] then []
    else Oldest(index, status, w[1..]) + [SlotMsg(w[0], index[w[0]].parent, status)]
  }

  // ---------------------------------------------------------------------------
  // A whole push
  // ---------------------------------------------------------------------------

  function EntriesOf(ms: seq<Notice>, encode: Notice -> seq<Byte>): (es: Log)
    ensures |es| == |ms| && forall i :: 0 <= i < |ms| ==> es[i] == ToEntry(ms[i], encode(ms[i]))
  {
    seq(|ms|, i requires 0 <= i < |ms| => ToEntry(ms[i], encode(ms[i])))
  }

  lemma EntriesSplit(log: Log, ms: seq<Notice>, encode: Notice -> seq<Byte>)
    requires ms != []
    ensures log + [ToEntry(ms[0], encode(ms[0]))] + EntriesOf(ms[1..], encode) == log + EntriesOf(ms, encode)
  {
    assert EntriesOf(ms, encode) == [ToEntry(ms[0], encode(ms[0]))] + EntriesOf(ms[1..], encode);
  }

  /** Pushes one after the other; `None` if one of them panics. */
  ghost function AfterPushes(c: Chan, ms: seq<Notice>, encode: Notice -> seq<Byte>): (r: Option<Chan>)
    requires ChanOk(c)
    ensures r.Some? ==> ChanOk(r.value) && r.value.log == c.log + EntriesOf(ms, encode)
    decreases |ms|
  {
    if ms == [] then Some(c)
    else match AfterPush(c, ms[0], encode(ms[0]))
      case None => None
      case Some(c') =>
        PushKeepsChannel(c, ms[0], encode(ms[0]));
        EntriesSplit(c.log, ms, encode);
        AfterPushes(c', ms[1..], encode)
  }

  /** Some payload is larger than the byte limit. */
  ghost predicate Oversized(ms: seq<Notice>, encode: Notice -> seq<Byte>, bytesMax: nat) {
    exists i :: 0 <= i < |ms| && |encode(ms[i])| > bytesMax
  }

  lemma OversizedSplit(ms: seq<Notice>, encode: Notice -> seq<Byte>, bytesMax: nat)
    requires ms != []
    ensures Oversized(ms, encode, bytesMax) <==> |encode(ms[0])| > bytesMax || Oversized(ms[1..], encode, bytesMax)
  {
    if Oversized(ms[1..], encode, bytesMax) {
      var i :| 0 <= i < |ms[1..]| && |encode(ms[1..][i])| > bytesMax;
      assert ms[i + 1] == ms[1..][i];
    }
    if Oversized(ms, encode, bytesMax) && |encode(ms[0])| <= bytesMax {
      var i :| 0 <= i < |ms| && |encode(ms[i])| > bytesMax;
      assert ms[1..][i - 1] == ms[i];
    }
  }

  /** Within a set of slots that fits the limit, a push drains nothing and leaves the set. */
  lemma PushWithin(c: Chan, m: Notice, data: seq<Byte>, keys: set<nat>)
    requires ChanOk(c) && c.index.Keys <= keys && |keys| <= c.slotsMax && m.slot in keys
    ensures AfterPush(c, m, data).None? <==> |data| > c.bytesMax
    ensures AfterPush(c, m, data).Some? ==> AfterPush(c, m, data).value.index.Keys <= keys
  {
    PushPanicsIff(c, m, data);
    if m.slot !in c.index {
      SubsetSize(c.index.Keys + {m.slot}, keys);
      assert |c.index.Keys + {m.slot}| == |c.index| + 1;
    }
  }

  lemma {:induction false} PushesWithin(c: Chan, ms: seq<Notice>, encode: Notice -> seq<Byte>, keys: set<nat>)
    requires ChanOk(c) && c.index.Keys <= keys && |keys| <= c.slotsMax
    requires forall i :: 0 <= i < |ms| ==> ms[i].slot in keys
    ensures AfterPushes(c, ms, encode).None? <==> Oversized(ms, encode, c.bytesMax)
    decreases |ms|
  {
    if ms != [] {
      PushWithin(c, ms[0], encode(ms[0]), keys);
      OversizedSplit(ms, encode, c.bytesMax);
      if AfterPush(c, ms[0], encode(ms[0])).Some? {
        PushKeepsChannel(c, ms[0], encode(ms[0]));
        PushesWithin(AfterPush(c, ms[0], encode(ms[0])).value, ms[1..], encode, keys);
      }
    }
  }

  /** Everything announced besides `m` is indexed already. */
  lemma AnnouncedIndexed(index: Index, m: Notice, i: nat)
    requires i < |Announce(index, m)|
    ensures Announce(index, m)[i] == m || (m.slot in index && Announce(index, m)[i].slot in index)
  {
    if m.SlotMsg? && i < |Announce(index, m)| - 1 {
      var w := Missed(index, m.slot, m.status);
      assert w != [];
      assert NextMissed(index, m.slot, m.status).Some?;
    }
  }

  lemma OnePush(c: Chan, m: Notice, encode: Notice -> seq<Byte>)
    requires ChanOk(c)
    ensures AfterPushes(c, [m], encode).None? <==> AfterPush(c, m, encode(m)).None?
    ensures Oversized([m], encode, c.bytesMax) <==> |encode(m)| > c.bytesMax
  {
    assert [m][0] == m;
    if AfterPush(c, m, encode(m)).Some? {
      PushKeepsChannel(c, m, encode(m));
      assert [m][1..] == [];
    }
  }

  /** A whole push panics exactly when one of the payloads it announces is larger
      than the byte limit, or the slot of the message drains the ring: ancestors,
      being indexed already, never do. */
  lemma PushesPanicIff(c: Chan, m: Notice, encode: Notice -> seq<Byte>)
    requires ChanOk(c)
    ensures AfterPushes(c, Announce(c.index, m), encode).None? <==>
      Oversized(Announce(c.index, m), encode, c.bytesMax) || Drains(c, m.slot)
  {
    var ms := Announce(c.index, m);
    if m.slot in c.index {
      forall i | 0 <= i < |ms| ensures ms[i].slot in c.index.Keys { AnnouncedIndexed(c.index, m, i); }
      PushesWithin(c, ms, encode, c.index.Keys);
    } else {
      forall i | 0 <= i < |ms| ensures ms[i] == m { AnnouncedIndexed(c.index, m, i); }
      assert NextMissed(c.index, m.slot, if m.SlotMsg? then m.status else Processed).None?;
      assert ms == [m];
      OnePush(c, m, encode);
      PushPanicsIff(c, m, encode(m));
    }
  }

  ghost predicate Marked(index: Index, t: nat, status: SlotStatus) {
    t in index ==> !Lacks(index[t], status)
  }

  ghost predicate Names(ms: seq<Notice>, t: nat) {
    exists i :: 0 <= i < |ms| && ms[i].slot == t
  }

  lemma NamesSplit(ms: seq<Notice>, t: nat)
    requires ms != []
    ensures Names(ms, t) <==> ms[0].slot == t || Names(ms[1..], t)
  {
    if Names(ms[1..], t) {
      var i :| 0 <= i < |ms[1..]| && ms[1..][i].slot == t;
      assert ms[i + 1].slot == t;
    }
    if Names(ms, t) && ms[0].slot != t {
      var i :| 0 <= i < |ms| && ms[i].slot == t;
      assert ms[1..][i - 1].slot == t;
    }
  }

  lemma PushMarks(c: Chan, m: Notice, data: seq<Byte>, status: SlotStatus, t: nat)
    requires ChanOk(c) && AfterPush(c, m, data).Some?
    requires m.SlotMsg? && m.status == status
    requires t == m.slot || Marked(c.index, t, status)
    ensures Marked(AfterPush(c, m, data).value.index, t, status)
  {
    var index := Enter(c.index, m, c.End());
    assert Marked(index, t, status);
  }

  /** Once announced with a status, a slot carries it for as long as it is indexed. */
  lemma {:induction false} PushesMark(c: Chan, ms: seq<Notice>, encode: Notice -> seq<Byte>, status: SlotStatus, t: nat)
    requires ChanOk(c) && AfterPushes(c, ms, encode).Some?
    requires forall i :: 0 <= i < |ms| ==> ms[i].SlotMsg? && ms[i].status == status
    requires Marked(c.index, t, status) || Names(ms, t)
    ensures Marked(AfterPushes(c, ms, encode).value.index, t, status)
    decreases |ms|
  {
    if ms != [] {
      var c' := AfterPush(c, ms[0], encode(ms[0])).value;
      PushKeepsChannel(c, ms[0], encode(ms[0]));
      if t == ms[0].slot || Marked(c.index, t, status) {
        PushMarks(c, ms[0], encode(ms[0]), status, t);
      }
      NamesSplit(ms, t);
      PushesMark(c', ms[1..], encode, status, t);
    }
  }

  ghost predicate ParentIs(index: Index, slot: nat, parent: Option<nat>) {
    slot in index && index[slot].parent.Some? ==> index[slot].parent == parent
  }

  /** No push of this sequence records another parent for `slot`. */
  lemma {:induction false} PushesKeepParent(c: Chan, ms: seq<Notice>, encode: Notice -> seq<Byte>, slot: nat,
      parent: Option<nat>)
    requires ChanOk(c) && AfterPushes(c, ms, encode).Some?
    requires ParentIs(c.index, slot, parent)
    requires forall i :: 0 <= i < |ms| && ms[i].slot == slot ==>
      ms[i].SlotMsg? && (ms[i].parent.None? || ms[i].parent == parent)
    ensures ParentIs(AfterPushes(c, ms, encode).value.index, slot, parent)
    decreases |ms|
  {
    if ms != [] {
      var c' := AfterPush(c, ms[0], encode(ms[0])).value;
      PushKeepsChannel(c, ms[0], encode(ms[0]));
      assert ParentIs(c'.index, slot, parent);
      PushesKeepParent(c', ms[1..], encode, slot, parent);
    }
  }

  lemma {:induction false} PushesAddOnly(c: Chan, ms: seq<Notice>, encode: Notice -> seq<Byte>, t: nat)
    requires ChanOk(c) && AfterPushes(c, ms, encode).Some?
    requires t in AfterPushes(c, ms, encode).value.index
    ensures t in c.index || Names(ms, t)
    decreases |ms|
  {
    if ms != [] {
      var c' := AfterPush(c, ms[0], encode(ms[0])).value;
      PushKeepsChannel(c, ms[0], encode(ms[0]));
      PushesAddOnly(c', ms[1..], encode, t);
      NamesSplit(ms, t);
    }
  }

  /** A Confirmed or Rooted update that names no other parent than the one
      already recorded leaves nothing for its repetition to announce. */
  lemma RepeatAnnouncesNothing(c: Chan, m: Notice, encode: Notice -> seq<Byte>)
    requires ChanOk(c) && m.SlotMsg? && (m.status.Confirmed? || m.status.Rooted?)
    requires m.parent.None? || (m.slot in c.index && c.index[m.slot].parent == m.parent)
    requires Stops(c.index, m.slot, m.status)
    requires AfterPushes(c, Announce(c.index, m), encode).Some?
    ensures Announce(AfterPushes(c, Announce(c.index, m), encode).value.index, m) == [m]
  {
    if m.slot in c.index && c.index[m.slot].parent.Some? {
      ParentMarked(c, m, encode, Announce(c.index, m), c.index[m.slot].parent.value);
    } else {
      assert NextMissed(c.index, m.slot, m.status) == None;
      NoParent(c, m, encode, Announce(c.index, m));
    }
  }

  /** After the push the recorded parent carries the status. */
  lemma ParentMarked(c: Chan, m: Notice, encode: Notice -> seq<Byte>, ms: seq<Notice>, p: nat)
    requires ChanOk(c) && m.SlotMsg? && m.slot in c.index && c.index[m.slot].parent == Some(p)
    requires m.parent.None? || m.parent == Some(p)
    requires Stops(c.index, m.slot, m.status)
    requires ms == Announce(c.index, m) && AfterPushes(c, ms, encode).Some?
    ensures NextMissed(AfterPushes(c, ms, encode).value.index, m.slot, m.status) == None
  {
    AnnounceNames(c.index, m);
    PushesKeepParent(c, ms, encode, m.slot, Some(p));
    if p in AfterPushes(c, ms, encode).value.index {
      PushesAddOnly(c, ms, encode, p);
      PushesMark(c, ms, encode, m.status, p);
    }
  }

  /** Without a recorded parent none is recorded by the push either. */
  lemma NoParent(c: Chan, m: Notice, encode: Notice -> seq<Byte>, ms: seq<Notice>)
    requires ChanOk(c) && m.SlotMsg? && m.parent.None? && ParentIs(c.index, m.slot, None)
    requires ms == [m] && AfterPushes(c, ms, encode).Some?
    ensures NextMissed(AfterPushes(c, ms, encode).value.index, m.slot, m.status) == None
  {
    PushesKeepParent(c, ms, encode, m.slot, None);
  }

  /** `ms` are the updates for the ancestors `w`, the last one first, and then `m`. */
  ghost predicate Announces(index: Index, m: Notice, w: seq<nat>, ms: seq<Notice>)
    requires m.SlotMsg?
  {
    && |ms| == |w| + 1 && ms[|w|] == m && (forall i :: 0 <= i < |w| ==> w[i] in index)
    && forall i :: 0 <= i < |w| ==> ms[i] == SlotMsg(w[|w| - 1 - i], index[w[|w| - 1 - i]].parent, m.status)
  }

  lemma AnnounceIs(index: Index, m: Notice)
    requires m.SlotMsg?
    ensures Announces(index, m, Missed(index, m.slot, m.status), Announce(index, m))
  {
    var w := Missed(index, m.slot, m.status);
    OldestAnnounces(index, m, w, Oldest(index, m.status, w));
  }

  lemma OldestAnnounces(index: Index, m: Notice, w: seq<nat>, ups: seq<Notice>)
    requires m.SlotMsg? && (forall i :: 0 <= i < |w| ==> w[i] in index) && ups == Oldest(index, m.status, w)
    ensures Announces(index, m, w, ups + [m])
  {
    var ms := ups + [m];
    forall i | 0 <= i < |w| ensures ms[i] == SlotMsg(w[|w| - 1 - i], index[w[|w| - 1 - i]].parent, m.status) {
      assert ms[i] == ups[i];
    }
  }

  lemma AnnouncesName(index: Index, m: Notice, w: seq<nat>, ms: seq<Notice>)
    requires m.SlotMsg? && Announces(index, m, w, ms)
    ensures forall i :: 0 <= i < |ms| ==> ms[i].SlotMsg? && ms[i].status == m.status
    ensures forall i :: 0 <= i < |ms| - 1 ==> ms[i].slot in index && ms[i].parent == index[ms[i].slot].parent
    ensures w != [] ==> Names(ms, w[0])
  {
    forall i | 0 <= i < |w| ensures ms[i].slot in index && ms[i].parent == index[ms[i].slot].parent {
      assert w[|w| - 1 - i] in index;
    }
    if w != [] { assert ms[|w| - 1].slot == w[0]; }
  }

  /** Everything announced carries the status of `m`, names recorded parents, and
      the parent of `m.slot` is among it unless it is marked already. */
  lemma AnnounceNames(index: Index, m: Notice)
    requires m.SlotMsg? && m.slot in index && index[m.slot].parent.Some?
    requires Stops(index, m.slot, m.status)
    ensures var ms, p := Announce(index, m), index[m.slot].parent.value;
      && (forall i :: 0 <= i < |ms| ==> ms[i].SlotMsg? && ms[i].status == m.status)
      && (forall i :: 0 <= i < |ms| - 1 ==> ms[i].slot in index && ms[i].parent == index[ms[i].slot].parent)
      && (Marked(index, p, m.status) || Names(ms, p))
  {
    var p, w := index[m.slot].parent.value, Missed(index, m.slot, m.status);
    AnnounceIs(index, m);
    AnnouncesName(index, m, w, Announce(index, m));
    if !Marked(index, p, m.status) { assert NextMissed(index, m.slot, m.status) == Some(p) && w[0] == p; }
  }
}
