/** What the richat sender publishes and forgets, once more, in terms of the
    messages pushed alone. */
module RichatLaws {
  import opened Base
  import opened BlockBuilder
  import opened RichatHub
  import opened RichatSender

  // ---------------------------------------------------------------------------
  // What a slot remembers
  // ---------------------------------------------------------------------------

  /** `m` makes the sender forget slot `s`. */
  predicate Forgets(m: Parsed, grpc: bool, s: nat) {
    grpc && m.PSlot? && m.commitment == Finalized && s <= m.slot
  }

  /** Where the messages of slot `s` are that came since it was last forgotten. */
  ghost function Remembered(ms: seq<Parsed>, grpc: bool, s: nat): set<nat> {
    set i: nat | i < |ms| && ms[i].slot == s && forall k :: i <= k < |ms| ==> !Forgets(ms[k], grpc, s)
  }

  lemma RememberedMore(ms: seq<Parsed>, grpc: bool, s: nat)
    requires ms != []
    ensures var n := |ms| - 1;
      Remembered(ms, grpc, s) ==
        if Forgets(ms[n], grpc, s) then {}
        else Remembered(ms[..n], grpc, s) + if ms[n].slot == s then {n} else {}
  {
    var n := |ms| - 1;
    var init := ms[..n];
    forall i: nat | i < n && !Forgets(ms[n], grpc, s)
      ensures i in Remembered(init, grpc, s) <==> i in Remembered(ms, grpc, s)
    {
      if i in Remembered(ms, grpc, s) {
        assert forall k :: i <= k < n ==> init[k] == ms[k];
      }
      if i in Remembered(init, grpc, s) {
        forall k | i <= k < |ms| ensures !Forgets(ms[k], grpc, s) { assert k < n ==> init[k] == ms[k]; }
      }
    }
  }

  lemma TrackStep(hub: Hub, m: Parsed, grpc: bool, s: nat)
    ensures TrackOf(Step(hub, m, grpc), s).history ==
      if Forgets(m, grpc, s) then [] else TrackOf(hub, s).history + if m.slot == s then [m] else []
  {
  }

  /** In every run a slot's history is, in order, exactly what came for it since it was last forgotten. */
  lemma {:induction false} HistoryShows(ms: seq<Parsed>, grpc: bool, s: nat)
    ensures Extracts(TrackOf(Run(ms, grpc), s).history, ms, Remembered(ms, grpc, s))
    decreases |ms|
  {
    if ms == [] {
      assert Lists([], {}) && Reads([], ms, []);
    } else {
      var n := |ms| - 1;
      var hub := Run(ms[..n], grpc);
      HistoryShows(ms[..n], grpc, s);
      RememberedMore(ms, grpc, s);
      TrackStep(hub, ms[n], grpc, s);
      HistoryStep(ms, grpc, s, TrackOf(hub, s).history);
    }
  }

  lemma HistoryStep(ms: seq<Parsed>, grpc: bool, s: nat, h: History)
    requires ms != [] && Extracts(h, ms[..|ms| - 1], Remembered(ms[..|ms| - 1], grpc, s))
    requires Remembered(ms, grpc, s) ==
      if Forgets(ms[|ms| - 1], grpc, s) then {}
      else Remembered(ms[..|ms| - 1], grpc, s) + if ms[|ms| - 1].slot == s then {|ms| - 1} else {}
    ensures var n := |ms| - 1;
      Extracts(if Forgets(ms[n], grpc, s) then [] else h + if ms[n].slot == s then [ms[n]] else [],
               ms, Remembered(ms, grpc, s))
  {
    var n := |ms| - 1;
    if Forgets(ms[n], grpc, s) {
      assert Lists([], {}) && Reads([], ms, []);
    } else {
      var was := Remembered(ms[..n], grpc, s);
      var ix :| Lists(ix, was) && Reads(h, ms[..n], ix);
      ReadsMore(h, ms, ix);
      if ms[n].slot == s {
        ListsMore(ix, was, n);
      } else {
        assert h + [] == h && was + {} == was;
      }
    }
  }

  // ---------------------------------------------------------------------------
  // What an update releases
  // ---------------------------------------------------------------------------

  /** Where the messages are that are stored and that nothing has superseded. */
  ghost function Kept(h: History): set<nat> {
    set i: nat | i < |h| && !h[i].PSlot? && !Erased(h, i)
  }

  /** The counts meet after `n` messages, and not before. */
  ghost predicate FirstMetAt(h: History, n: nat) {
    n <= |h| && CountsMet(h[..n]) && forall k :: 0 <= k < n ==> !CountsMet(h[..k])
  }

  /** `out` is everything the slot has to offer: its stored messages in order, up to
      and including the one that completed the block, and then the block. */
  ghost predicate Offers(out: History, h: History) {
    && (forall n: nat :: FirstMetAt(h, n) ==>
          && out != []
          && Extracts(out[..|out| - 1], h[..n], Kept(h[..n]))
          && BlockShows(out[|out| - 1], h[..n]))
    && ((forall n: nat :: !FirstMetAt(h, n)) ==> Extracts(out, h, Kept(h)))
  }

  ghost function Standing(s: seq<Option<Parsed>>): set<nat> {
    set i: nat | i < |s| && s[i].Some?
  }

  lemma StandingMore(s: seq<Option<Parsed>>, less: seq<nat>) returns (ix: seq<nat>)
    requires s != [] && Lists(less, Standing(s[..|s| - 1])) && Fills(Present(s[..|s| - 1]), s[..|s| - 1], less)
    ensures Lists(ix, Standing(s)) && Fills(Present(s), s, ix)
  {
    var n := |s| - 1;
    var was := Standing(s[..n]);
    FillsMore(Present(s[..n]), s, less);
    if s[n].Some? {
      ix := less + [n];
      ListsMore(less, was, n);
      assert Standing(s) == was + {n};
    } else {
      ix := less;
      assert Standing(s) == was;
    }
  }

  lemma {:induction false} PresentLists(s: seq<Option<Parsed>>) returns (ix: seq<nat>)
    ensures Lists(ix, Standing(s)) && Fills(Present(s), s, ix)
    decreases |s|
  {
    if s == [] {
      ix := [];
    } else {
      ix := PresentLists(s[..|s| - 1]);
      ix := StandingMore(s, ix);
    }
  }

  lemma KeptLists(h: History, ix: seq<nat>, iy: seq<nat>)
    requires Lists(ix, NotSlots(h)) && Reads(Items(h), h, ix)
    requires Lists(iy, Standing(Retained(Items(h))))
    ensures Lists(At(ix, iy), Kept(h))
  {
    forall x | 0 <= x < |ix| ensures ix[x] in Kept(h) <==> x in Standing(Retained(Items(h))) {
      ErasedAt(h, Items(h), ix, x);
    }
    ListsTwice(ix, NotSlots(h), iy, Standing(Retained(Items(h))), Kept(h));
  }

  lemma RetainedShows(h: History)
    ensures Extracts(Present(Retained(Items(h))), h, Kept(h))
  {
    var ix := ItemsList(h);
    var iy := PresentLists(Retained(Items(h)));
    KeptLists(h, ix, iy);
    AccountsRead(h, Items(h), Retained(Items(h)), ix, iy, Present(Retained(Items(h))));
  }

  lemma NoneBefore(p: History, h: History, k: nat)
    requires p <= h && k < |p| && !Created(p[..|p| - 1])
    ensures !CountsMet(h[..k])
  {
    CreatedCounts(p[..|p| - 1]);
    assert p[..|p| - 1][..k] == h[..k];
  }

  lemma SealedFirst(h: History, p: History)
    requires p <= h && Complete(p) && (p == [] || !Created(p[..|p| - 1]))
    ensures FirstMetAt(h, |p|) && h[..|p|] == p
  {
    CompleteMeans(p);
    assert h[..|p|] == p;
    forall k | 0 <= k < |p| ensures !CountsMet(h[..k]) { NoneBefore(p, h, k); }
  }

  lemma SealedShows(p: History)
    requires Complete(p)
    ensures var out := Present(Retained(Items(p)) + [Some(BlockOf(p))]);
      out != [] && Extracts(out[..|out| - 1], p, Kept(p)) && BlockShows(out[|out| - 1], p)
  {
    RetainedShows(p);
    BlockMeans(p);
    var kept := Retained(Items(p));
    assert (kept + [Some(BlockOf(p))])[..|kept|] == kept;
    assert (Present(kept) + [BlockOf(p)])[..|Present(kept)|] == Present(kept);
  }

  /** What a slot stores is what its history has to offer. */
  lemma StoredShows(h: History)
    ensures Offers(Present(Stored(h)), h)
  {
    CreatedCounts(h);
    if Created(h) {
      var p := Sealed(h);
      SealedFirst(h, p);
      SealedShows(p);
      assert forall n: nat :: FirstMetAt(h, n) ==> n == |p|;
    } else {
      RetainedShows(h);
    }
  }

  lemma StoredIgnoresSlots(h: History, m: Parsed)
    requires m.PSlot?
    ensures Stored(h + [m]) == Stored(h)
  {
    HistoryGrows(h, m);
    if !Created(h) {
      SlotNeverCompletes(h, m);
      assert Items(h) + [] == Items(h);
    }
  }

  lemma RunMore(ms: seq<Parsed>, m: Parsed, grpc: bool)
    ensures Run(ms + [m], grpc) == Step(Run(ms, grpc), m, grpc)
  {
    assert (ms + [m])[..|ms|] == ms;
  }

  function LogOf(hub: Hub, level: Commitment): seq<Sent> {
    if level == Confirmed then hub.confirmed else hub.finalized
  }

  /** The log of `level` gained the update `m`, and if that is to its own commitment
      everything that the history `h` of its slot has to offer. */
  ghost predicate Grows(log: seq<Sent>, log': seq<Sent>, m: Parsed, grpc: bool, level: Commitment, h: History) {
    if !grpc || !m.PSlot? then log' == log
    else
      && |log| < |log'| && log'[..|log|] == log && log'[|log|].msg == m
      && (m.commitment != level ==> |log'| == |log| + 1)
      && (m.commitment == level ==> Offers(Msgs(log'[|log| + 1..]), h))
  }

  /** After any run, a slot update is appended to the confirmed and to the finalized
      log; in the log of its own commitment it is followed by everything its slot
      has to offer of what came since it was last forgotten.  Nothing else is
      appended, and without gRPC or for any other message nothing at all. */
  lemma ReleasesExactly(ms: seq<Parsed>, m: Parsed, grpc: bool, level: Commitment) returns (h: History)
    requires !m.PBlock? && forall i :: 0 <= i < |ms| ==> !ms[i].PBlock?
    requires level == Confirmed || level == Finalized
    ensures Extracts(h, ms, Remembered(ms, grpc, m.slot))
    ensures Grows(LogOf(Run(ms, grpc), level), LogOf(Run(ms + [m], grpc), level), m, grpc, level, h)
  {
    var hub := Run(ms, grpc);
    h := TrackOf(hub, m.slot).history;
    HistoryShows(ms, grpc, m.slot);
    RunKeepsHub(ms, grpc);
    RunMore(ms, m, grpc);
    StepShows(hub, m, grpc, level);
  }

  lemma StepShows(hub: Hub, m: Parsed, grpc: bool, level: Commitment)
    requires HubOk(hub) && (level == Confirmed || level == Finalized)
    ensures Grows(LogOf(hub, level), LogOf(Step(hub, m, grpc), level), m, grpc, level, TrackOf(hub, m.slot).history)
  {
    if grpc && m.PSlot? {
      ReleaseOffers(hub, m, level);
      var t := Absorb(TrackOf(hub, m.slot), m, |hub.processed|);
      var log, r := LogOf(hub, level), Released(t, m, |hub.processed|, level);
      AppendShows(log, r);
      assert LogOf(Step(hub, m, grpc), level) == log + r;
    }
  }

  lemma AppendShows(log: seq<Sent>, r: seq<Sent>)
    requires r != []
    ensures (log + r)[..|log|] == log && (log + r)[|log|] == r[0] && (log + r)[|log| + 1..] == r[1..]
  {
  }

  lemma ReleaseOffers(hub: Hub, m: Parsed, level: Commitment)
    requires HubOk(hub) && m.PSlot?
    ensures var t := Absorb(TrackOf(hub, m.slot), m, |hub.processed|);
      var r := Released(t, m, |hub.processed|, level);
      && r != [] && r[0].msg == m
      && (m.commitment != level ==> |r| == 1)
      && (m.commitment == level ==> Offers(Msgs(r[1..]), TrackOf(hub, m.slot).history))
  {
    var h, p := TrackOf(hub, m.slot).history, |hub.processed|;
    var t := Absorb(TrackOf(hub, m.slot), m, p);
    StepTracks(hub, m, true);
    StoredPlaced(t, m.slot, Step(hub, m, true).processed, p);
    if m.commitment == level {
      StoredIgnoresSlots(h, m);
      StoredShows(h);
      ReplayPresent(Stored(t.history), t.places, p);
      assert Released(t, m, p, level)[1..] == Replay(Stored(t.history), t.places, p);
    }
  }

  /** The log grew by `m`, and by the block if `m` makes the counts of its slot meet
      for the first time. */
  ghost predicate Processes(log: History, log': History, h: History, m: Parsed) {
    if FirstMetAt(h + [m], |h| + 1) then
      |log'| == |log| + 2 && log'[..|log| + 1] == log + [m] && BlockShows(log'[|log| + 1], h + [m])
    else
      log' == log + [m]
  }

  /** After any run the processed log takes every message, and after the one that
      completes a slot for the first time since it was forgotten, the block. */
  lemma ProcessesExactly(ms: seq<Parsed>, m: Parsed, grpc: bool) returns (h: History)
    ensures Extracts(h, ms, Remembered(ms, grpc, m.slot))
    ensures Processes(Run(ms, grpc).processed, Run(ms + [m], grpc).processed, h, m)
  {
    h := TrackOf(Run(ms, grpc), m.slot).history;
    HistoryShows(ms, grpc, m.slot);
    RunMore(ms, m, grpc);
    StepProcesses(Run(ms, grpc), m, grpc);
  }

  lemma StepProcesses(hub: Hub, m: Parsed, grpc: bool)
    ensures Processes(hub.processed, Step(hub, m, grpc).processed, TrackOf(hub, m.slot).history, m)
  {
    var log, h := hub.processed, TrackOf(hub, m.slot).history;
    CompletesFirst(h, m);
    if Completes(h, m) {
      var b := BlockOf(h + [m]);
      assert Step(hub, m, grpc).processed == log + ([m] + [b]);
      assert (log + ([m] + [b]))[..|log| + 1] == log + [m];
    } else {
      assert Step(hub, m, grpc).processed == log + ([m] + []);
    }
  }

  lemma CompletesFirst(h: History, m: Parsed)
    ensures Completes(h, m) <==> FirstMetAt(h + [m], |h| + 1)
    ensures Completes(h, m) ==> BlockShows(BlockOf(h + [m]), h + [m])
  {
    FirstMet(h, m);
    assert (h + [m])[..|h| + 1] == h + [m];
  }
}
