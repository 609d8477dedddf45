/** What every run of the richat sender puts into its three logs. */
module RichatHub {
  import opened Base
  import opened BlockBuilder

  /** An entry of the confirmed or finalized log: the message, its position in
      the processed log, and how long that log was when the entry was made. */
  datatype Sent = Sent(msg: Parsed, src: nat, at: nat)

  /** A slot being assembled, with the processed positions of what it stores. */
  datatype Track = Track(history: History, places: seq<nat>)

  datatype Hub = Hub(slots: map<nat, Track>, processed: History, confirmed: seq<Sent>, finalized: seq<Sent>)

  const EmptyHub := Hub(map[], [], [], [])

  /** Everything ever stored for the slot, erased or not. */
  ghost function Full(h: History): History {
    if Created(h) then Items(Sealed(h)) + [BlockOf(Sealed(h))] else Items(h)
  }

  ghost predicate Completes(h: History, m: Parsed) {
    !Created(h) && Complete(h + [m])
  }

  /** What one message makes the sender publish: itself, and the block it completes. */
  ghost function Output(h: History, m: Parsed): History {
    [m] + if Completes(h, m) then [BlockOf(h + [m])] else []
  }

  ghost function Absorb(t: Track, m: Parsed, p: nat): Track {
    Track(t.history + [m],
          if Created(t.history) then t.places
          else t.places + (if m.PSlot? then [] else [p]) + (if Completes(t.history, m) then [p + 1] else []))
  }

  /** The stored messages, in order, skipping erased ones. */
  ghost function Replay(s: seq<Option<Parsed>>, places: seq<nat>, at: nat): seq<Sent>
    requires |s| == |places|
  {
    if s == [] then []
    else
      var n := |s| - 1;
      Replay(s[..n], places[..n], at) + if s[n].Some? then [Sent(s[n].value, places[n], at)] else []
  }

  ghost function TrackOf(hub: Hub, slot: nat): Track {
    if slot in hub.slots then hub.slots[slot] else Track([], [])
  }

  /** What a slot update adds to the log of commitment level `level`. */
  ghost function Released(t: Track, m: Parsed, p: nat, level: Commitment): seq<Sent>
    requires m.PSlot?
  {
    [Sent(m, p, p)]
    + if m.commitment == level && |Stored(t.history)| == |t.places| then Replay(Stored(t.history), t.places, p) else []
  }

  /** The slots after `slot`. */
  function Later<T>(slots: map<nat, T>, slot: nat): map<nat, T> {
    map s | s in slots && s > slot :: slots[s]
  }

  /** One push; without gRPC only the processed log is fed. */
  ghost function Step(hub: Hub, m: Parsed, grpc: bool): Hub {
    var p := |hub.processed|;
    var t := Absorb(TrackOf(hub, m.slot), m, p);
    var slots := hub.slots[m.slot := t];
    Hub(
      if grpc && m.PSlot? && m.commitment.Finalized? then Later(slots, m.slot) else slots,
      hub.processed + Output(TrackOf(hub, m.slot).history, m),
      hub.confirmed + (if grpc && m.PSlot? then Released(t, m, p, Confirmed) else []),
      hub.finalized + (if grpc && m.PSlot? then Released(t, m, p, Finalized) else []))
  }

  ghost function Run(ms: seq<Parsed>, grpc: bool): Hub {
    if ms == [] then EmptyHub else Step(Run(ms[..|ms| - 1], grpc), ms[|ms| - 1], grpc)
  }

  // ---------------------------------------------------------------------------
  // The invariant
  // ---------------------------------------------------------------------------

  ghost predicate OfSlot(h: History, s: nat) {
    forall i :: 0 <= i < |h| ==> h[i].slot == s && !h[i].PBlock?
  }

  /** The messages `full` of slot `s`, at their own positions in the processed log. */
  ghost predicate PlacesOk(places: seq<nat>, full: History, s: nat, processed: History) {
    && |places| == |full|
    && (forall i :: 0 <= i < |places| ==>
          places[i] < |processed| && processed[places[i]] == full[i] && full[i].slot == s)
    && (forall i :: 0 <= i < |places| ==> !full[i].PSlot?)
    && (forall i, j :: 0 <= i < j < |places| ==> places[i] < places[j])
  }

  ghost predicate TrackOk(t: Track, s: nat, processed: History) {
    OfSlot(t.history, s) && PlacesOk(t.places, Full(t.history), s, processed)
  }

  /** Every message of the log that is not a slot update directly follows a slot
      update of its slot with commitment `level`, or an earlier stored message
      released by the same update; and it had been processed before that update. */
  ghost predicate Gated(log: seq<Sent>, processed: History, level: Commitment) {
    forall x :: 0 <= x < |log| ==> GatedAt(log, processed, level, x)
  }

  ghost predicate GatedAt(log: seq<Sent>, processed: History, level: Commitment, x: int)
    requires 0 <= x < |log|
  {
    && log[x].src < |processed| && processed[log[x].src] == log[x].msg
    && (log[x].msg.PSlot? ==> log[x].src == log[x].at)
    && (!log[x].msg.PSlot? ==>
          && log[x].src < log[x].at && x > 0
          && log[x - 1].msg.slot == log[x].msg.slot && log[x - 1].at == log[x].at
          && if log[x - 1].msg.PSlot? then log[x - 1].msg.commitment == level else log[x - 1].src < log[x].src)
  }

  ghost predicate Distinct(log: seq<Sent>) {
    forall x, y :: 0 <= x < y < |log| && !log[x].msg.PSlot? && !log[y].msg.PSlot? ==> log[x].src != log[y].src
  }

  /** Nothing still being assembled has been released. */
  ghost predicate Unreleased(log: seq<Sent>, t: Track) {
    forall x :: 0 <= x < |log| && !log[x].msg.PSlot? ==> log[x].src !in t.places
  }

  ghost predicate HubOk(hub: Hub) {
    && (forall s :: s in hub.slots ==> TrackOk(hub.slots[s], s, hub.processed))
    && Gated(hub.confirmed, hub.processed, Confirmed)
    && Gated(hub.finalized, hub.processed, Finalized)
    && Distinct(hub.finalized)
    && forall s :: s in hub.slots ==> Unreleased(hub.finalized, hub.slots[s])
  }

  lemma {:induction false} SelectIn(h: History, k: Kind)
    ensures forall x :: x in Select(h, k) ==> x in h
    ensures forall x :: x in Items(h) ==> x in h
    decreases |h|
  {
    if h != [] { SelectIn(h[..|h| - 1], k); }
  }

  lemma FullStays(h: History, m: Parsed)
    requires Created(h)
    ensures Full(h + [m]) == Full(h)
  {
    SealedGrows(h, m);
  }

  lemma FullCompletes(h: History, m: Parsed)
    requires !Created(h) && Complete(h + [m])
    ensures Full(h + [m]) == Items(h + [m]) + [BlockOf(h + [m])]
  {
    SealedGrows(h, m);
  }

  lemma FullOpen(h: History, m: Parsed)
    requires !Created(h) && !Complete(h + [m])
    ensures Full(h + [m]) == Items(h + [m])
  {
    CreatedGrows(h, m);
  }

  lemma FullGrows(h: History, m: Parsed)
    ensures Full(h + [m]) ==
      if Created(h) then Full(h)
      else Full(h) + (if m.PSlot? then [] else [m]) + BlockIf(h, m)
  {
    if Created(h) {
      FullStays(h, m);
    } else {
      ItemsGrow(h, m);
      assert Full(h) == Items(h);
      if Complete(h + [m]) {
        FullCompletes(h, m);
      } else {
        FullOpen(h, m);
        assert Items(h + [m]) + [] == Items(h + [m]);
      }
    }
  }

  /** A slot update never completes a block: it would have been complete before. */
  lemma SlotNeverCompletes(h: History, m: Parsed)
    requires m.PSlot? && !Created(h)
    ensures !Complete(h + [m])
  {
    HistoryGrows(h, m);
    TracksGrow(h, m);
    assert h[..|h|] == h;
    assert Select(h, MetaK) + [] == Select(h, MetaK);
  }

  lemma BlockSlot(h: History, s: nat)
    requires Complete(h) && OfSlot(h, s)
    ensures BlockOf(h).slot == s
  {
    SelectIn(h, MetaK);
    var ms := Select(h, MetaK);
    assert ms[|ms| - 1] in h;
  }

  lemma PlacesGrow(places: seq<nat>, full: History, s: nat, processed: History, processed': History)
    requires PlacesOk(places, full, s, processed) && processed <= processed'
    ensures PlacesOk(places, full, s, processed')
  {
    assert forall i :: 0 <= i < |processed| ==> processed'[i] == processed[i];
  }

  lemma PlacesAppend(places: seq<nat>, full: History, s: nat, processed: History, p: nat, x: Parsed)
    requires PlacesOk(places, full, s, processed) && (forall i :: 0 <= i < |places| ==> places[i] < p)
    requires p < |processed| && processed[p] == x && x.slot == s && !x.PSlot?
    ensures PlacesOk(places + [p], full + [x], s, processed)
    ensures forall i :: 0 <= i < |places + [p]| ==> (places + [p])[i] < p + 1
  {
  }

  /** Places stay right when a message, and the block it completes, is processed. */
  lemma PlacesAbsorb(places: seq<nat>, full: History, s: nat, processed: History, m: Parsed, block: History)
    requires PlacesOk(places, full, s, processed) && m.slot == s && |block| <= 1
    requires block != [] ==> !m.PSlot? && block[0].slot == s && !block[0].PSlot?
    ensures var p, processed' := |processed|, processed + ([m] + block);
      && PlacesOk(places, full, s, processed')
      && PlacesOk(places + (if m.PSlot? then [] else [p]) + (if block != [] then [p + 1] else []),
                  full + (if m.PSlot? then [] else [m]) + block, s, processed')
  {
    var p, processed' := |processed|, processed + ([m] + block);
    PlacesGrow(places, full, s, processed, processed');
    if m.PSlot? {
      assert full + [] + [] == full && places + [] + [] == places;
    } else {
      PlacesAppend(places, full, s, processed', p, m);
      if block != [] {
        PlacesAppend(places + [p], full + [m], s, processed', p + 1, block[0]);
        assert block == [block[0]];
      } else {
        assert full + [m] + [] == full + [m] && places + [p] + [] == places + [p];
      }
    }
  }

  ghost function BlockIf(h: History, m: Parsed): History {
    if Completes(h, m) then [BlockOf(h + [m])] else []
  }

  lemma BlockIfOk(h: History, s: nat, m: Parsed)
    requires OfSlot(h, s) && m.slot == s && !m.PBlock?
    ensures OfSlot(h + [m], s)
    ensures var block := BlockIf(h, m);
      |block| <= 1 && (block != [] ==> !m.PSlot? && block[0].slot == s && !block[0].PSlot?)
  {
    assert OfSlot(h + [m], s);
    if Completes(h, m) {
      if m.PSlot? { SlotNeverCompletes(h, m); }
      BlockSlot(h + [m], s);
    }
  }

  lemma AbsorbOk(t: Track, s: nat, m: Parsed, processed: History)
    requires TrackOk(t, s, processed) && m.slot == s && !m.PBlock?
    ensures TrackOk(Absorb(t, m, |processed|), s, processed + Output(t.history, m))
  {
    BlockIfOk(t.history, s, m);
    PlacesAbsorb(t.places, Full(t.history), s, processed, m, BlockIf(t.history, m));
    FullGrows(t.history, m);
  }

  lemma StoredIsFull(h: History)
    ensures |Stored(h)| == |Full(h)|
    ensures forall i :: 0 <= i < |Full(h)| ==> Stored(h)[i].None? || Stored(h)[i] == Some(Full(h)[i])
  {
  }

  /** `e` is a stored message of slot `s`, at its own place in the processed log. */
  ghost predicate Placed(e: Sent, s: nat, places: seq<nat>, processed: History, at: nat) {
    && e.at == at && e.src in places
    && e.src < |processed| && processed[e.src] == e.msg
    && !e.msg.PSlot? && e.msg.slot == s
  }

  /** What a replay holds: stored messages at their own places, in order. */
  lemma {:induction false} ReplayOk(stored: seq<Option<Parsed>>, places: seq<nat>, at: nat, s: nat, processed: History)
    requires |stored| == |places|
    requires forall i :: 0 <= i < |stored| && stored[i].Some? ==>
        Placed(Sent(stored[i].value, places[i], at), s, places, processed, at)
    requires forall i, j :: 0 <= i < j < |places| ==> places[i] < places[j]
    ensures forall x :: 0 <= x < |Replay(stored, places, at)| ==>
        Placed(Replay(stored, places, at)[x], s, places, processed, at)
    ensures forall x, y :: 0 <= x < y < |Replay(stored, places, at)| ==>
      Replay(stored, places, at)[x].src < Replay(stored, places, at)[y].src
    decreases |stored|
  {
    if stored != [] {
      var n := |stored| - 1;
      var places' := places[..n];
      forall i | 0 <= i < n && stored[i].Some?
        ensures Placed(Sent(stored[i].value, places[i], at), s, places', processed, at)
      {
        assert Placed(Sent(stored[i].value, places[i], at), s, places, processed, at);
        assert places'[i] == places[i];
      }
      ReplayOk(stored[..n], places', at, s, processed);
      var r := Replay(stored[..n], places', at);
      forall x | 0 <= x < |r| ensures Placed(r[x], s, places, processed, at) && r[x].src < places[n] {
        assert Placed(r[x], s, places', processed, at);
      }
    }
  }

  lemma StoredPlaced(t: Track, s: nat, processed: History, at: nat)
    requires TrackOk(t, s, processed)
    ensures |Stored(t.history)| == |t.places|
    ensures forall i :: 0 <= i < |t.places| && Stored(t.history)[i].Some? ==>
      Placed(Sent(Stored(t.history)[i].value, t.places[i], at), s, t.places, processed, at)
  {
    StoredIsFull(t.history);
  }

  /** A slot update followed by stored messages in order. */
  lemma ReplayGated(m: Parsed, p: nat, level: Commitment, rest: seq<Sent>, places: seq<nat>, processed: History)
    requires m.PSlot? && m.commitment == level && p < |processed| && processed[p] == m
    requires forall i :: 0 <= i < |places| ==> places[i] < p
    requires forall x :: 0 <= x < |rest| ==> Placed(rest[x], m.slot, places, processed, p)
    requires forall x, y :: 0 <= x < y < |rest| ==> rest[x].src < rest[y].src
    ensures var r := [Sent(m, p, p)] + rest;
      && Gated(r, processed, level) && Distinct(r)
      && forall x :: 0 <= x < |r| && !r[x].msg.PSlot? ==> r[x].src in places
  {
    var r := [Sent(m, p, p)] + rest;
    forall x | 0 <= x < |r|
      ensures GatedAt(r, processed, level, x) && (x > 0 ==> r[x] == rest[x - 1] && r[x].src in places)
    {
      if x > 0 { assert Placed(rest[x - 1], m.slot, places, processed, p); }
      if x > 1 { assert Placed(rest[x - 2], m.slot, places, processed, p); }
    }
  }

  lemma ReleasedOk(t: Track, m: Parsed, p: nat, level: Commitment, processed: History)
    requires m.PSlot? && TrackOk(t, m.slot, processed) && p < |processed| && processed[p] == m
    requires forall i :: 0 <= i < |t.places| ==> t.places[i] < p
    ensures ReleaseOk(Released(t, m, p, level), t, processed, level)
    ensures m.commitment != level ==> Released(t, m, p, level) == [Sent(m, p, p)]
  {
    if m.commitment == level {
      StoredPlaced(t, m.slot, processed, p);
      ReplayOk(Stored(t.history), t.places, p, m.slot, processed);
      ReplayGated(m, p, level, Replay(Stored(t.history), t.places, p), t.places, processed);
    }
  }

  /** A stretch opened by a slot update, holding only what its track stores. */
  ghost predicate ReleaseOk(r: seq<Sent>, t: Track, processed: History, level: Commitment) {
    && Gated(r, processed, level) && Distinct(r)
    && r != [] && r[0].msg.PSlot?
    && forall x :: 0 <= x < |r| && !r[x].msg.PSlot? ==> r[x].src in t.places
  }

  /** A gated stretch that opens with a slot update can be appended. */
  lemma GatedAppend(a: seq<Sent>, b: seq<Sent>, processed: History, processed': History, level: Commitment)
    requires Gated(a, processed, level) && Gated(b, processed', level) && processed <= processed'
    requires b != [] ==> b[0].msg.PSlot?
    ensures Gated(a + b, processed', level)
  {
    forall x | 0 <= x < |a + b| ensures GatedAt(a + b, processed', level, x) {
      if x < |a| {
        assert GatedAt(a, processed, level, x);
      } else {
        assert GatedAt(b, processed', level, x - |a|);
      }
    }
  }

  lemma StepTracks(hub: Hub, m: Parsed, grpc: bool)
    requires HubOk(hub) && !m.PBlock?
    ensures forall s :: s in Step(hub, m, grpc).slots ==>
        TrackOk(Step(hub, m, grpc).slots[s], s, Step(hub, m, grpc).processed)
    ensures TrackOk(Absorb(TrackOf(hub, m.slot), m, |hub.processed|), m.slot, Step(hub, m, grpc).processed)
  {
    var hub' := Step(hub, m, grpc);
    assert Items([]) == [] && !Created([]) && Full([]) == [];
    AbsorbOk(TrackOf(hub, m.slot), m.slot, m, hub.processed);
    forall s | s in hub'.slots ensures TrackOk(hub'.slots[s], s, hub'.processed) {
      if s != m.slot { TrackGrows(hub.slots[s], s, hub.processed, hub'.processed); }
    }
  }

  lemma TrackGrows(t: Track, s: nat, processed: History, processed': History)
    requires TrackOk(t, s, processed) && processed <= processed'
    ensures TrackOk(t, s, processed')
  {
    PlacesGrow(t.places, Full(t.history), s, processed, processed');
  }

  /** The new places of the slot's track lie beyond everything processed before. */
  lemma AbsorbPlaces(t: Track, m: Parsed, p: nat)
    ensures forall i :: 0 <= i < |Absorb(t, m, p).places| ==>
      (i < |t.places| && Absorb(t, m, p).places[i] == t.places[i]) || Absorb(t, m, p).places[i] >= p
    ensures m.PSlot? ==> Absorb(t, m, p).places == t.places
  {
    if m.PSlot? && !Created(t.history) { SlotNeverCompletes(t.history, m); }
  }

  lemma StepReleases(hub: Hub, m: Parsed, grpc: bool, level: Commitment)
    requires HubOk(hub) && m.PSlot?
    ensures var p, processed := |hub.processed|, Step(hub, m, grpc).processed;
      var t := Absorb(TrackOf(hub, m.slot), m, p);
      var r := Released(t, m, p, level);
      && hub.processed <= processed && TrackOk(t, m.slot, processed) && t.places == TrackOf(hub, m.slot).places
      && ReleaseOk(r, t, processed, level)
      && (m.commitment != level ==> r == [Sent(m, p, p)])
  {
    var p, processed := |hub.processed|, Step(hub, m, grpc).processed;
    var t := Absorb(TrackOf(hub, m.slot), m, p);
    StepTracks(hub, m, grpc);
    AbsorbPlaces(TrackOf(hub, m.slot), m, p);
    ReleasedOk(t, m, p, level, processed);
  }

  lemma StepKeepsGates(hub: Hub, m: Parsed, grpc: bool)
    requires HubOk(hub) && !m.PBlock?
    ensures Gated(Step(hub, m, grpc).confirmed, Step(hub, m, grpc).processed, Confirmed)
    ensures Gated(Step(hub, m, grpc).finalized, Step(hub, m, grpc).processed, Finalized)
  {
    var hub' := Step(hub, m, grpc);
    var t := Absorb(TrackOf(hub, m.slot), m, |hub.processed|);
    var c := if grpc && m.PSlot? then Released(t, m, |hub.processed|, Confirmed) else [];
    var f := if grpc && m.PSlot? then Released(t, m, |hub.processed|, Finalized) else [];
    if grpc && m.PSlot? {
      StepReleases(hub, m, grpc, Confirmed);
      StepReleases(hub, m, grpc, Finalized);
    }
    GatedAppend(hub.confirmed, c, hub.processed, hub'.processed, Confirmed);
    GatedAppend(hub.finalized, f, hub.processed, hub'.processed, Finalized);
  }

  lemma DistinctAppend(log: seq<Sent>, r: seq<Sent>, t: Track, processed: History, level: Commitment)
    requires Distinct(log) && Unreleased(log, t) && ReleaseOk(r, t, processed, level)
    ensures Distinct(log + r)
  {
    var both := log + r;
    forall x, y | 0 <= x < y < |both| && !both[x].msg.PSlot? && !both[y].msg.PSlot?
      ensures both[x].src != both[y].src
    {
      if x < |log| <= y {
        assert r[y - |log|].src in t.places;
      }
    }
  }

  lemma StepKeepsDistinct(hub: Hub, m: Parsed, grpc: bool)
    requires HubOk(hub) && !m.PBlock?
    ensures Distinct(Step(hub, m, grpc).finalized)
  {
    if grpc && m.PSlot? {
      StepReleases(hub, m, grpc, Finalized);
      var t := Absorb(TrackOf(hub, m.slot), m, |hub.processed|);
      assert Unreleased(hub.finalized, TrackOf(hub, m.slot));
      DistinctAppend(hub.finalized, Released(t, m, |hub.processed|, Finalized), t, Step(hub, m, grpc).processed,
          Finalized);
    }
  }

  /** What was released before is not among the places of a track, old or grown. */
  lemma UnreleasedOld(hub: Hub, m: Parsed, grpc: bool, x: nat, s: nat)
    requires HubOk(hub) && !m.PBlock? && s in Step(hub, m, grpc).slots
    requires x < |hub.finalized| && !hub.finalized[x].msg.PSlot?
    ensures hub.finalized[x].src !in Step(hub, m, grpc).slots[s].places
  {
    AbsorbPlaces(TrackOf(hub, m.slot), m, |hub.processed|);
    assert GatedAt(hub.finalized, hub.processed, Finalized, x);
    assert Unreleased(hub.finalized, TrackOf(hub, s));
  }

  /** What a Finalized update releases belongs to a slot that is assembled no more. */
  lemma UnreleasedNew(hub: Hub, m: Parsed, grpc: bool, e: Sent, s: nat)
    requires HubOk(hub) && grpc && m.PSlot? && s in Step(hub, m, grpc).slots
    requires e in Released(Absorb(TrackOf(hub, m.slot), m, |hub.processed|), m, |hub.processed|, Finalized)
    requires !e.msg.PSlot?
    ensures e.src !in Step(hub, m, grpc).slots[s].places
  {
    var hub', p := Step(hub, m, grpc), |hub.processed|;
    var t := Absorb(TrackOf(hub, m.slot), m, p);
    StepTracks(hub, m, grpc);
    StepReleases(hub, m, grpc, Finalized);
    assert m.commitment == Finalized && s > m.slot;
    assert e.src in t.places;
    assert hub'.processed[e.src].slot == m.slot;
    assert TrackOk(hub'.slots[s], s, hub'.processed);
  }

  lemma UnreleasedBoth(a: seq<Sent>, b: seq<Sent>, t: Track)
    requires Unreleased(a, t) && Unreleased(b, t)
    ensures Unreleased(a + b, t)
  {
  }

  lemma StepKeepsUnreleased(hub: Hub, m: Parsed, grpc: bool, s: nat)
    requires HubOk(hub) && !m.PBlock? && s in Step(hub, m, grpc).slots
    ensures Unreleased(Step(hub, m, grpc).finalized, Step(hub, m, grpc).slots[s])
  {
    var t := Step(hub, m, grpc).slots[s];
    forall x | 0 <= x < |hub.finalized| && !hub.finalized[x].msg.PSlot? ensures hub.finalized[x].src !in t.places {
      UnreleasedOld(hub, m, grpc, x, s);
    }
    if grpc && m.PSlot? {
      var r := Released(Absorb(TrackOf(hub, m.slot), m, |hub.processed|), m, |hub.processed|, Finalized);
      forall x | 0 <= x < |r| && !r[x].msg.PSlot? ensures r[x].src !in t.places {
        UnreleasedNew(hub, m, grpc, r[x], s);
      }
      UnreleasedBoth(hub.finalized, r, t);
    } else {
      assert Step(hub, m, grpc).finalized == hub.finalized;
    }
  }

  lemma StepKeepsHub(hub: Hub, m: Parsed, grpc: bool)
    requires HubOk(hub) && !m.PBlock?
    ensures HubOk(Step(hub, m, grpc))
  {
    StepTracks(hub, m, grpc);
    StepKeepsGates(hub, m, grpc);
    StepKeepsDistinct(hub, m, grpc);
    forall s | s in Step(hub, m, grpc).slots
      ensures Unreleased(Step(hub, m, grpc).finalized, Step(hub, m, grpc).slots[s])
    {
      StepKeepsUnreleased(hub, m, grpc, s);
    }
  }

  lemma {:induction false} RunKeepsHub(ms: seq<Parsed>, grpc: bool)
    requires forall i :: 0 <= i < |ms| ==> !ms[i].PBlock?
    ensures HubOk(Run(ms, grpc))
    decreases |ms|
  {
    if ms != [] {
      RunKeepsHub(ms[..|ms| - 1], grpc);
      StepKeepsHub(Run(ms[..|ms| - 1], grpc), ms[|ms| - 1], grpc);
    }
  }

  // ---------------------------------------------------------------------------
  // Commitment safety
  // ---------------------------------------------------------------------------

  /** `log[y]` is the slot update that released `log[x]`: everything between is of
      the same slot, in the order it was processed, and was processed before `log[y]`. */
  ghost predicate ReleasedBy(log: seq<Sent>, processed: History, level: Commitment, y: nat, x: nat)
    requires y <= x < |log|
  {
    && log[y].msg.PSlot? && log[y].msg.slot == log[x].msg.slot && log[y].msg.commitment == level
    && (forall z :: y < z <= x ==>
          && !log[z].msg.PSlot? && log[z].msg.slot == log[x].msg.slot
          && log[z].src < log[y].src < |processed| && processed[log[z].src] == log[z].msg)
    && (forall z :: y < z < x ==> log[z].src < log[z + 1].src)
  }

  lemma {:induction false} FindRelease(log: seq<Sent>, processed: History, level: Commitment, x: nat) returns (y: nat)
    requires Gated(log, processed, level) && x < |log| && !log[x].msg.PSlot?
    ensures y < x && log[y].src == log[y].at == log[x].at && ReleasedBy(log, processed, level, y, x)
    decreases x
  {
    assert GatedAt(log, processed, level, x);
    if log[x - 1].msg.PSlot? {
      y := x - 1;
      assert GatedAt(log, processed, level, y);
    } else {
      y := FindRelease(log, processed, level, x - 1);
      forall z | y < z < x ensures log[z].src < log[z + 1].src {
        assert GatedAt(log, processed, level, z + 1);
      }
    }
  }

  /** In every run, whatever the confirmed or finalized log holds besides slot
      updates was released by an update of its slot to that very commitment,
      in arrival order, having been processed before; and nothing enters the
      finalized log twice. */
  lemma CommitmentSafety(ms: seq<Parsed>, grpc: bool, level: Commitment, x: nat) returns (y: nat)
    requires forall i :: 0 <= i < |ms| ==> !ms[i].PBlock?
    requires level == Confirmed || level == Finalized
    requires var log := if level == Confirmed then Run(ms, grpc).confirmed else Run(ms, grpc).finalized;
      x < |log| && !log[x].msg.PSlot?
    ensures var log := if level == Confirmed then Run(ms, grpc).confirmed else Run(ms, grpc).finalized;
      y < x && ReleasedBy(log, Run(ms, grpc).processed, level, y, x)
    ensures Distinct(Run(ms, grpc).finalized)
  {
    RunKeepsHub(ms, grpc);
    y := FindRelease(if level == Confirmed then Run(ms, grpc).confirmed else Run(ms, grpc).finalized,
        Run(ms, grpc).processed, level, x);
  }
}
