/** Reconstruction of a block from the messages of one slot, and the
    deduplication of its account updates.  Everything the source keeps about a
    slot is stated here as a function of the history of its messages. */
module BlockBuilder {
  import opened Base

  datatype Commitment = Processed | Confirmed | Finalized | Other

  /** A parsed message.  `id` stands for the contents that play no part here. */
  datatype Parsed =
    | PSlot(slot: nat, commitment: Commitment, id: nat)
    | PAccount(slot: nat, pubkey: nat, version: nat, id: nat)
    | PTransaction(slot: nat, id: nat)
    | PEntry(slot: nat, id: nat)
    | PMeta(slot: nat, transactions: nat, entries: nat, id: nat)
    | PBlock(slot: nat, accounts: seq<Parsed>, txs: seq<Parsed>, ents: seq<Parsed>, meta: Parsed)
  {
    function Kind(): Kind {
      match this
      case PSlot(_, _, _) => SlotK
      case PAccount(_, _, _, _) => AccountK
      case PTransaction(_, _) => TransactionK
      case PEntry(_, _) => EntryK
      case PMeta(_, _, _, _) => MetaK
      case PBlock(_, _, _, _, _) => BlockK
    }
  }

  datatype Kind = SlotK | AccountK | TransactionK | EntryK | MetaK | BlockK

  type History = seq<Parsed>

  /** The messages of one kind, in arrival order. */
  function Select(h: History, k: Kind): (s: History)
    ensures forall i :: 0 <= i < |s| ==> s[i].Kind() == k
  {
    if h == [] then []
    else Select(h[..|h| - 1], k) + if h[|h| - 1].Kind() == k then [h[|h| - 1]] else []
  }

  /** What is stored: everything but slot updates. */
  function Items(h: History): (s: History)
    ensures forall i :: 0 <= i < |s| ==> !s[i].PSlot?
  {
    if h == [] then []
    else Items(h[..|h| - 1]) + if h[|h| - 1].PSlot? then [] else [h[|h| - 1]]
  }

  function LastMeta(h: History): (m: Option<Parsed>)
    ensures m.Some? ==> m.value.PMeta?
  {
    var ms := Select(h, MetaK);
    if ms == [] then None else Some(ms[|ms| - 1])
  }

  /** The latest block meta announces exactly the transactions and entries seen. */
  predicate Complete(h: History) {
    var m := LastMeta(h);
    m.Some? && m.value.transactions == |Select(h, TransactionK)| && m.value.entries == |Select(h, EntryK)|
  }

  /** The history, or some earlier part of it, is complete. */
  predicate Created(h: History) {
    Complete(h) || (h != [] && Created(h[..|h| - 1]))
  }

  lemma {:induction false} CreatedMeans(h: History)
    ensures Created(h) <==> exists k :: 0 <= k <= |h| && Complete(h[..k])
    decreases |h|
  {
    assert h[..|h|] == h;
    if h != [] {
      var init := h[..|h| - 1];
      CreatedMeans(init);
      forall k | 0 <= k < |h| ensures init[..k] == h[..k] {}
      if k :| 0 <= k <= |h| && Complete(h[..k]) {
        assert k == |h| || Complete(init[..k]);
      }
      if k :| 0 <= k <= |init| && Complete(init[..k]) {
        assert Complete(h[..k]);
      }
    }
  }

  /** Message `k` is the last block meta. */
  ghost predicate LastMetaAt(h: History, k: int) {
    0 <= k < |h| && h[k].PMeta? && forall j :: k < j < |h| ==> !h[j].PMeta?
  }

  /** Where the transactions are. */
  ghost function Txs(h: History): set<nat> {
    set i: nat | i < |h| && h[i].PTransaction?
  }

  /** Where the entries are. */
  ghost function Ents(h: History): set<nat> {
    set i: nat | i < |h| && h[i].PEntry?
  }

  /** As many transactions and as many entries came as the last block meta announces. */
  ghost predicate CountsMet(h: History) {
    exists k :: LastMetaAt(h, k) && h[k].transactions == |Txs(h)| && h[k].entries == |Ents(h)|
  }

  lemma {:induction false} SelectCounts(h: History)
    ensures |Select(h, TransactionK)| == |Txs(h)| && |Select(h, EntryK)| == |Ents(h)|
    decreases |h|
  {
    if h != [] {
      SelectCounts(h[..|h| - 1]);
      PlacesCount(h);
    }
  }

  lemma PlacesCount(h: History)
    requires h != []
    ensures |Txs(h)| == |Txs(h[..|h| - 1])| + if h[|h| - 1].PTransaction? then 1 else 0
    ensures |Ents(h)| == |Ents(h[..|h| - 1])| + if h[|h| - 1].PEntry? then 1 else 0
  {
    var n := |h| - 1;
    assert Txs(h) == if h[n].PTransaction? then Txs(h[..n]) + {n} else Txs(h[..n]);
    assert Ents(h) == if h[n].PEntry? then Ents(h[..n]) + {n} else Ents(h[..n]);
  }

  lemma {:induction false} LastMetaMeans(h: History)
    ensures LastMeta(h).Some? ==> exists k :: LastMetaAt(h, k)
    ensures forall k :: LastMetaAt(h, k) ==> LastMeta(h) == Some(h[k])
    decreases |h|
  {
    if h != [] {
      var n := |h| - 1;
      var init := h[..n];
      LastMetaMeans(init);
      if h[n].PMeta? {
        assert LastMetaAt(h, n);
      } else {
        assert forall k :: LastMetaAt(init, k) ==> LastMetaAt(h, k);
        forall k | LastMetaAt(h, k) ensures LastMeta(h) == Some(h[k]) { assert LastMetaAt(init, k); }
      }
    }
  }

  lemma CompleteMeans(h: History)
    ensures Complete(h) <==> CountsMet(h)
  {
    SelectCounts(h);
    LastMetaMeans(h);
    if Complete(h) {
      var k :| LastMetaAt(h, k);
      assert h[k].transactions == |Txs(h)| && h[k].entries == |Ents(h)|;
    }
  }

  lemma CreatedCounts(h: History)
    ensures Created(h) <==> exists k :: 0 <= k <= |h| && CountsMet(h[..k])
  {
    CreatedMeans(h);
    forall k | 0 <= k <= |h| ensures Complete(h[..k]) <==> CountsMet(h[..k]) { CompleteMeans(h[..k]); }
  }

  /** The shortest complete prefix. */
  function Sealed(h: History): (p: History)
    requires Created(h)
    ensures p <= h && Complete(p)
    ensures p == [] || !Created(p[..|p| - 1])
  {
    if h != [] && Created(h[..|h| - 1]) then Sealed(h[..|h| - 1]) else h
  }

  // ---------------------------------------------------------------------------
  // Account deduplication
  // ---------------------------------------------------------------------------

  predicate Rival(items: History, i: nat, j: nat)
    requires i < |items| && j < |items|
  {
    items[i].PAccount? && items[j].PAccount? && items[i].pubkey == items[j].pubkey
  }

  /** Item `i` is an account update newer than every earlier one of its key. */
  ghost predicate Record(items: History, i: nat)
    requires i < |items|
  {
    items[i].PAccount? && forall j :: 0 <= j < i && Rival(items, j, i) ==> items[j].version < items[i].version
  }

  /** Item `i` was the newest of its key and a newer one followed. */
  ghost predicate Erased(items: History, i: nat)
    requires i < |items|
  {
    Record(items, i) && exists j :: i < j < |items| && Rival(items, i, j) && items[i].version < items[j].version
  }

  ghost function Retained(items: History): (s: seq<Option<Parsed>>)
    ensures |s| == |items|
    ensures forall i :: 0 <= i < |s| ==> s[i] == if Erased(items, i) then None else Some(items[i])
  {
    seq(|items|, i requires 0 <= i < |items| => if Erased(items, i) then None else Some(items[i]))
  }

  /** `dedup` has exactly the keys seen, each with its highest version and the
      first item that carries it. */
  ghost predicate Champions(items: History, dedup: map<nat, (nat, nat)>) {
    && (forall k :: k in dedup ==>
          && dedup[k].1 < |items| && Record(items, dedup[k].1)
          && items[dedup[k].1].pubkey == k && items[dedup[k].1].version == dedup[k].0)
    && (forall i :: 0 <= i < |items| && items[i].PAccount? ==>
          items[i].pubkey in dedup && items[i].version <= dedup[items[i].pubkey].0)
  }

  lemma RecordGrows(items: History, m: Parsed, i: nat)
    requires i < |items|
    ensures Record(items + [m], i) <==> Record(items, i)
  {
    var more := items + [m];
    assert forall j :: 0 <= j <= i ==> more[j] == items[j];
    if Record(items, i) {
      forall j | 0 <= j < i && Rival(more, j, i) ensures more[j].version < more[i].version {
        assert Rival(items, j, i);
      }
    }
    if Record(more, i) {
      forall j | 0 <= j < i && Rival(items, j, i) ensures items[j].version < items[i].version {
        assert Rival(more, j, i);
      }
    }
  }

  lemma ErasedGrows(items: History, m: Parsed, i: nat)
    requires i < |items|
    ensures Erased(items + [m], i) <==>
      Erased(items, i)
      || (Record(items, i) && m.PAccount? && m.pubkey == items[i].pubkey && items[i].version < m.version)
  {
    var more, n := items + [m], |items|;
    RecordGrows(items, m, i);
    if Erased(items, i) {
      var j :| i < j < |items| && Rival(items, i, j) && items[i].version < items[j].version;
      assert Rival(more, i, j) && more[i].version < more[j].version;
    }
    if Record(items, i) && m.PAccount? && m.pubkey == items[i].pubkey && items[i].version < m.version {
      assert Rival(more, i, n) && more[i].version < more[n].version;
    }
    if Erased(more, i) && !Erased(items, i) {
      var j :| i < j < |more| && Rival(more, i, j) && more[i].version < more[j].version;
      assert j < n ==> Rival(items, i, j);
    }
  }

  /** A record that is not erased is its key's champion. */
  lemma ChampionIsLastRecord(items: History, dedup: map<nat, (nat, nat)>, i: nat)
    requires Champions(items, dedup) && i < |items| && Record(items, i)
    ensures items[i].pubkey in dedup
    ensures Erased(items, i) <==> i != dedup[items[i].pubkey].1
  {
    var c := dedup[items[i].pubkey];
    if i < c.1 {
      assert Rival(items, i, c.1);
    }
    if Erased(items, i) {
      var j :| i < j < |items| && Rival(items, i, j) && items[i].version < items[j].version;
    }
  }

  /** Storing `m`: the old champion of its key goes exactly when `m` is newer. */
  lemma RetainedGrows(items: History, dedup: map<nat, (nat, nat)>, m: Parsed)
    requires Champions(items, dedup)
    ensures var s, s' := Retained(items) + [Some(m)], Retained(items + [m]);
      if m.PAccount? && m.pubkey in dedup && dedup[m.pubkey].0 < m.version
      then s' == s[dedup[m.pubkey].1 := None]
      else s' == s
  {
    var s, s', n := Retained(items) + [Some(m)], Retained(items + [m]), |items|;
    assert !Erased(items + [m], n);
    forall i | 0 <= i < n
      ensures s'[i] == if m.PAccount? && m.pubkey in dedup && dedup[m.pubkey].0 < m.version && i == dedup[m.pubkey].1
                       then None else s[i]
    {
      ErasedGrows(items, m, i);
      if Record(items, i) { ChampionIsLastRecord(items, dedup, i); }
    }
  }

  lemma ChampionsGrow(items: History, dedup: map<nat, (nat, nat)>, m: Parsed)
    requires Champions(items, dedup)
    ensures var dedup' :=
        if m.PAccount? && (m.pubkey in dedup ==> dedup[m.pubkey].0 < m.version)
        then dedup[m.pubkey := (m.version, |items|)] else dedup;
      Champions(items + [m], dedup')
  {
    var more, n := items + [m], |items|;
    var dedup' := if m.PAccount? && (m.pubkey in dedup ==> dedup[m.pubkey].0 < m.version)
                  then dedup[m.pubkey := (m.version, n)] else dedup;
    if m.PAccount? && (m.pubkey in dedup ==> dedup[m.pubkey].0 < m.version) {
      forall j | 0 <= j < n && Rival(more, j, n) ensures more[j].version < more[n].version {
        assert items[j].pubkey in dedup;
      }
      assert Record(more, n);
    }
    forall k | k in dedup' ensures
      && dedup'[k].1 < |more| && Record(more, dedup'[k].1)
      && more[dedup'[k].1].pubkey == k && more[dedup'[k].1].version == dedup'[k].0
    {
      if dedup'[k].1 < n { RecordGrows(items, m, dedup'[k].1); }
    }
    forall i | 0 <= i < |more| && more[i].PAccount?
      ensures more[i].pubkey in dedup' && more[i].version <= dedup'[more[i].pubkey].0
    {
      if i < n { assert items[i] == more[i]; }
    }
  }

  // ---------------------------------------------------------------------------
  // The block
  // ---------------------------------------------------------------------------

  /** The stored messages of one kind, skipping erased ones. */
  function Pick(s: seq<Option<Parsed>>, k: Kind): History {
    if s == [] then []
    else
      var last := s[|s| - 1];
      Pick(s[..|s| - 1], k) + if last.Some? && last.value.Kind() == k then [last.value] else []
  }

  ghost function BlockOf(h: History): Parsed
    requires Complete(h)
  {
    var kept := Retained(Items(h));
    PBlock(LastMeta(h).value.slot, Pick(kept, AccountK), Select(h, TransactionK), Select(h, EntryK), LastMeta(h).value)
  }

  /** Everything stored for a slot with this history. */
  ghost function Stored(h: History): seq<Option<Parsed>> {
    if Created(h) then Retained(Items(Sealed(h))) + [Some(BlockOf(Sealed(h)))]
    else Retained(Items(h))
  }

  // ---------------------------------------------------------------------------
  // The block, told from the messages
  // ---------------------------------------------------------------------------

  /** `s` holds, in order, exactly the messages of `h` at the places kept. */
  ghost predicate Extracts(s: History, h: History, kept: set<nat>) {
    exists ix :: Lists(ix, kept) && Reads(s, h, ix)
  }

  ghost predicate Reads(s: History, h: History, ix: seq<nat>) {
    |s| == |ix| && forall x :: 0 <= x < |ix| ==> ix[x] < |h| && s[x] == h[ix[x]]
  }

  /** Where the account updates are that nothing has superseded. */
  ghost function Unerased(h: History): set<nat> {
    set i: nat | i < |h| && h[i].PAccount? && !Erased(h, i)
  }

  ghost predicate BlockShows(b: Parsed, h: History) {
    && b.PBlock?
    && (exists k :: LastMetaAt(h, k) && b.meta == h[k] && b.slot == h[k].slot)
    && Extracts(b.txs, h, Txs(h))
    && Extracts(b.ents, h, Ents(h))
    && Extracts(b.accounts, h, Unerased(h))
  }

  lemma ReadsMore(s: History, h: History, ix: seq<nat>)
    requires h != [] && Reads(s, h[..|h| - 1], ix)
    ensures Reads(s, h, ix) && Reads(s + [h[|h| - 1]], h, ix + [|h| - 1])
  {
  }

  ghost function OfKind(h: History, k: Kind): set<nat> {
    set i: nat | i < |h| && h[i].Kind() == k
  }

  lemma {:induction false} SelectLists(h: History, k: Kind) returns (ix: seq<nat>)
    ensures Lists(ix, OfKind(h, k)) && Reads(Select(h, k), h, ix)
    decreases |h|
  {
    ix := [];
    if h != [] {
      var n := |h| - 1;
      var less := SelectLists(h[..n], k);
      var were := OfKind(h[..n], k);
      ListsMore(less, were, n);
      ReadsMore(Select(h[..n], k), h, less);
      ix := if h[n].Kind() == k then less + [n] else less;
      assert OfKind(h, k) == if h[n].Kind() == k then were + {n} else were;
    }
  }

  ghost function NotSlots(h: History): set<nat> {
    set i: nat | i < |h| && !h[i].PSlot?
  }

  lemma {:induction false} ItemsList(h: History) returns (ix: seq<nat>)
    ensures Lists(ix, NotSlots(h)) && Reads(Items(h), h, ix)
    decreases |h|
  {
    ix := [];
    if h != [] {
      var n := |h| - 1;
      var less := ItemsList(h[..n]);
      ListsMore(less, NotSlots(h[..n]), n);
      ReadsMore(Items(h[..n]), h, less);
      ix := if h[n].PSlot? then less else less + [n];
      assert NotSlots(h) == if h[n].PSlot? then NotSlots(h[..n]) else NotSlots(h[..n]) + {n};
    }
  }

  ghost function Live(s: seq<Option<Parsed>>, k: Kind): set<nat> {
    set i: nat | i < |s| && s[i].Some? && s[i].value.Kind() == k
  }

  ghost predicate Fills(out: History, s: seq<Option<Parsed>>, ix: seq<nat>) {
    |out| == |ix| && forall x :: 0 <= x < |ix| ==> ix[x] < |s| && s[ix[x]] == Some(out[x])
  }

  lemma FillsMore(out: History, s: seq<Option<Parsed>>, ix: seq<nat>)
    requires s != [] && Fills(out, s[..|s| - 1], ix)
    ensures Fills(out, s, ix)
    ensures s[|s| - 1].Some? ==> Fills(out + [s[|s| - 1].value], s, ix + [|s| - 1])
  {
  }

  lemma LiveMore(s: seq<Option<Parsed>>, k: Kind, less: seq<nat>) returns (ix: seq<nat>)
    requires s != [] && Lists(less, Live(s[..|s| - 1], k)) && Fills(Pick(s[..|s| - 1], k), s[..|s| - 1], less)
    ensures Lists(ix, Live(s, k)) && Fills(Pick(s, k), s, ix)
  {
    var n := |s| - 1;
    var was := Live(s[..n], k);
    FillsMore(Pick(s[..n], k), s, less);
    if s[n].Some? && s[n].value.Kind() == k {
      ix := less + [n];
      ListsMore(less, was, n);
      assert Live(s, k) == was + {n};
    } else {
      ix := less;
      assert Live(s, k) == was;
    }
  }

  lemma {:induction false} PickLists(s: seq<Option<Parsed>>, k: Kind) returns (ix: seq<nat>)
    ensures Lists(ix, Live(s, k)) && Fills(Pick(s, k), s, ix)
    decreases |s|
  {
    if s == [] {
      ix := [];
    } else {
      ix := PickLists(s[..|s| - 1], k);
      ix := LiveMore(s, k, ix);
    }
  }

  /** Slot updates have no part in what is erased. */
  lemma ErasedAt(h: History, items: History, ix: seq<nat>, x: nat)
    requires Lists(ix, NotSlots(h)) && Reads(items, h, ix) && x < |items|
    ensures Erased(items, x) <==> Erased(h, ix[x])
  {
    RecordAt(h, items, ix, x);
    if Erased(items, x) {
      var y :| x < y < |items| && Rival(items, x, y) && items[x].version < items[y].version;
      assert Rival(h, ix[x], ix[y]);
    }
    if Erased(h, ix[x]) {
      var j :| ix[x] < j < |h| && Rival(h, ix[x], j) && h[ix[x]].version < h[j].version;
      var y := ListedAt(ix, NotSlots(h), j);
      assert Rival(items, x, y);
    }
  }

  lemma RecordAt(h: History, items: History, ix: seq<nat>, x: nat)
    requires Lists(ix, NotSlots(h)) && Reads(items, h, ix) && x < |items|
    ensures Record(items, x) <==> Record(h, ix[x])
  {
    if Record(items, x) {
      forall j | 0 <= j < ix[x] && Rival(h, j, ix[x]) ensures h[j].version < h[ix[x]].version {
        var y := ListedAt(ix, NotSlots(h), j);
        assert Rival(items, y, x);
      }
    }
    if Record(h, ix[x]) {
      forall y | 0 <= y < x && Rival(items, y, x) ensures items[y].version < items[x].version {
        assert Rival(h, ix[y], ix[x]);
      }
    }
  }

  lemma AccountsList(h: History, ix: seq<nat>, iy: seq<nat>)
    requires Lists(ix, NotSlots(h)) && Reads(Items(h), h, ix)
    requires Lists(iy, Live(Retained(Items(h)), AccountK))
    ensures Lists(At(ix, iy), Unerased(h))
  {
    forall x | 0 <= x < |ix| ensures ix[x] in Unerased(h) <==> x in Live(Retained(Items(h)), AccountK) {
      ErasedAt(h, Items(h), ix, x);
    }
    ListsTwice(ix, NotSlots(h), iy, Live(Retained(Items(h)), AccountK), Unerased(h));
  }

  lemma AccountsRead(h: History, items: History, kept: seq<Option<Parsed>>, ix: seq<nat>, iy: seq<nat>, s: History)
    requires Reads(items, h, ix) && |kept| == |items| && Fills(s, kept, iy)
    requires forall i :: 0 <= i < |kept| ==> kept[i].None? || kept[i] == Some(items[i])
    ensures Reads(s, h, At(ix, iy))
  {
  }

  lemma AccountsShow(h: History)
    ensures Extracts(Pick(Retained(Items(h)), AccountK), h, Unerased(h))
  {
    var ix := ItemsList(h);
    var iy := PickLists(Retained(Items(h)), AccountK);
    AccountsList(h, ix, iy);
    AccountsRead(h, Items(h), Retained(Items(h)), ix, iy, Pick(Retained(Items(h)), AccountK));
  }

  /** The block of a complete history: the last meta, all transactions and all
      entries in order, and the account updates not superseded, in order. */
  lemma BlockMeans(h: History)
    requires Complete(h)
    ensures BlockShows(BlockOf(h), h)
  {
    LastMetaMeans(h);
    var tx := SelectLists(h, TransactionK);
    var en := SelectLists(h, EntryK);
    assert OfKind(h, TransactionK) == Txs(h) && OfKind(h, EntryK) == Ents(h);
    AccountsShow(h);
  }

  /** Only accounts are ever erased. */
  lemma {:induction false} PickRetained(h: History, s: seq<Option<Parsed>>, k: Kind)
    requires k != AccountK && k != SlotK
    requires |s| == |Items(h)| && forall i :: 0 <= i < |s| ==>
      s[i] == Some(Items(h)[i]) || (s[i].None? && Items(h)[i].PAccount?)
    ensures Pick(s, k) == Select(h, k)
    decreases |h|
  {
    if h != [] {
      var init := h[..|h| - 1];
      if h[|h| - 1].PSlot? {
        PickRetained(init, s, k);
      } else {
        PickRetained(init, s[..|s| - 1], k);
      }
    }
  }

  /** The fields of a slot's info, as the sender's map keeps them. */
  datatype Info = Info(slot: nat, blockCreated: bool, messages: seq<Option<Parsed>>,
                       accountsDedup: map<nat, (nat, nat)>, transactionsCount: nat, entriesCount: nat,
                       blockMeta: Option<Parsed>)
  {
    /** Everything the next attempt at a block looks at, for an unsealed history. */
    ghost predicate Tracks(h: History) {
      && messages == Retained(Items(h))
      && Champions(Items(h), accountsDedup)
      && transactionsCount == |Select(h, TransactionK)|
      && entriesCount == |Select(h, EntryK)|
      && blockMeta == LastMeta(h)
    }

    /** The info of a slot with history `h`. */
    ghost predicate Of(h: History) {
      && (blockCreated <==> Created(h))
      && messages == Stored(h)
      && (!blockCreated ==> Tracks(h))
    }
  }

  class SlotInfo {
    const slot: nat
    var blockCreated: bool
    var messages: seq<Option<Parsed>>
    var accountsDedup: map<nat, (nat, nat)>
    var transactionsCount: nat
    var entriesCount: nat
    var blockMeta: Option<Parsed>
    ghost var history: History

    function View(): Info
      reads this
    {
      Info(slot, blockCreated, messages, accountsDedup, transactionsCount, entriesCount, blockMeta)
    }

    ghost predicate Valid()
      reads this
    {
      View().Of(history)
    }

    /** Take up a slot where it was left. */
    constructor Resume(v: Info, ghost h: History)
      requires v.Of(h)
      ensures Valid() && View() == v && history == h
    {
      slot, blockCreated, messages, accountsDedup := v.slot, v.blockCreated, v.messages, v.accountsDedup;
      transactionsCount, entriesCount, blockMeta := v.transactionsCount, v.entriesCount, v.blockMeta;
      history := h;
    }

    constructor (s: nat)
      ensures Valid() && history == [] && slot == s
    {
      slot, blockCreated, messages, accountsDedup := s, false, [], map[];
      transactionsCount, entriesCount, blockMeta, history := 0, 0, None, [];
    }

    /** Store a message under its arrival number; an account update may displace
        the one its key had. */
    method Keep(m: Parsed)
      requires Champions(Items(history), accountsDedup) && messages == Retained(Items(history))
      requires !m.PSlot?
      modifies this`messages, this`accountsDedup
      ensures messages == Retained(Items(history) + [m])
      ensures Champions(Items(history) + [m], accountsDedup)
    {
      RetainedGrows(Items(history), accountsDedup, m);
      ChampionsGrow(Items(history), accountsDedup, m);
      var idx := |messages|;
      messages := messages + [Some(m)];
      if m.PAccount? {
        if m.pubkey in accountsDedup {
          var entry := accountsDedup[m.pubkey];
          if entry.0 < m.version {
            messages := messages[entry.1 := None];
            accountsDedup := accountsDedup[m.pubkey := (m.version, idx)];
          }
        } else {
          accountsDedup := accountsDedup[m.pubkey := (m.version, idx)];
        }
      }
    }

    method Store(m: Parsed)
      requires View().Tracks(history) && !m.PBlock?
      modifies this`messages, this`accountsDedup, this`transactionsCount, this`entriesCount, this`blockMeta
      ensures View().Tracks(history + [m])
    {
      TracksGrow(history, m);
      match m {
        case PSlot(_, _, _) =>
        case PAccount(_, _, _, _) => Keep(m);
        case PTransaction(_, _) =>
          Keep(m);
          transactionsCount := transactionsCount + 1;
        case PEntry(_, _) =>
          Keep(m);
          entriesCount := entriesCount + 1;
        case PMeta(_, _, _, _) =>
          Keep(m);
          blockMeta := Some(m);
      }
    }

    method TryCreate() returns (r: Option<Parsed>)
      requires View().Tracks(history)
      modifies this`messages, this`blockCreated
      ensures r.Some? <==> Complete(history)
      ensures r.Some? <==> CountsMet(history)
      ensures r.Some? ==> blockCreated && r.value == BlockOf(history)
      ensures messages == old(messages) + if r.Some? then [r] else []
      ensures r.None? ==> blockCreated == old(blockCreated)
    {
      CompleteMeans(history);
      r := None;
      if blockMeta.Some? && blockMeta.value.transactions == transactionsCount
         && blockMeta.value.entries == entriesCount
      {
        blockCreated := true;
        PickRetained(history, messages, TransactionK);
        PickRetained(history, messages, EntryK);
        r := Some(PBlock(blockMeta.value.slot, Pick(messages, AccountK),
                         Pick(messages, TransactionK), Pick(messages, EntryK), blockMeta.value));
        messages := messages + [r];
      }
    }

    /** Absorb one message.  A block comes out exactly when this message
        completes the slot for the first time, and it is the block of the whole
        history; after that nothing stored changes any more. */
    method GetBlockMessage(m: Parsed) returns (r: Option<Parsed>)
      requires Valid() && !m.PBlock?
      modifies this
      ensures Valid() && history == old(history) + [m]
      ensures r.Some? <==> CountsMet(history) && forall k :: 0 <= k < |history| ==> !CountsMet(history[..k])
      ensures forall k ::
          LastMetaAt(history, k) ==>
          history[k].transactions != |Txs(history)| || history[k].entries != |Ents(history)| ==> r.None?
      ensures r.Some? ==> BlockShows(r.value, history)
      ensures r.Some? <==> !Created(old(history)) && Complete(history)
      ensures r.Some? ==> r.value == BlockOf(history)
      ensures Created(old(history)) ==> messages == old(messages)
    {
      ghost var h, h' := history, history + [m];
      FirstMet(h, m);
      if blockCreated {
        SealedStays(View(), h, m);
        history := h';
        return None;
      }
      Store(m);
      history := h';
      ghost var stored := View();
      r := TryCreate();
      UnsealedMoves(stored, h, m, View());
    }
  }

  /** When a message makes the counts meet for the first time, told from the
      counts alone, and what the block then holds. */
  lemma FirstMet(h: History, m: Parsed)
    ensures !Created(h) && Complete(h + [m]) <==>
      CountsMet(h + [m]) && forall k :: 0 <= k < |h + [m]| ==> !CountsMet((h + [m])[..k])
    ensures Complete(h + [m]) ==> BlockShows(BlockOf(h + [m]), h + [m])
  {
    var h' := h + [m];
    CompleteMeans(h');
    CreatedCounts(h);
    forall k | 0 <= k <= |h| ensures h'[..k] == h[..k] {}
    if Complete(h') { BlockMeans(h'); }
  }

  lemma SealedStays(v: Info, h: History, m: Parsed)
    requires v.Of(h) && v.blockCreated
    ensures v.Of(h + [m])
  {
    HistoryGrows(h, m);
  }

  lemma UnsealedMoves(v: Info, h: History, m: Parsed, v': Info)
    requires !Created(h) && !v.blockCreated && v.Tracks(h + [m])
    requires if Complete(h + [m])
             then v' == v.(blockCreated := true, messages := v.messages + [Some(BlockOf(h + [m]))]) else v' == v
    ensures v'.Of(h + [m])
  {
    HistoryGrows(h, m);
  }

  lemma TracksGrow(h: History, m: Parsed)
    ensures Items(h + [m]) == if m.PSlot? then Items(h) else Items(h) + [m]
    ensures |Select(h + [m], TransactionK)| == |Select(h, TransactionK)| + if m.PTransaction? then 1 else 0
    ensures |Select(h + [m], EntryK)| == |Select(h, EntryK)| + if m.PEntry? then 1 else 0
    ensures LastMeta(h + [m]) == if m.PMeta? then Some(m) else LastMeta(h)
  {
    assert (h + [m])[..|h|] == h;
  }

  lemma ItemsGrow(h: History, m: Parsed)
    ensures Items(h + [m]) == Items(h) + (if m.PSlot? then [] else [m])
  {
    assert (h + [m])[..|h|] == h;
  }

  lemma SelectGrows(h: History, m: Parsed)
    ensures forall k :: Select(h + [m], k) == Select(h, k) + if m.Kind() == k then [m] else []
  {
    assert (h + [m])[..|h|] == h;
  }

  lemma CreatedGrows(h: History, m: Parsed)
    ensures Created(h + [m]) <==> Created(h) || Complete(h + [m])
  {
    assert (h + [m])[..|h|] == h;
  }

  lemma SealedGrows(h: History, m: Parsed)
    ensures Created(h) ==> Created(h + [m]) && Sealed(h + [m]) == Sealed(h)
    ensures !Created(h) && Complete(h + [m]) ==> Created(h + [m]) && Sealed(h + [m]) == h + [m]
  {
    CreatedGrows(h, m);
    assert (h + [m])[..|h|] == h;
  }

  lemma HistoryGrows(h: History, m: Parsed)
    ensures var h' := h + [m];
      && Items(h') == Items(h) + (if m.PSlot? then [] else [m])
      && (forall k :: Select(h', k) == Select(h, k) + if m.Kind() == k then [m] else [])
      && (Created(h') <==> Created(h) || Complete(h'))
      && (Created(h) ==> Sealed(h') == Sealed(h))
      && (!Created(h) && Complete(h') ==> Sealed(h') == h')
  {
    ItemsGrow(h, m);
    SelectGrows(h, m);
    CreatedGrows(h, m);
    SealedGrows(h, m);
  }

  // ---------------------------------------------------------------------------
  // What it means
  // ---------------------------------------------------------------------------

  predicate Relevant(m: Parsed) {
    m.PTransaction? || m.PEntry? || m.PMeta?
  }

  lemma {:induction false} SelectConcat(a: History, b: History, k: Kind)
    ensures Select(a + b, k) == Select(a, k) + Select(b, k)
    decreases |b|
  {
    if b == [] {
      assert a + b == a;
    } else {
      var b' := b[..|b| - 1];
      SelectConcat(a, b', k);
      assert (a + b)[..|a + b| - 1] == a + b';
    }
  }

  lemma {:induction false} SelectNone(h: History)
    ensures (forall i :: 0 <= i < |h| ==> !Relevant(h[i])) <==>
      Select(h, TransactionK) == [] && Select(h, EntryK) == [] && Select(h, MetaK) == []
    decreases |h|
  {
    if h != [] {
      SelectNone(h[..|h| - 1]);
      assert forall i :: 0 <= i < |h| - 1 ==> h[..|h| - 1][i] == h[i];
    }
  }

  /** A slot whose one block meta announces exactly its transactions and entries. */
  predicate WellAnnounced(h: History) {
    && |Select(h, MetaK)| == 1
    && Select(h, MetaK)[0].transactions == |Select(h, TransactionK)|
    && Select(h, MetaK)[0].entries == |Select(h, EntryK)|
  }

  /** A prefix is complete exactly when nothing relevant is still to come. */
  lemma PrefixComplete(h: History, k: nat)
    requires WellAnnounced(h) && k <= |h|
    ensures Complete(h[..k]) <==> forall i :: k <= i < |h| ==> !Relevant(h[i])
  {
    var a, b := h[..k], h[k..];
    assert h == a + b;
    SelectConcat(a, b, TransactionK);
    SelectConcat(a, b, EntryK);
    SelectConcat(a, b, MetaK);
    SelectNone(b);
    assert forall i :: 0 <= i < |b| ==> b[i] == h[k + i];
    if Select(b, MetaK) == [] {
      assert Select(a, MetaK) == Select(h, MetaK);
    }
  }

  /** Reconstruction does not depend on the order of arrival: in whatever order
      the transactions, entries and the meta come, interleaved with anything
      else, the slot is sealed exactly by the last of them, and the block holds
      exactly the slot's transactions and entries as they arrived. */
  lemma ArrivalOrderIsFree(h: History)
    requires WellAnnounced(h)
    ensures Created(h)
    ensures var p := Sealed(h);
      && p != [] && Relevant(p[|p| - 1])
      && (forall i :: |p| <= i < |h| ==> !Relevant(h[i]))
      && BlockOf(p).txs == Select(h, TransactionK)
      && BlockOf(p).ents == Select(h, EntryK)
      && BlockOf(p).meta == Select(h, MetaK)[0]
  {
    AnnouncedCreated(h);
    var p := Sealed(h);
    AnnouncedSealed(h, p);
    IrrelevantRest(h, |p|);
    SealedByRelevant(h, p);
    BlockHolds(p);
  }

  lemma BlockHolds(p: History)
    requires Complete(p)
    ensures BlockOf(p).txs == Select(p, TransactionK) && BlockOf(p).ents == Select(p, EntryK)
    ensures var ms := Select(p, MetaK); ms != [] && BlockOf(p).meta == ms[|ms| - 1]
  {
  }

  lemma AnnouncedCreated(h: History)
    requires WellAnnounced(h)
    ensures Created(h)
  {
    PrefixComplete(h, |h|);
    assert h[..|h|] == h;
  }

  lemma AnnouncedSealed(h: History, p: History)
    requires WellAnnounced(h) && p <= h && Complete(p)
    ensures p == h[..|p|] && forall i :: |p| <= i < |h| ==> !Relevant(h[i])
  {
    assert p == h[..|p|];
    PrefixComplete(h, |p|);
  }

  /** Cutting off irrelevant messages changes no selection that matters. */
  lemma IrrelevantRest(h: History, n: nat)
    requires n <= |h| && forall i :: n <= i < |h| ==> !Relevant(h[i])
    ensures Select(h[..n], TransactionK) == Select(h, TransactionK)
    ensures Select(h[..n], EntryK) == Select(h, EntryK)
    ensures Select(h[..n], MetaK) == Select(h, MetaK)
  {
    var p, b := h[..n], h[n..];
    assert h == p + b;
    SelectConcat(p, b, TransactionK);
    SelectConcat(p, b, EntryK);
    SelectConcat(p, b, MetaK);
    SelectNone(b);
  }

  lemma SealedByRelevant(h: History, p: History)
    requires WellAnnounced(h) && p <= h && Complete(p)
    requires p == [] || !Created(p[..|p| - 1])
    ensures p != [] && Relevant(p[|p| - 1])
  {
    assert Select([], MetaK) == [];
    assert p != [];
    var n := |p|;
    assert p == h[..n] && p[..n - 1] == h[..n - 1];
    PrefixComplete(h, n);
    PrefixComplete(h, n - 1);
    assert !Complete(h[..n - 1]);
  }

  /** If versions of each key arrive strictly increasing, exactly the newest update of each key is kept. */
  lemma NewestAccountsKept(items: History, i: nat)
    requires i < |items| && items[i].PAccount?
    requires Increasing(items)
    ensures Retained(items)[i].Some? <==>
      forall j :: i < j < |items| && items[j].PAccount? ==> items[j].pubkey != items[i].pubkey
  {
    assert Record(items, i);
    forall j | i < j < |items| && items[j].PAccount?
      ensures Rival(items, i, j) <==> items[j].pubkey == items[i].pubkey
    {}
  }

  /** Whatever the order of versions: an erased item is an account strictly
      superseded later, and every key seen keeps an update with its highest version. */
  lemma DedupIsSafe(items: History, dedup: map<nat, (nat, nat)>, i: nat)
    requires Champions(items, dedup) && i < |items|
    ensures Retained(items)[i].None? ==>
      exists j :: i < j < |items| && items[i].PAccount? && items[j].PAccount?
                  && items[i].pubkey == items[j].pubkey && items[i].version < items[j].version
    ensures items[i].PAccount? ==>
      && items[i].pubkey in dedup
      && var c := dedup[items[i].pubkey];
         && items[i].version <= c.0
         && c.1 < |items| && Retained(items)[c.1] == Some(items[c.1])
         && items[c.1].PAccount? && items[c.1].pubkey == items[i].pubkey && items[c.1].version == c.0
  {
    if items[i].PAccount? {
      ChampionIsLastRecord(items, dedup, dedup[items[i].pubkey].1);
    }
  }

  lemma {:induction false} PickMembers(s: seq<Option<Parsed>>, k: Kind)
    ensures forall a :: a in Pick(s, k) <==> Some(a) in s && a.Kind() == k
    decreases |s|
  {
    if s != [] {
      var init, last := s[..|s| - 1], s[|s| - 1];
      PickMembers(init, k);
      assert s == init + [last];
    }
  }

  function Key(m: Option<Parsed>): Option<nat> {
    if m.Some? && m.value.PAccount? then Some(m.value.pubkey) else None
  }

  ghost predicate OnePerKey(s: seq<Option<Parsed>>) {
    forall i, j :: 0 <= i < j < |s| && Key(s[i]).Some? ==> Key(s[i]) != Key(s[j])
  }

  ghost predicate DistinctAccounts(held: History) {
    && (forall x :: 0 <= x < |held| ==> held[x].PAccount?)
    && forall x, y :: 0 <= x < y < |held| ==> held[x].pubkey != held[y].pubkey
  }

  lemma {:induction false} PickDistinct(s: seq<Option<Parsed>>)
    requires OnePerKey(s)
    ensures DistinctAccounts(Pick(s, AccountK))
    decreases |s|
  {
    if s != [] {
      var init, last := s[..|s| - 1], s[|s| - 1];
      var held := Pick(init, AccountK);
      PickDistinct(init);
      if Key(last).Some? {
        forall x | 0 <= x < |held| ensures held[x].pubkey != last.value.pubkey {
          PickMembers(init, AccountK);
          assert held[x] in held;
          var i :| 0 <= i < |init| && init[i] == Some(held[x]);
          assert Key(s[i]) == Some(held[x].pubkey);
        }
      }
    }
  }

  ghost predicate Increasing(items: History) {
    forall a, b ::
      0 <= a < b < |items| && items[a].PAccount? && items[b].PAccount? && items[a].pubkey == items[b].pubkey ==>
      items[a].version < items[b].version
  }

  /** With strictly increasing versions per key, the block holds at most one update per key. */
  lemma OneAccountPerKey(h: History)
    requires Complete(h) && Increasing(Items(h))
    ensures DistinctAccounts(BlockOf(h).accounts)
  {
    var items := Items(h);
    var kept := Retained(items);
    forall i, j | 0 <= i < j < |kept| && Key(kept[i]).Some? ensures Key(kept[i]) != Key(kept[j]) {
      NewestAccountsKept(items, i);
      assert !Rival(items, i, j);
    }
    PickDistinct(kept);
  }

  /** … and for every update of the slot it holds the newest one of the same key. */
  lemma NewestAccountHeld(h: History, i: nat) returns (j: nat)
    requires Complete(h) && Increasing(Items(h))
    requires i < |Items(h)| && Items(h)[i].PAccount?
    ensures i <= j < |Items(h)| && Items(h)[j].PAccount? && Items(h)[j].pubkey == Items(h)[i].pubkey
    ensures forall k :: j < k < |Items(h)| && Items(h)[k].PAccount? ==> Items(h)[k].pubkey != Items(h)[j].pubkey
    ensures Items(h)[j] in BlockOf(h).accounts
  {
    var items := Items(h);
    j := NewestOf(items, i);
    NewestAccountsKept(items, j);
    PickMembers(Retained(items), AccountK);
    assert Retained(items)[j] == Some(items[j]);
  }

  /** The last update of the same key. */
  lemma NewestOf(items: History, i: nat) returns (j: nat)
    requires i < |items| && items[i].PAccount?
    requires Increasing(items)
    ensures i <= j < |items| && items[j].PAccount? && items[j].pubkey == items[i].pubkey
    ensures items[j].version >= items[i].version
    ensures forall k :: j < k < |items| ==> !Rival(items, j, k)
    decreases |items| - i
  {
    if k :| i < k < |items| && Rival(items, i, k) {
      j := NewestOf(items, k);
    } else {
      j := i;
    }
  }
}
