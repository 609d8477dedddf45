/** Account filters compiled into matchers of fixed capacity, and data slices.
    A panic of the code is modelled as an outcome of its own. */
module FilterAccounts {
  import opened Base
  import opened FilterConfig

  /** No allocation may be larger. */
  const ISIZE_MAX: int := TWO63 - 1

  // ---------------------------------------------------------------------------
  // What a client asks for
  // ---------------------------------------------------------------------------

  datatype AccountMsg = AccountMsg(pubkey: Bytes, owner: Bytes, lamports: U64, data: Bytes, nonemptyTxnSignature: bool)

  predicate LamportsHold(f: Lamports, lamports: U64) {
    match f
    case Eq(v) => lamports == v
    case Ne(v) => lamports != v
    case Lt(v) => lamports < v
    case Gt(v) => lamports > v
  }

  /** `bytes` stand in `data` at `offset`. */
  predicate StandsAt(offset: nat, bytes: Bytes, data: Bytes) {
    offset + |bytes| <= |data| && data[offset..offset + |bytes|] == bytes
  }

  predicate Holds(f: Filter, lamports: U64, data: Bytes, token: Bytes -> bool) {
    match f
    case Memcmp(offset, bytes) => StandsAt(offset, bytes, data)
    case DataSize(size) => |data| == size
    case TokenAccountState => token(data)
    case LamportsFilter(l) => LamportsHold(l, lamports)
  }

  predicate AllHold(fs: seq<Filter>, lamports: U64, data: Bytes, token: Bytes -> bool) {
    forall i :: 0 <= i < |fs| ==> Holds(fs[i], lamports, data, token)
  }

  predicate Wanted(f: AccountFilter, m: AccountMsg, token: Bytes -> bool) {
    && (f.account != [] ==> m.pubkey in f.account)
    && (f.owner != [] ==> m.owner in f.owner)
    && AllHold(f.filters, m.lamports, m.data, token)
    && (f.nonemptyTxnSignature.Some? ==> f.nonemptyTxnSignature.value == m.nonemptyTxnSignature)
  }

  /** The offset of no comparison is so large that its end wraps around. */
  predicate NoWrap(fs: seq<Filter>) {
    forall i :: 0 <= i < |fs| && fs[i].Memcmp? ==> fs[i].offset + |fs[i].data| < TWO64
  }

  // ---------------------------------------------------------------------------
  // Compiling
  // ---------------------------------------------------------------------------

  datatype State = State(memcmp: seq<(U64, Bytes)>, datasize: Option<U64>, tokenAccountState: bool,
      lamports: seq<Lamports>)

  function Memcmps(fs: seq<Filter>): seq<(U64, Bytes)> {
    if fs == [] then []
    else
      var f := fs[|fs| - 1];
      Memcmps(fs[..|fs| - 1]) + if f.Memcmp? then [(f.offset, f.data)] else []
  }

  function AllLamports(fs: seq<Filter>): seq<Lamports> {
    if fs == [] then []
    else
      var f := fs[|fs| - 1];
      AllLamports(fs[..|fs| - 1]) + if f.LamportsFilter? then [f.lamports] else []
  }

  /** A later data size replaces an earlier one. */
  function LastSize(fs: seq<Filter>): Option<U64> {
    if fs == [] then None
    else if fs[|fs| - 1].DataSize? then Some(fs[|fs| - 1].size) else LastSize(fs[..|fs| - 1])
  }

  function Compiled(fs: seq<Filter>): State {
    State(Memcmps(fs), LastSize(fs), TokenAccountState in fs, AllLamports(fs))
  }

  /** Everything fits the fixed capacities. */
  predicate Fits(fs: seq<Filter>) {
    |Memcmps(fs)| <= MAX_FILTERS && |AllLamports(fs)| <= MAX_FILTERS && DataFits(fs)
  }

  /** `None` is the panic of a push to a full array. */
  method Compile(fs: seq<Filter>) returns (s: Option<State>)
    ensures s == if Fits(fs) then Some(Compiled(fs)) else None
  {
    var me := State([], None, false, []);
    for i := 0 to |fs|
      invariant Fits(fs[..i]) && me == Compiled(fs[..i])
    {
      assert fs[..i + 1][..i] == fs[..i];
      match fs[i]
      case Memcmp(offset, data) =>
        if |data| > MAX_DATA_SIZE || |me.memcmp| >= MAX_FILTERS {
          NeverFitsAgain(fs, i + 1);
          return None;
        }
        me := me.(memcmp := me.memcmp + [(offset, data)]);
      case DataSize(size) => me := me.(datasize := Some(size));
      case TokenAccountState => me := me.(tokenAccountState := true);
      case LamportsFilter(l) =>
        if |me.lamports| >= MAX_FILTERS {
          NeverFitsAgain(fs, i + 1);
          return None;
        }
        me := me.(lamports := me.lamports + [l]);
    }
    assert fs[..|fs|] == fs;
    return Some(me);
  }

  lemma {:induction false} NeverFitsAgain(fs: seq<Filter>, i: nat)
    requires i <= |fs| && !Fits(fs[..i])
    ensures !Fits(fs)
    decreases |fs| - i
  {
    if i < |fs| {
      assert fs[..i + 1][..i] == fs[..i];
      NeverFitsAgain(fs, i + 1);
    } else {
      assert fs[..i] == fs;
    }
  }

  lemma {:induction false} PartsAreFewer(fs: seq<Filter>)
    ensures |Memcmps(fs)| <= |fs| && |AllLamports(fs)| <= |fs|
    decreases |fs|
  {
    if fs != [] { PartsAreFewer(fs[..|fs| - 1]); }
  }

  /** What the limits let through never overflows a matcher. */
  lemma AcceptedFits(l: Limits, cs: seq<Named>, ss: seq<Slice>, i: nat)
    requires Accepted(l, cs, ss) && i < |cs|
    ensures Fits(cs[i].filter.filters)
  {
    assert FilterAllowed(l, cs[i].filter);
    PartsAreFewer(cs[i].filter.filters);
  }

  // ---------------------------------------------------------------------------
  // Matching
  // ---------------------------------------------------------------------------

  predicate StateHolds(s: State, lamports: U64, data: Bytes, token: Bytes -> bool) {
    && (s.datasize.Some? ==> |data| == s.datasize.value)
    && (s.tokenAccountState ==> token(data))
    && (forall i :: 0 <= i < |s.lamports| ==> LamportsHold(s.lamports[i], lamports))
    && (forall i :: 0 <= i < |s.memcmp| ==> StandsAt(s.memcmp[i].0, s.memcmp[i].1, data))
  }

  /** The comparison at `k` is reached, wraps around and slices backwards. */
  predicate PanicsAt(s: State, lamports: U64, data: Bytes, token: Bytes -> bool, k: nat)
    requires k < |s.memcmp|
  {
    && StateHolds(s.(memcmp := s.memcmp[..k]), lamports, data, token)
    && var (offset, bytes) := s.memcmp[k];
       offset + |bytes| >= TWO64 && |data| >= Wrap(offset + |bytes|)
  }

  predicate Panics(s: State, lamports: U64, data: Bytes, token: Bytes -> bool) {
    exists k :: 0 <= k < |s.memcmp| && PanicsAt(s, lamports, data, token, k)
  }

  /** Every comparison of the account's lamports comes out as asked. */
  ghost predicate LamportsMeet(fs: seq<Lamports>, lamports: U64) {
    && (forall i :: 0 <= i < |fs| && fs[i].Eq? ==> lamports == fs[i].value)
    && (forall i :: 0 <= i < |fs| && fs[i].Ne? ==> lamports != fs[i].value)
    && (forall i :: 0 <= i < |fs| && fs[i].Lt? ==> lamports < fs[i].value)
    && (forall i :: 0 <= i < |fs| && fs[i].Gt? ==> lamports > fs[i].value)
  }

  lemma LamportsHeld(fs: seq<Lamports>, lamports: U64)
    ensures (forall i :: 0 <= i < |fs| ==> LamportsHold(fs[i], lamports)) <==> LamportsMeet(fs, lamports)
  {
  }

  /** `None` is a panic. */
  method IsMatch(s: State, lamports: U64, data: Bytes, token: Bytes -> bool) returns (r: Option<bool>)
    requires |data| < TWO64
    requires forall i :: 0 <= i < |s.memcmp| ==> |s.memcmp[i].1| <= MAX_DATA_SIZE
    ensures r.None? <==> Panics(s, lamports, data, token)
    ensures r.Some? ==> (r.value <==> StateHolds(s, lamports, data, token))
    ensures r == Some(true) ==> LamportsMeet(s.lamports, lamports)
    ensures LamportsMeet(s.lamports, lamports) && s.datasize.None? && !s.tokenAccountState && s.memcmp == [] ==>
      r == Some(true)
  {
    LamportsHeld(s.lamports, lamports);
    if s.datasize.Some? && |data| != s.datasize.value { return Some(false); }
    if s.tokenAccountState && !token(data) { return Some(false); }
    for i := 0 to |s.lamports|
      invariant forall j :: 0 <= j < i ==> LamportsHold(s.lamports[j], lamports)
    {
      if !LamportsHold(s.lamports[i], lamports) { return Some(false); }
    }
    for k := 0 to |s.memcmp|
      invariant forall j :: 0 <= j < k ==> StandsAt(s.memcmp[j].0, s.memcmp[j].1, data)
      invariant forall j :: 0 <= j < k ==> !PanicsAt(s, lamports, data, token, j)
    {
      var (offset, bytes) := s.memcmp[k];
      var end := Wrap(offset + |bytes|);
      ghost var upTo := s.(memcmp := s.memcmp[..k]);
      if |data| < end {
        NotBeyond(s, lamports, data, token, k);
        return Some(false);
      }
      if offset > end {
        assert PanicsAt(s, lamports, data, token, k);
        return None;
      }
      if data[offset..end] != bytes {
        NotBeyond(s, lamports, data, token, k);
        return Some(false);
      }
    }
    return Some(true);
  }

  lemma NotBeyond(s: State, lamports: U64, data: Bytes, token: Bytes -> bool, k: nat)
    requires k < |s.memcmp| && !StandsAt(s.memcmp[k].0, s.memcmp[k].1, data)
    ensures !StateHolds(s, lamports, data, token)
    ensures forall j :: k < j < |s.memcmp| ==> !PanicsAt(s, lamports, data, token, j)
  {
    forall j | k < j < |s.memcmp| ensures !PanicsAt(s, lamports, data, token, j) {
      assert s.memcmp[..j][k] == s.memcmp[k];
    }
  }

  // ---------------------------------------------------------------------------
  // Compiling keeps the meaning
  // ---------------------------------------------------------------------------

  lemma {:induction false} MemcmpsMean(fs: seq<Filter>, data: Bytes)
    ensures (forall i :: 0 <= i < |Memcmps(fs)| ==> StandsAt(Memcmps(fs)[i].0, Memcmps(fs)[i].1, data))
       <==> (forall i :: 0 <= i < |fs| && fs[i].Memcmp? ==> StandsAt(fs[i].offset, fs[i].data, data))
    decreases |fs|
  {
    if fs != [] {
      var n := |fs| - 1;
      var front, all := Memcmps(fs[..n]), Memcmps(fs);
      MemcmpsMean(fs[..n], data);
      assert all[..|front|] == front;
      assert forall i :: 0 <= i < |front| ==> all[i] == front[i];
      if fs[n].Memcmp? { assert all[|front|] == (fs[n].offset, fs[n].data); }
      assert forall i :: 0 <= i < n ==> fs[..n][i] == fs[i];
    }
  }

  lemma {:induction false} LamportsMean(fs: seq<Filter>, lamports: U64)
    ensures (forall i :: 0 <= i < |AllLamports(fs)| ==> LamportsHold(AllLamports(fs)[i], lamports))
       <==> (forall i :: 0 <= i < |fs| && fs[i].LamportsFilter? ==> LamportsHold(fs[i].lamports, lamports))
    decreases |fs|
  {
    if fs != [] {
      var n := |fs| - 1;
      var front, all := AllLamports(fs[..n]), AllLamports(fs);
      LamportsMean(fs[..n], lamports);
      assert all[..|front|] == front;
      assert forall i :: 0 <= i < |front| ==> all[i] == front[i];
      if fs[n].LamportsFilter? { assert all[|front|] == fs[n].lamports; }
      assert forall i :: 0 <= i < n ==> fs[..n][i] == fs[i];
    }
  }

  lemma {:induction false} SizeMeans(fs: seq<Filter>, n: nat)
    requires OneSize(fs)
    ensures (LastSize(fs).Some? ==> LastSize(fs).value == n)
       <==> (forall i :: 0 <= i < |fs| && fs[i].DataSize? ==> fs[i].size == n)
    decreases |fs|
  {
    if fs != [] {
      var front := fs[..|fs| - 1];
      SizeMeans(front, n);
      assert forall i :: 0 <= i < |front| ==> front[i] == fs[i];
    }
  }

  /** The matcher says what every listed filter says. */
  lemma CompiledMeans(fs: seq<Filter>, lamports: U64, data: Bytes, token: Bytes -> bool)
    requires OneSize(fs)
    ensures StateHolds(Compiled(fs), lamports, data, token) <==> AllHold(fs, lamports, data, token)
  {
    MemcmpsMean(fs, data);
    LamportsMean(fs, lamports);
    SizeMeans(fs, |data|);
    assert TokenAccountState in fs <==> exists i :: 0 <= i < |fs| && fs[i].TokenAccountState?;
  }

  /** Two different sizes can never both hold, but the matcher forgets the first:
      the check for duplicates is needed. */
  lemma DuplicateSizeForgotten(token: Bytes -> bool)
    ensures var fs := [DataSize(1), DataSize(0)];
      StateHolds(Compiled(fs), 0, [], token) && !AllHold(fs, 0, [], token)
  {
    var fs := [DataSize(1), DataSize(0)];
    var front: seq<Filter> := fs[..1];
    assert front == [DataSize(1)] && front[..0] == [];
    assert Memcmps(front[..0]) == [] && AllLamports(front[..0]) == [];
    assert Memcmps(front) == [] && AllLamports(front) == [];
    assert Memcmps(fs) == [] && AllLamports(fs) == [];
    assert !Holds(fs[0], 0, [], token);
  }

  lemma {:induction false} MemcmpsWrap(fs: seq<Filter>, k: nat)
    requires NoWrap(fs) && k < |Memcmps(fs)|
    ensures Memcmps(fs)[k].0 + |Memcmps(fs)[k].1| < TWO64
    decreases |fs|
  {
    var n := |fs| - 1;
    var front := Memcmps(fs[..n]);
    if k < |front| {
      MemcmpsWrap(fs[..n], k);
      assert Memcmps(fs)[k] == front[k];
    }
  }

  /** Only an offset that wraps around can make a matcher panic. */
  lemma NoWrapNoPanic(fs: seq<Filter>, lamports: U64, data: Bytes, token: Bytes -> bool)
    requires NoWrap(fs)
    ensures !Panics(Compiled(fs), lamports, data, token)
  {
    forall k | 0 <= k < |Memcmps(fs)| ensures !PanicsAt(Compiled(fs), lamports, data, token, k) {
      MemcmpsWrap(fs, k);
    }
  }

  /** A single comparison is harmless exactly when its end does not wrap around. */
  lemma SingleMemcmpPanicsIff(offset: U64, bytes: Bytes, token: Bytes -> bool)
    requires |bytes| <= MAX_DATA_SIZE
    ensures var s := Compiled([Memcmp(offset, bytes)]);
      (exists data: Bytes :: |data| <= ISIZE_MAX && Panics(s, 0, data, token)) <==> offset + |bytes| >= TWO64
  {
    var fs := [Memcmp(offset, bytes)];
    var s := Compiled(fs);
    assert fs[..0] == [];
    assert Memcmps(fs) == [(offset, bytes)] && AllLamports(fs) == [] && LastSize(fs) == None;
    assert s == State([(offset, bytes)], None, false, []);
    if offset + |bytes| >= TWO64 {
      var data: Bytes := seq(MAX_DATA_SIZE, _ => 0);
      assert PanicsAt(s, 0, data, token, 0);
      assert Panics(s, 0, data, token);
    } else {
      forall data: Bytes ensures !Panics(s, 0, data, token) {
        NoWrapNoPanic(fs, 0, data, token);
      }
    }
  }

  /** The end of a comparison wraps around and lies in the data, so its slice runs backwards. */
  predicate Wrapped(offset: U64, bytes: Bytes, data: Bytes) {
    offset + |bytes| >= TWO64 && |data| >= Wrap(offset + |bytes|)
  }

  /** The comparison at `i` is wrapped, with all earlier comparisons standing. */
  predicate WrapsAt(fs: seq<Filter>, data: Bytes, i: nat)
    requires i < |fs|
  {
    && fs[i].Memcmp? && Wrapped(fs[i].offset, fs[i].data, data)
    && forall j :: 0 <= j < i && fs[j].Memcmp? ==> StandsAt(fs[j].offset, fs[j].data, data)
  }

  predicate WrapsIn(fs: seq<Filter>, data: Bytes) {
    exists i :: 0 <= i < |fs| && WrapsAt(fs, data, i)
  }

  /** A wrapped comparison, written out. */
  lemma WrapsShow(fs: seq<Filter>, data: Bytes, i: nat)
    requires i < |fs| && DataFits(fs)
    ensures WrapsAt(fs, data, i) <==>
      && fs[i].Memcmp? && 0x1_0000_0000_0000_0000 <= fs[i].offset + |fs[i].data| <= 0x1_0000_0000_0000_0000 + |data|
      && forall j :: 0 <= j < i && fs[j].Memcmp? ==>
           && fs[j].offset + |fs[j].data| <= |data|
           && data[fs[j].offset..fs[j].offset + |fs[j].data|] == fs[j].data
  {
  }

  predicate PairsWrap(ms: seq<(U64, Bytes)>, data: Bytes) {
    exists k :: 0 <= k < |ms| && PairWraps(ms, data, k)
  }

  predicate PairWraps(ms: seq<(U64, Bytes)>, data: Bytes, k: nat)
    requires k < |ms|
  {
    Wrapped(ms[k].0, ms[k].1, data) && forall j :: 0 <= j < k ==> StandsAt(ms[j].0, ms[j].1, data)
  }

  lemma PairsWrapMore(ms: seq<(U64, Bytes)>, x: (U64, Bytes), data: Bytes)
    ensures PairsWrap(ms + [x], data) <==>
      PairsWrap(ms, data)
      || (Wrapped(x.0, x.1, data) && forall j :: 0 <= j < |ms| ==> StandsAt(ms[j].0, ms[j].1, data))
  {
    var more, n := ms + [x], |ms|;
    assert more[n] == x && forall j :: 0 <= j < n ==> more[j] == ms[j];
    forall k | 0 <= k < n ensures PairWraps(more, data, k) <==> PairWraps(ms, data, k) {
      assert forall j :: 0 <= j < k ==> more[j] == ms[j];
    }
    if Wrapped(x.0, x.1, data) && forall j :: 0 <= j < n ==> StandsAt(ms[j].0, ms[j].1, data) {
      assert PairWraps(more, data, n);
    }
    if PairWraps(more, data, n) {
      forall j | 0 <= j < n ensures StandsAt(ms[j].0, ms[j].1, data) { assert more[j] == ms[j]; }
    }
  }

  lemma WrapsInMore(fs: seq<Filter>, data: Bytes)
    requires fs != []
    ensures var front, f := fs[..|fs| - 1], fs[|fs| - 1];
      WrapsIn(fs, data) <==>
      WrapsIn(front, data)
      || (f.Memcmp? && Wrapped(f.offset, f.data, data)
          && forall j :: 0 <= j < |front| && front[j].Memcmp? ==> StandsAt(front[j].offset, front[j].data, data))
  {
    var n := |fs| - 1;
    var front := fs[..n];
    assert forall j :: 0 <= j < n ==> front[j] == fs[j];
    forall i | 0 <= i < n ensures WrapsAt(fs, data, i) <==> WrapsAt(front, data, i) {
      assert forall j :: 0 <= j < i ==> front[j] == fs[j];
    }
    if WrapsAt(fs, data, n) {
      forall j | 0 <= j < n && front[j].Memcmp? ensures StandsAt(front[j].offset, front[j].data, data) {
        assert front[j] == fs[j];
      }
    }
  }

  lemma {:induction false} WrapsMeans(fs: seq<Filter>, data: Bytes)
    ensures PairsWrap(Memcmps(fs), data) <==> WrapsIn(fs, data)
    decreases |fs|
  {
    if fs != [] {
      var n, f := |fs| - 1, fs[|fs| - 1];
      WrapsMeans(fs[..n], data);
      MemcmpsMean(fs[..n], data);
      WrapsInMore(fs, data);
      if f.Memcmp? {
        PairsWrapMore(Memcmps(fs[..n]), (f.offset, f.data), data);
      } else {
        assert Memcmps(fs) == Memcmps(fs[..n]);
      }
    }
  }

  /** The filters other than comparisons, which are looked at first, hold. */
  predicate OthersHold(fs: seq<Filter>, lamports: U64, data: Bytes, token: Bytes -> bool) {
    forall i :: 0 <= i < |fs| && !fs[i].Memcmp? ==> Holds(fs[i], lamports, data, token)
  }

  /** The matcher panics exactly when the other filters hold and the first comparison
      that does not stand is a wrapped one. */
  lemma PanicsMeans(fs: seq<Filter>, lamports: U64, data: Bytes, token: Bytes -> bool)
    requires OneSize(fs)
    ensures Panics(Compiled(fs), lamports, data, token) <==> OthersHold(fs, lamports, data, token) && WrapsIn(fs, data)
  {
    var s := Compiled(fs);
    WrapsMeans(fs, data);
    LamportsMean(fs, lamports);
    SizeMeans(fs, |data|);
    assert TokenAccountState in fs <==> exists i :: 0 <= i < |fs| && fs[i].TokenAccountState?;
    assert OthersHold(fs, lamports, data, token) <==> StateHolds(s.(memcmp := []), lamports, data, token);
    forall k | 0 <= k < |s.memcmp|
      ensures PanicsAt(s, lamports, data, token, k) <==>
        StateHolds(s.(memcmp := []), lamports, data, token) && PairWraps(s.memcmp, data, k)
    {
      assert forall j :: 0 <= j < k ==> s.memcmp[..k][j] == s.memcmp[j];
    }
  }

  // ---------------------------------------------------------------------------
  // All filters of a client
  // ---------------------------------------------------------------------------

  datatype Inner = Inner(account: set<Bytes>, owner: set<Bytes>, filters: Option<State>,
      nonemptyTxnSignature: Option<bool>)

  datatype NamedInner = NamedInner(name: Bytes, inner: Inner)

  function Keys(ks: seq<Bytes>): set<Bytes> { set k | k in ks }

  function InnerOf(f: AccountFilter): Inner {
    Inner(Keys(f.account), Keys(f.owner), if f.filters == [] then None else Some(Compiled(f.filters)),
        f.nonemptyTxnSignature)
  }

  method CompileAll(cs: seq<Named>) returns (r: Option<seq<NamedInner>>)
    ensures r.Some? <==> forall i :: 0 <= i < |cs| ==> Fits(cs[i].filter.filters)
    ensures r.Some? ==> |r.value| == |cs|
    ensures r.Some? ==> forall i :: 0 <= i < |cs| ==> r.value[i] == NamedInner(cs[i].name, InnerOf(cs[i].filter))
  {
    var me: seq<NamedInner> := [];
    for i := 0 to |cs|
      invariant |me| == i
      invariant forall j :: 0 <= j < i ==> Fits(cs[j].filter.filters)
      invariant forall j :: 0 <= j < i ==> me[j] == NamedInner(cs[j].name, InnerOf(cs[j].filter))
    {
      var f := cs[i].filter;
      var state := None;
      if f.filters != [] {
        state := Compile(f.filters);
        if state.None? { return None; }
      }
      me := me + [NamedInner(cs[i].name, Inner(Keys(f.account), Keys(f.owner), state, f.nonemptyTxnSignature))];
    }
    return Some(me);
  }

  /** The account passes what is looked at before the comparisons, and one of those panics. */
  predicate PanicsOn(f: AccountFilter, m: AccountMsg, token: Bytes -> bool) {
    && (f.account != [] ==> m.pubkey in f.account)
    && (f.owner != [] ==> m.owner in f.owner)
    && OthersHold(f.filters, m.lamports, m.data, token) && WrapsIn(f.filters, m.data)
  }

  /** One compiled filter against one account; `None` is a panic. */
  method Passes(ghost f: AccountFilter, inner: Inner, m: AccountMsg, token: Bytes -> bool) returns (r: Option<bool>)
    requires inner == InnerOf(f) && Compilable(f.filters) && |m.data| < TWO64
    ensures r.None? <==> PanicsOn(f, m, token)
    ensures r.Some? ==> (r.value <==> Wanted(f, m, token))
  {
    EmptyKeys(f.account);
    EmptyKeys(f.owner);
    if inner.account != {} && m.pubkey !in inner.account { return Some(false); }
    if inner.owner != {} && m.owner !in inner.owner { return Some(false); }
    if inner.filters.Some? {
      MemcmpData(f.filters);
      var matched := IsMatch(inner.filters.value, m.lamports, m.data, token);
      PanicsMeans(f.filters, m.lamports, m.data, token);
      CompiledMeans(f.filters, m.lamports, m.data, token);
      if matched != Some(true) { return matched; }
    }
    if inner.nonemptyTxnSignature.Some? && inner.nonemptyTxnSignature.value != m.nonemptyTxnSignature {
      return Some(false);
    }
    return Some(true);
  }

  lemma EmptyKeys(ks: seq<Bytes>)
    ensures Keys(ks) == {} <==> ks == []
  {
    if ks != [] { assert ks[0] in Keys(ks); }
  }

  lemma {:induction false} MemcmpData(fs: seq<Filter>)
    requires DataFits(fs)
    ensures forall i :: 0 <= i < |Memcmps(fs)| ==> |Memcmps(fs)[i].1| <= MAX_DATA_SIZE
    decreases |fs|
  {
    if fs != [] { MemcmpData(fs[..|fs| - 1]); }
  }

  /** The names of the filters that want the account. */
  function Selected(cs: seq<Named>, m: AccountMsg, token: Bytes -> bool): seq<Bytes> {
    if cs == [] then []
    else
      var c := cs[|cs| - 1];
      Selected(cs[..|cs| - 1], m, token) + if Wanted(c.filter, m, token) then [c.name] else []
  }

  /** Everything the filter asks for, written out, is true of the account. */
  ghost predicate Asks(f: AccountFilter, m: AccountMsg, token: Bytes -> bool) {
    && (|f.account| > 0 ==> exists i :: 0 <= i < |f.account| && f.account[i] == m.pubkey)
    && (|f.owner| > 0 ==> exists i :: 0 <= i < |f.owner| && f.owner[i] == m.owner)
    && (f.nonemptyTxnSignature == Some(true) ==> m.nonemptyTxnSignature)
    && (f.nonemptyTxnSignature == Some(false) ==> !m.nonemptyTxnSignature)
    && forall i :: 0 <= i < |f.filters| ==> AsksPart(f.filters[i], m, token)
  }

  ghost predicate AsksPart(f: Filter, m: AccountMsg, token: Bytes -> bool) {
    && (f.Memcmp? ==>
          && f.offset + |f.data| <= |m.data|
          && forall k :: 0 <= k < |f.data| ==> m.data[f.offset + k] == f.data[k])
    && (f.DataSize? ==> |m.data| == f.size)
    && (f.TokenAccountState? ==> token(m.data))
    && (f.LamportsFilter? ==>
          && (f.lamports.Eq? ==> m.lamports == f.lamports.value)
          && (f.lamports.Ne? ==> m.lamports != f.lamports.value)
          && (f.lamports.Lt? ==> m.lamports < f.lamports.value)
          && (f.lamports.Gt? ==> m.lamports > f.lamports.value))
  }

  lemma AsksPartMeans(f: Filter, m: AccountMsg, token: Bytes -> bool)
    ensures Holds(f, m.lamports, m.data, token) <==> AsksPart(f, m, token)
  {
    if f.Memcmp? && f.offset + |f.data| <= |m.data| {
      var part := m.data[f.offset..f.offset + |f.data|];
      assert forall k :: 0 <= k < |f.data| ==> part[k] == m.data[f.offset + k];
      assert part == f.data <==> forall k :: 0 <= k < |f.data| ==> m.data[f.offset + k] == f.data[k];
    }
  }

  lemma AsksMeans(f: AccountFilter, m: AccountMsg, token: Bytes -> bool)
    ensures Wanted(f, m, token) <==> Asks(f, m, token)
  {
    forall i | 0 <= i < |f.filters|
      ensures Holds(f.filters[i], m.lamports, m.data, token) <==> AsksPart(f.filters[i], m, token)
    {
      AsksPartMeans(f.filters[i], m, token);
    }
  }

  /** Which filters ask for the account. */
  ghost function Asking(cs: seq<Named>, m: AccountMsg, token: Bytes -> bool): set<nat> {
    set i: nat | i < |cs| && Asks(cs[i].filter, m, token)
  }

  /** `names` are, in order, those of the filters at `ix`. */
  ghost predicate NamesOf(names: seq<Bytes>, cs: seq<Named>, ix: seq<nat>) {
    |names| == |ix| && forall x :: 0 <= x < |ix| ==> ix[x] < |cs| && names[x] == cs[ix[x]].name
  }

  lemma NamesMore(names: seq<Bytes>, cs: seq<Named>, ix: seq<nat>)
    requires cs != [] && NamesOf(names, cs[..|cs| - 1], ix)
    ensures NamesOf(names, cs, ix) && NamesOf(names + [cs[|cs| - 1].name], cs, ix + [|cs| - 1])
  {
  }

  lemma AskingMore(cs: seq<Named>, m: AccountMsg, token: Bytes -> bool)
    requires cs != []
    ensures var n := |cs| - 1;
      Asking(cs, m, token) == Asking(cs[..n], m, token) + if Wanted(cs[n].filter, m, token) then {n} else {}
  {
    AsksMeans(cs[|cs| - 1].filter, m, token);
  }

  lemma SelectedMore(cs: seq<Named>, m: AccountMsg, token: Bytes -> bool, less: seq<nat>) returns (ix: seq<nat>)
    requires cs != [] && Lists(less, Asking(cs[..|cs| - 1], m, token))
    requires NamesOf(Selected(cs[..|cs| - 1], m, token), cs[..|cs| - 1], less)
    ensures Lists(ix, Asking(cs, m, token)) && NamesOf(Selected(cs, m, token), cs, ix)
  {
    var n := |cs| - 1;
    AskingMore(cs, m, token);
    NamesMore(Selected(cs[..n], m, token), cs, less);
    if Wanted(cs[n].filter, m, token) {
      ix := less + [n];
      ListsMore(less, Asking(cs[..n], m, token), n);
    } else {
      ix := less;
      assert Asking(cs[..n], m, token) + {} == Asking(cs[..n], m, token);
    }
  }

  lemma {:induction false} SelectedShows(cs: seq<Named>, m: AccountMsg, token: Bytes -> bool) returns (ix: seq<nat>)
    ensures Lists(ix, Asking(cs, m, token)) && NamesOf(Selected(cs, m, token), cs, ix)
    decreases |cs|
  {
    if cs == [] {
      ix := [];
    } else {
      ix := SelectedShows(cs[..|cs| - 1], m, token);
      ix := SelectedMore(cs, m, token, ix);
    }
  }

  lemma NothingAsks(cs: seq<Named>, m: AccountMsg, token: Bytes -> bool, ix: seq<nat>)
    requires Lists(ix, Asking(cs, m, token))
    ensures ix == [] ==> forall i :: 0 <= i < |cs| ==> !Asks(cs[i].filter, m, token)
  {
    if i: nat :| i < |cs| && Asks(cs[i].filter, m, token) {
      var x := ListedAt(ix, Asking(cs, m, token), i);
    }
  }

  datatype Update = Panicked | Nothing | Under(names: seq<Bytes>)

  /** Of accepted filters, compiled, an account is sent under exactly the names
      whose configuration wants it; no array overflows, and the call panics exactly
      when one of the filters does on that account. */
  method AccountUpdate(l: Limits, cs: seq<Named>, ss: seq<Slice>, m: AccountMsg, token: Bytes -> bool)
    returns (update: Update)
    requires Accepted(l, cs, ss) && |m.data| < TWO64
    ensures update.Panicked? <==> exists i :: 0 <= i < |cs| && PanicsOn(cs[i].filter, m, token)
    ensures !update.Panicked? ==>
      update == if Selected(cs, m, token) == [] then Nothing else Under(Selected(cs, m, token))
    ensures update.Nothing? ==> forall i :: 0 <= i < |cs| ==> !Asks(cs[i].filter, m, token)
    ensures update.Under? ==>
      update.names != [] && exists ix :: Lists(ix, Asking(cs, m, token)) && NamesOf(update.names, cs, ix)
  {
    ghost var ix := SelectedShows(cs, m, token);
    forall i | 0 <= i < |cs| ensures Fits(cs[i].filter.filters) { AcceptedFits(l, cs, ss, i); }
    var compiled := CompileAll(cs);
    var filters := compiled.value;
    var found: seq<Bytes> := [];
    for i := 0 to |filters|
      invariant found == Selected(cs[..i], m, token)
      invariant forall j :: 0 <= j < i ==> !PanicsOn(cs[j].filter, m, token)
    {
      assert cs[..i + 1][..i] == cs[..i];
      assert FilterAllowed(l, cs[i].filter);
      var passes := Passes(cs[i].filter, filters[i].inner, m, token);
      if passes.None? { return Panicked; }
      if passes.value { found := found + [filters[i].name]; }
    }
    assert cs[..|cs|] == cs;
    NothingAsks(cs, m, token, ix);
    return if found == [] then Nothing else Under(found);
  }

  // ---------------------------------------------------------------------------
  // Data slices
  // ---------------------------------------------------------------------------

  datatype Range = Range(start: U64, end: U64)

  method CompileSlices(ss: seq<Slice>) returns (rs: seq<Range>)
    ensures CompiledTo(ss, rs)
  {
    rs := [];
    for i := 0 to |ss|
      invariant |rs| == i && forall j :: 0 <= j < i ==> rs[j] == Range(ss[j].offset, End(ss[j]))
    {
      rs := rs + [Range(ss[i].offset, End(ss[i]))];
    }
  }

  /** Every slice starts where the ones before it have ended. */
  predicate Spaced(rs: seq<Range>) {
    forall i, j :: 0 <= j < i < |rs| ==> rs[j].end <= rs[i].start
  }

  /** No slice that runs backwards ends within the source. */
  predicate Sane(rs: seq<Range>, size: nat) {
    forall i :: 0 <= i < |rs| ==> rs[i].start <= rs[i].end || rs[i].end > size
  }

  /** Some slice that lies within the source holds position `p`. */
  predicate Covered(rs: seq<Range>, size: nat, p: nat) {
    exists i :: 0 <= i < |rs| && rs[i].start <= p < rs[i].end <= size
  }

  /** The covered bytes of the source from `lo` to `hi`, each once and in order. */
  function Kept(rs: seq<Range>, source: Bytes, lo: nat, hi: nat): (b: Bytes)
    requires lo <= hi <= |source|
    ensures |b| <= hi - lo
    decreases hi
  {
    if lo == hi then []
    else Kept(rs, source, lo, hi - 1) + if Covered(rs, |source|, hi - 1) then [source[hi - 1]] else []
  }

  lemma {:induction false} KeptAll(rs: seq<Range>, source: Bytes, lo: nat, mid: nat, hi: nat)
    requires lo <= mid <= hi <= |source| && forall p: nat :: mid <= p < hi ==> Covered(rs, |source|, p)
    ensures Kept(rs, source, lo, hi) == Kept(rs, source, lo, mid) + source[mid..hi]
    decreases hi
  {
    if mid < hi {
      KeptAll(rs, source, lo, mid, hi - 1);
      assert source[mid..hi] == source[mid..hi - 1] + [source[hi - 1]];
    }
  }

  lemma {:induction false} KeptNone(rs: seq<Range>, source: Bytes, lo: nat, mid: nat, hi: nat)
    requires lo <= mid <= hi <= |source| && forall p: nat :: mid <= p < hi ==> !Covered(rs, |source|, p)
    ensures Kept(rs, source, lo, hi) == Kept(rs, source, lo, mid)
    decreases hi
  {
    if mid < hi { KeptNone(rs, source, lo, mid, hi - 1); }
  }

  function Min(a: nat, b: nat): nat { if a < b then a else b }

  /** How far into the source the first `i` slices reach. */
  function Reach(rs: seq<Range>, size: nat, i: nat): nat
    requires i <= |rs|
  {
    if i == 0 then 0 else Min(size, rs[i - 1].end)
  }

  /** Past the slices before `i`, up to its start, nothing is covered. */
  lemma GapUncovered(rs: seq<Range>, size: nat, i: nat, p: nat)
    requires Spaced(rs) && Sane(rs, size) && i <= |rs| && Reach(rs, size, i) <= p < size
    requires i < |rs| ==> p < rs[i].start
    ensures !Covered(rs, size, p)
  {
    forall j | 0 <= j < |rs| ensures !(rs[j].start <= p < rs[j].end <= size) {
      if j < i - 1 { assert rs[j].end <= rs[i - 1].start; }
      if j > i { assert rs[i].end <= rs[j].start; }
    }
  }

  /** Nor is anything from the start of a slice that sticks out of the source. */
  lemma StickingOutUncovered(rs: seq<Range>, size: nat, i: nat, p: nat)
    requires Spaced(rs) && i < |rs| && rs[i].start <= p < size < rs[i].end
    ensures !Covered(rs, size, p)
  {
    forall j | 0 <= j < |rs| ensures !(rs[j].start <= p < rs[j].end <= size) {
      if j < i { assert rs[j].end <= rs[i].start; }
      if j > i { assert rs[i].end <= rs[j].start; }
    }
  }

  lemma ReachGrows(rs: seq<Range>, size: nat, i: nat)
    requires Spaced(rs) && Sane(rs, size) && i < |rs|
    ensures Reach(rs, size, i) <= Min(size, rs[i].start) <= Reach(rs, size, i + 1) <= size
  {
    if i > 0 { assert rs[i - 1].end <= rs[i].start; }
  }

  lemma NextSlice(rs: seq<Range>, source: Bytes, i: nat)
    requires Spaced(rs) && Sane(rs, |source|) && i < |rs|
    ensures Reach(rs, |source|, i) <= Reach(rs, |source|, i + 1) <= |source|
    ensures Kept(rs, source, 0, Reach(rs, |source|, i + 1))
         == Kept(rs, source, 0, Reach(rs, |source|, i))
            + if rs[i].end <= |source| then source[rs[i].start..rs[i].end] else []
  {
    var size := |source|;
    var from, start, to := Reach(rs, size, i), Min(size, rs[i].start), Reach(rs, size, i + 1);
    ReachGrows(rs, size, i);
    forall p: nat | from <= p < start ensures !Covered(rs, size, p) { GapUncovered(rs, size, i, p); }
    KeptNone(rs, source, 0, from, start);
    if rs[i].end <= size {
      KeptAll(rs, source, 0, start, to);
    } else {
      forall p: nat | start <= p < to ensures !Covered(rs, size, p) { StickingOutUncovered(rs, size, i, p); }
      KeptNone(rs, source, 0, start, to);
    }
  }

  lemma Tail(rs: seq<Range>, source: Bytes)
    requires Spaced(rs) && Sane(rs, |source|)
    ensures Reach(rs, |source|, |rs|) <= |source|
    ensures Kept(rs, source, 0, Reach(rs, |source|, |rs|)) == Kept(rs, source, 0, |source|)
  {
    var size := |source|;
    var from := Reach(rs, size, |rs|);
    forall p: nat | from <= p < size ensures !Covered(rs, size, p) { GapUncovered(rs, size, |rs|, p); }
    KeptNone(rs, source, 0, from, size);
  }

  /** The lengths of the first `n` ranges, as they are summed up. */
  function Capacity(rs: seq<Range>, n: nat): U64
    requires n <= |rs|
  {
    if n == 0 then 0 else Wrap(Capacity(rs, n - 1) + Wrap(TWO64 + rs[n - 1].end - rs[n - 1].start))
  }

  /** A slice runs backwards and ends within the source. */
  predicate BackwardsIn(rs: seq<Range>, size: nat) {
    exists i :: 0 <= i < |rs| && rs[i].end < rs[i].start && rs[i].end <= size
  }

  /** `None` is a panic: an allocation that is too large, or a slice taken backwards. */
  method GetSlice(rs: seq<Range>, source: Bytes) returns (data: Option<Bytes>)
    ensures rs == [] ==> data == Some(source)
    ensures data.None? <==> rs != [] && (Capacity(rs, |rs|) > ISIZE_MAX || BackwardsIn(rs, |source|))
    ensures rs != [] && Spaced(rs) && data.Some? ==> data.value == Kept(rs, source, 0, |source|)
  {
    if rs == [] { return Some(source); }
    var capacity := Capacity(rs, |rs|);
    if capacity > ISIZE_MAX { return None; }
    ghost var fine := Spaced(rs) && Sane(rs, |source|);
    var out: Bytes := [];
    for i := 0 to |rs|
      invariant fine ==> Reach(rs, |source|, i) <= |source| && out == Kept(rs, source, 0, Reach(rs, |source|, i))
      invariant forall j :: 0 <= j < i ==> !(rs[j].end < rs[j].start && rs[j].end <= |source|)
    {
      if fine { NextSlice(rs, source, i); }
      if |source| >= rs[i].end {
        if rs[i].start > rs[i].end { return None; }
        out := out + source[rs[i].start..rs[i].end];
      }
    }
    if fine { Tail(rs, source); }
    return Some(out);
  }

  // ---------------------------------------------------------------------------
  // Accepted slices
  // ---------------------------------------------------------------------------

  /** `rs` is what `ss` compiles to. */
  predicate CompiledTo(ss: seq<Slice>, rs: seq<Range>) {
    |rs| == |ss| && forall i :: 0 <= i < |ss| ==> rs[i] == Range(ss[i].offset, End(ss[i]))
  }

  function TotalLength(ss: seq<Slice>, n: nat): nat
    requires n <= |ss|
  {
    if n == 0 then 0 else TotalLength(ss, n - 1) + ss[n - 1].length
  }

  lemma EndIs(s: Slice)
    ensures End(s) == if s.offset + s.length < TWO64 then s.offset + s.length else s.offset + s.length - TWO64
    ensures Wrap(TWO64 + End(s) - s.offset) == s.length
  {
  }

  /** Compiled slices cover what is asked for: the slices that end within the source. */
  lemma CoveredMeans(ss: seq<Slice>, rs: seq<Range>, size: nat, p: nat)
    requires CompiledTo(ss, rs) && size < TWO64
    ensures Covered(rs, size, p) <==>
      exists i :: 0 <= i < |ss| && ss[i].offset <= p < ss[i].offset + ss[i].length <= size
  {
    forall i | 0 <= i < |ss|
      ensures rs[i].start <= p < rs[i].end <= size <==> ss[i].offset <= p < ss[i].offset + ss[i].length <= size
    {
      EndIs(ss[i]);
    }
  }

  /** The space asked for is the sum of the lengths, as far as 64 bits hold it. */
  lemma {:induction false} CapacityWraps(ss: seq<Slice>, rs: seq<Range>, n: nat)
    requires CompiledTo(ss, rs) && n <= |ss|
    ensures Capacity(rs, n) == Wrap(TotalLength(ss, n))
    decreases n
  {
    if n > 0 {
      CapacityWraps(ss, rs, n - 1);
      EndIs(ss[n - 1]);
      WrapSum(TotalLength(ss, n - 1), ss[n - 1].length);
    }
  }

  lemma WrapSum(a: nat, b: nat)
    ensures Wrap(Wrap(a) + b) == Wrap(a + b)
  {
  }

  /** No slice ends past the largest number. */
  predicate Bounded(ss: seq<Slice>) {
    forall i :: 0 <= i < |ss| ==> ss[i].offset + ss[i].length < TWO64
  }

  /** For accepted slices that do not wrap around that sum is exact. */
  lemma {:induction false} AcceptedCapacity(ss: seq<Slice>, n: nat)
    requires Apart(ss) && Bounded(ss) && n <= |ss|
    ensures TotalLength(ss, n) <= (if n == 0 then 0 else ss[n - 1].offset + ss[n - 1].length) < TWO64
    decreases n
  {
    if n > 0 {
      AcceptedCapacity(ss, n - 1);
      if n > 1 { EndIs(ss[n - 2]); }
    }
  }

  /** Compiled and applied, accepted slices cut out exactly what they cover, each
      byte once and in order.  The call panics exactly when the lengths sum up to
      more than can be allocated, or when a slice whose end wraps around seems to
      end within the source. */
  method SliceData(l: Limits, cs: seq<Named>, ss: seq<Slice>, source: Bytes)
      returns (rs: seq<Range>, data: Option<Bytes>)
    requires Accepted(l, cs, ss)
    ensures CompiledTo(ss, rs)
    ensures data.None? <==>
      && ss != []
      && (Wrap(TotalLength(ss, |ss|)) > 0x7FFF_FFFF_FFFF_FFFF
          || exists i :: 0 <= i < |ss| && WrapsInto(ss[i], |source|))
    ensures data.Some? ==> |data.value| <= |source|
    ensures data.Some? && ss != [] ==> data.value == Kept(rs, source, 0, |source|)
    ensures ss == [] ==> data == Some(source)
  {
    rs := CompileSlices(ss);
    CapacityWraps(ss, rs, |ss|);
    forall i | 0 <= i < |ss| ensures rs[i].end < rs[i].start && rs[i].end <= |source| <==> WrapsInto(ss[i], |source|) {
      EndIs(ss[i]);
    }
    data := GetSlice(rs, source);
  }

  /** The end of the slice wraps around to a position within the source. */
  predicate WrapsInto(s: Slice, size: nat) {
    s.offset + s.length >= TWO64 && s.offset + s.length - TWO64 <= size
  }

  /** Such a slice is accepted: this one makes every call panic. */
  lemma WrappedSliceAccepted()
    ensures var ss := [Slice(10, TWO64 - 5)];
      InOrder(ss) && Apart(ss) && Wrap(TotalLength(ss, 1)) > ISIZE_MAX && WrapsInto(ss[0], 5)
  {
    var ss := [Slice(10, TWO64 - 5)];
    assert TotalLength(ss, 0) == 0;
    assert TotalLength(ss, 1) == TWO64 - 5;
  }
}
