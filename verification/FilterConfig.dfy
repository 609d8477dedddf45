/** Account filters as a client sends them, and the limits they are held to. */
module FilterConfig {
  import opened Base

  const MAX_FILTERS: nat := 4
  const MAX_DATA_SIZE: nat := 128

  type U64 = x: int | 0 <= x < TWO64
  type Bytes = seq<Byte>

  /** Release builds wrap around silently. */
  function Wrap(x: nat): U64 { x % TWO64 }

  datatype Lamports = Eq(value: U64) | Ne(value: U64) | Lt(value: U64) | Gt(value: U64)

  datatype Filter =
    | Memcmp(offset: U64, data: Bytes)
    | DataSize(size: U64)
    | TokenAccountState
    | LamportsFilter(lamports: Lamports)

  datatype AccountFilter = AccountFilter(
    account: seq<Bytes>, owner: seq<Bytes>, filters: seq<Filter>, nonemptyTxnSignature: Option<bool>)

  /** A client's filters by name, in the order in which its table is walked. */
  datatype Named = Named(name: Bytes, filter: AccountFilter)

  datatype Slice = Slice(offset: U64, length: U64)

  datatype Limits = Limits(
    nameMax: nat, max: nat, any: bool, accountMax: nat, accountReject: set<Bytes>,
    ownerMax: nat, ownerReject: set<Bytes>, dataSliceMax: nat)

  datatype LimitError =
    | FilterNameOverflow(max: nat)
    | FiltersOverflow(max: nat)
    | EmptyNotAllowed
    | PubkeysOverflow(max: nat)
    | PubkeyNotAllowed(pubkey: Bytes)
    | TooMuchFilters(max: nat)
    | FilterDataOverflow
    | DatasizeDuplicated
    | DataSliceOutOfOrder
    | DataSliceOverlap

  // ---------------------------------------------------------------------------
  // What is allowed
  // ---------------------------------------------------------------------------

  predicate Avoids(keys: seq<Bytes>, reject: set<Bytes>) {
    forall i :: 0 <= i < |keys| ==> keys[i] !in reject
  }

  predicate DataFits(fs: seq<Filter>) {
    forall i :: 0 <= i < |fs| && fs[i].Memcmp? ==> |fs[i].data| <= MAX_DATA_SIZE
  }

  predicate OneSize(fs: seq<Filter>) {
    forall i, j :: 0 <= i < j < |fs| ==> !(fs[i].DataSize? && fs[j].DataSize?)
  }

  predicate Compilable(fs: seq<Filter>) {
    |fs| <= MAX_FILTERS && DataFits(fs) && OneSize(fs)
  }

  predicate FilterAllowed(l: Limits, f: AccountFilter) {
    && (f.account == [] && f.owner == [] ==> l.any)
    && |f.account| <= l.accountMax && |f.owner| <= l.ownerMax
    && Avoids(f.account, l.accountReject) && Avoids(f.owner, l.ownerReject)
    && Compilable(f.filters)
  }

  predicate NamesAllowed(l: Limits, cs: seq<Named>) {
    forall i :: 0 <= i < |cs| ==> |cs[i].name| <= l.nameMax
  }

  predicate FiltersAllowed(l: Limits, cs: seq<Named>) {
    forall i :: 0 <= i < |cs| ==> FilterAllowed(l, cs[i].filter)
  }

  /** The end of a slice as the code computes it. */
  function End(s: Slice): U64 { Wrap(s.offset + s.length) }

  predicate InOrder(ss: seq<Slice>) {
    forall i, j :: 0 <= i < j < |ss| ==> ss[i].offset <= ss[j].offset
  }

  predicate Apart(ss: seq<Slice>) {
    forall i, j :: 0 <= j < i < |ss| ==> End(ss[j]) <= ss[i].offset
  }

  predicate Accepted(l: Limits, cs: seq<Named>, ss: seq<Slice>) {
    && NamesAllowed(l, cs) && |cs| <= l.max && FiltersAllowed(l, cs)
    && |ss| <= l.dataSliceMax && InOrder(ss) && Apart(ss)
  }

  /** The rules, written out. */
  ghost predicate Permits(l: Limits, cs: seq<Named>, ss: seq<Slice>) {
    && |cs| <= l.max && |ss| <= l.dataSliceMax
    && (forall i :: 0 <= i < |cs| ==> |cs[i].name| <= l.nameMax && PermitsOne(l, cs[i].filter))
    && (forall i, j :: 0 <= i < j < |ss| ==>
          && ss[i].offset <= ss[j].offset
          && (ss[i].offset + ss[i].length) % 0x1_0000_0000_0000_0000 <= ss[j].offset)
  }

  ghost predicate PermitsOne(l: Limits, f: AccountFilter) {
    && (f.account != [] || f.owner != [] || l.any)
    && |f.account| <= l.accountMax && |f.owner| <= l.ownerMax
    && (forall k :: k in f.account ==> k !in l.accountReject) && (forall k :: k in f.owner ==> k !in l.ownerReject)
    && |f.filters| <= 4
    && (forall i :: 0 <= i < |f.filters| && f.filters[i].Memcmp? ==> |f.filters[i].data| <= 128)
    && (forall i, j :: 0 <= i < |f.filters| && 0 <= j < |f.filters| && f.filters[i].DataSize? && f.filters[j].DataSize?
          ==> i == j)
  }

  lemma PermitsOneMeans(l: Limits, f: AccountFilter)
    ensures FilterAllowed(l, f) <==> PermitsOne(l, f)
  {
    if OneSize(f.filters) {
      forall i, j | 0 <= i < |f.filters| && 0 <= j < |f.filters| && f.filters[i].DataSize? && f.filters[j].DataSize?
        ensures i == j
      {}
    }
  }

  lemma PermitsMeans(l: Limits, cs: seq<Named>, ss: seq<Slice>)
    ensures Accepted(l, cs, ss) <==> Permits(l, cs, ss)
  {
    forall i | 0 <= i < |cs| ensures FilterAllowed(l, cs[i].filter) <==> PermitsOne(l, cs[i].filter) {
      PermitsOneMeans(l, cs[i].filter);
    }
  }

  /** What a refusal tells the client is true of one of its filters. */
  predicate BlamesFilter(e: LimitError, l: Limits, f: AccountFilter) {
    match e
    case EmptyNotAllowed => f.account == [] && f.owner == [] && !l.any
    case PubkeysOverflow(max) => (|f.account| > max && max == l.accountMax) || (|f.owner| > max && max == l.ownerMax)
    case PubkeyNotAllowed(key) =>
      (key in f.account && key in l.accountReject) || (key in f.owner && key in l.ownerReject)
    case TooMuchFilters(max) => |f.filters| > max == MAX_FILTERS
    case FilterDataOverflow => !DataFits(f.filters)
    case DatasizeDuplicated => !OneSize(f.filters)
    case _ => false
  }

  predicate Blames(e: LimitError, l: Limits, cs: seq<Named>, ss: seq<Slice>) {
    match e
    case FilterNameOverflow(max) => max == l.nameMax && !NamesAllowed(l, cs)
    case FiltersOverflow(max) => (|cs| > max && max == l.max) || (|ss| > max && max == l.dataSliceMax)
    case DataSliceOutOfOrder => !InOrder(ss)
    case DataSliceOverlap => !Apart(ss)
    case _ => exists i :: 0 <= i < |cs| && BlamesFilter(e, l, cs[i].filter)
  }

  // ---------------------------------------------------------------------------
  // The checks
  // ---------------------------------------------------------------------------

  method CheckReject(keys: seq<Bytes>, reject: set<Bytes>) returns (e: Option<LimitError>)
    ensures e.None? <==> Avoids(keys, reject)
    ensures e.Some? ==> e.value.PubkeyNotAllowed? && e.value.pubkey in keys && e.value.pubkey in reject
  {
    for i := 0 to |keys|
      invariant Avoids(keys[..i], reject)
    {
      if keys[i] in reject { return Some(PubkeyNotAllowed(keys[i])); }
    }
    return None;
  }

  /** At most one data size, and no data that would not fit. */
  method CheckParts(fs: seq<Filter>) returns (e: Option<LimitError>)
    ensures e.None? <==> DataFits(fs) && OneSize(fs)
    ensures e == Some(FilterDataOverflow) ==> !DataFits(fs)
    ensures e == Some(DatasizeDuplicated) ==> !OneSize(fs)
    ensures e.Some? ==> e.value.FilterDataOverflow? || e.value.DatasizeDuplicated?
  {
    var datasizeDefined := false;
    for i := 0 to |fs|
      invariant DataFits(fs[..i]) && OneSize(fs[..i])
      invariant datasizeDefined <==> exists j :: 0 <= j < i && fs[j].DataSize?
    {
      match fs[i]
      case Memcmp(_, data) =>
        if |data| > MAX_DATA_SIZE { return Some(FilterDataOverflow); }
      case DataSize(_) =>
        if datasizeDefined { return Some(DatasizeDuplicated); }
        datasizeDefined := true;
      case TokenAccountState =>
      case LamportsFilter(_) =>
    }
    assert fs[..|fs|] == fs;
    return None;
  }

  method CheckOne(l: Limits, f: AccountFilter) returns (e: Option<LimitError>)
    ensures e.None? <==> FilterAllowed(l, f)
    ensures e.Some? ==> BlamesFilter(e.value, l, f)
  {
    if f.account == [] && f.owner == [] && !l.any { return Some(EmptyNotAllowed); }
    if |f.account| > l.accountMax { return Some(PubkeysOverflow(l.accountMax)); }
    if |f.owner| > l.ownerMax { return Some(PubkeysOverflow(l.ownerMax)); }
    e := CheckReject(f.account, l.accountReject);
    if e.Some? { return; }
    e := CheckReject(f.owner, l.ownerReject);
    if e.Some? { return; }
    if |f.filters| > MAX_FILTERS { return Some(TooMuchFilters(MAX_FILTERS)); }
    e := CheckParts(f.filters);
  }

  method CheckSlices(ss: seq<Slice>) returns (e: Option<LimitError>)
    ensures e.None? <==> InOrder(ss) && Apart(ss)
    ensures e.Some? ==> (e.value.DataSliceOutOfOrder? && !InOrder(ss)) || (e.value.DataSliceOverlap? && !Apart(ss))
  {
    for i := 0 to |ss|
      invariant forall a, b :: 0 <= a < i && a < b < |ss| ==> ss[a].offset <= ss[b].offset
      invariant Apart(ss[..i])
    {
      for j := i + 1 to |ss|
        invariant forall b :: i < b < j ==> ss[i].offset <= ss[b].offset
      {
        if ss[i].offset > ss[j].offset { return Some(DataSliceOutOfOrder); }
      }
      for j := 0 to i
        invariant forall b :: 0 <= b < j ==> End(ss[b]) <= ss[i].offset
      {
        if ss[i].offset < End(ss[j]) { return Some(DataSliceOverlap); }
      }
    }
    assert ss[..|ss|] == ss;
    return None;
  }

  /** Accepts exactly what is allowed, and names a rule that is really broken. */
  method CheckFilter(l: Limits, cs: seq<Named>, ss: seq<Slice>) returns (e: Option<LimitError>)
    ensures e.None? <==> Permits(l, cs, ss)
    ensures e.None? <==> Accepted(l, cs, ss)
    ensures e.Some? ==> Blames(e.value, l, cs, ss)
  {
    PermitsMeans(l, cs, ss);
    for i := 0 to |cs|
      invariant NamesAllowed(l, cs[..i])
    {
      if |cs[i].name| > l.nameMax { return Some(FilterNameOverflow(l.nameMax)); }
    }
    if |cs| > l.max { return Some(FiltersOverflow(l.max)); }
    for i := 0 to |cs|
      invariant FiltersAllowed(l, cs[..i])
    {
      e := CheckOne(l, cs[i].filter);
      if e.Some? { return; }
    }
    if |ss| > l.dataSliceMax { return Some(FiltersOverflow(l.dataSliceMax)); }
    e := CheckSlices(ss);
  }
}
