/** The status meta, the transaction update and the update envelope around
    every message. */
module EncodingUpdate {
  import opened Base
  import opened Wire
  import opened Encoding
  import opened EncodingTransaction

  // ---------------------------------------------------------------------------
  // The status meta
  // ---------------------------------------------------------------------------

  /** `error` is the serialisation of the transaction error, if there was one. */
  datatype Meta = Meta(
    error: Option<Bytes>, fee: nat, preBalances: seq<nat>, postBalances: seq<nat>,
    inner: Option<seq<InnerInstructions>>, logs: Option<seq<Bytes>>,
    preTokens: Option<seq<TokenBalance>>, postTokens: Option<seq<TokenBalance>>, rewards: Option<seq<Reward>>,
    writable: seq<Pubkey>, readonly: seq<Pubkey>, returnData: Option<ReturnData>, computeUnits: Option<nat>)

  function Listed<T>(xs: Option<seq<T>>): seq<T> {
    if xs.Some? then xs.value else []
  }

  function NormalBalances(ts: seq<TokenBalance>): (ns: seq<TokenBalance>)
    ensures |ns| == |ts| && forall i :: 0 <= i < |ts| ==> ns[i] == NormalBalance(ts[i])
  {
    seq(|ts|, i requires 0 <= i < |ts| => NormalBalance(ts[i]))
  }

  /** What the wire can tell apart: an absent list of token balances or rewards is
      an empty one, while absent inner instructions, logs and return data are kept
      by flags of their own. */
  function NormalMeta(m: Meta): Meta {
    m.(preTokens := Some(NormalBalances(Listed(m.preTokens))),
       postTokens := Some(NormalBalances(Listed(m.postTokens))),
       rewards := Some(Listed(m.rewards)))
  }

  /** The bytes of nested messages. */
  datatype Nested = Nested(error: Option<Bytes>, inner: seq<Bytes>, pre: seq<Bytes>, post: seq<Bytes>,
      rewards: seq<Bytes>, ret: Option<Bytes>)

  function NestedOf(m: Meta): Nested {
    Nested(if m.error.Some? then Some(ErrorBytes(m.error.value)) else None,
           Each(Listed(m.inner), InnerBytes), Each(Listed(m.preTokens), BalanceBytes),
           Each(Listed(m.postTokens), BalanceBytes), Each(Listed(m.rewards), RewardBytes),
           if m.returnData.Some? then Some(ReturnBytes(m.returnData.value)) else None)
  }

  function MetaFirst(m: Meta, x: Nested): Groups {
    [OptRec(1, x.error), Num(2, m.fee), Packed(3, m.preBalances), Packed(4, m.postBalances),
     Repeat(5, x.inner), Repeat(6, Listed(m.logs)), Repeat(7, x.pre), Repeat(8, x.post)]
  }

  function MetaRest(m: Meta, x: Nested): Groups {
    [Repeat(9, x.rewards), Flag(10, m.inner.None?), Flag(11, m.logs.None?), Repeat(12, m.writable),
     Repeat(13, m.readonly), OptRec(14, x.ret), Flag(15, m.returnData.None?), OptNum(16, m.computeUnits)]
  }

  function MetaParts(m: Meta, x: Nested): Groups { MetaFirst(m, x) + MetaRest(m, x) }

  function MetaBytes(m: Meta): Bytes { WriteGroups(MetaParts(m, NestedOf(m))) }

  function BytesLen(b: Bytes): nat { |b| }

  function MetaFirstLen(m: Meta): nat {
    (if m.error.Some? then RecordLen(1, ErrorLen(m.error.value)) else 0) + MetaSecondLen(m)
  }

  function MetaSecondLen(m: Meta): nat {
    (if m.fee != 0 then NumberLen(2, m.fee) else 0)
    + PackedLen(3, m.preBalances)
    + PackedLen(4, m.postBalances)
    + (if m.inner.Some? then SumLens(5, Each(m.inner.value, InnerLen)) else 0)
    + (if m.logs.Some? then SumLens(6, Each(m.logs.value, BytesLen)) else 0)
    + (if m.preTokens.Some? then SumLens(7, Each(m.preTokens.value, BalanceLen)) else 0)
    + (if m.postTokens.Some? then SumLens(8, Each(m.postTokens.value, BalanceLen)) else 0)
  }

  function MetaRestLen(m: Meta): nat {
    (if m.rewards.Some? then SumLens(9, Each(m.rewards.value, RewardLen)) else 0)
    + (if m.inner.None? then KeyLen(10) + 1 else 0)
    + (if m.logs.None? then KeyLen(11) + 1 else 0)
    + FixedItemsLen(12, 32, |m.writable|)
    + FixedItemsLen(13, 32, |m.readonly|)
    + (if m.returnData.Some? then RecordLen(14, ReturnLen(m.returnData.value)) else 0)
    + (if m.returnData.None? then KeyLen(15) + 1 else 0)
    + (if m.computeUnits.Some? then NumberLen(16, m.computeUnits.value) else 0)
  }

  function MetaLen(m: Meta): nat { MetaFirstLen(m) + MetaRestLen(m) }

  /** What reading the nested messages gave. */
  datatype Found = Found(
    error: Option<Option<Bytes>>, pre: Option<seq<nat>>, post: Option<seq<nat>>, inner: Option<seq<InnerInstructions>>,
    preTokens: Option<seq<TokenBalance>>, postTokens: Option<seq<TokenBalance>>, rewards: Option<seq<Reward>>,
    writable: Option<seq<Pubkey>>, readonly: Option<seq<Pubkey>>, ret: Option<Option<ReturnData>>)

  function ReadOptError(b: Option<Bytes>): Option<Option<Bytes>> {
    match b
    case None => Some(None)
    case Some(b) => match ReadError(b) case None => None case Some(e) => Some(Some(e))
  }

  function ReadOptReturn(b: Option<Bytes>): Option<Option<ReturnData>> {
    match b
    case None => Some(None)
    case Some(b) => match ReadReturn(b) case None => None case Some(e) => Some(Some(e))
  }

  function FindNested(g: Groups): Found
    requires |g| == 16
  {
    Found(ReadOptError(LastRec(g[0])), Unpack(RecOrEmpty(g[2])), Unpack(RecOrEmpty(g[3])),
          ReadEach(Payloads(g[4]), ReadInner), ReadEach(Payloads(g[6]), ReadBalance),
          ReadEach(Payloads(g[7]), ReadBalance), ReadEach(Payloads(g[8]), ReadReward),
          AsKeys(Payloads(g[11])), AsKeys(Payloads(g[12])), ReadOptReturn(LastRec(g[13])))
  }

  function MetaFrom(g: Groups, f: Found): Option<Meta>
    requires |g| == 16
  {
    if f.error.None? || f.pre.None? || f.post.None? || f.inner.None? || f.preTokens.None? || f.postTokens.None?
       || f.rewards.None? || f.writable.None? || f.readonly.None? || f.ret.None? then None
    else
      Some(Meta(f.error.value, NumOr0(g[1]), f.pre.value, f.post.value,
                if NumOr0(g[9]) != 0 then None else f.inner,
                if NumOr0(g[10]) != 0 then None else Some(Payloads(g[5])),
                f.preTokens, f.postTokens, f.rewards, f.writable.value, f.readonly.value,
                if NumOr0(g[14]) != 0 then None else f.ret.value, LastNum(g[15])))
  }

  function ReadMeta(b: Bytes): Option<Meta> {
    match ReadGroups(b, 16)
    case None => None
    case Some(g) => MetaFrom(g, FindNested(g))
  }

  /** The groups of `x` are those of the nested messages of `m`, with the lengths `MetaLen` uses. */
  ghost predicate SizedFirst(m: Meta, x: Nested) {
    && x.error.Some? == m.error.Some? && (m.error.Some? ==> |x.error.value| == ErrorLen(m.error.value))
    && Group(Repeat(5, x.inner), 5, ListedLen(5, m.inner, InnerLen))
    && Group(Repeat(6, Listed(m.logs)), 6, ListedLen(6, m.logs, BytesLen))
    && Group(Repeat(7, x.pre), 7, ListedLen(7, m.preTokens, BalanceLen))
    && Group(Repeat(8, x.post), 8, ListedLen(8, m.postTokens, BalanceLen))
  }

  ghost predicate SizedRest(m: Meta, x: Nested) {
    && Group(Repeat(9, x.rewards), 9, ListedLen(9, m.rewards, RewardLen))
    && Group(Repeat(12, m.writable), 12, FixedItemsLen(12, 32, |m.writable|))
    && Group(Repeat(13, m.readonly), 13, FixedItemsLen(13, 32, |m.readonly|))
    && x.ret.Some? == m.returnData.Some? && (m.returnData.Some? ==> |x.ret.value| == ReturnLen(m.returnData.value))
  }

  function ListedLen<T>(tag: nat, xs: Option<seq<T>>, len: T -> nat): (l: nat)
    ensures l == if xs.Some? then SumLens(tag, Each(xs.value, len)) else 0
  {
    SumLens(tag, Each(Listed(xs), len))
  }

  lemma MetaFirstTagged(m: Meta, x: Nested)
    requires SizedFirst(m, x)
    ensures TaggedFrom(MetaFirst(m, x), 0)
  {
    EightTagged(OptRec(1, x.error), Num(2, m.fee), Packed(3, m.preBalances), Packed(4, m.postBalances),
                Repeat(5, x.inner), Repeat(6, Listed(m.logs)), Repeat(7, x.pre), Repeat(8, x.post), 0);
  }

  lemma MetaFirstLens(m: Meta, x: Nested)
    requires SizedFirst(m, x)
    ensures Len4(MetaFirst(m, x), 0) + Len4(MetaFirst(m, x), 4) == MetaFirstLen(m)
  {
    EightLen(OptRec(1, x.error), Num(2, m.fee), Packed(3, m.preBalances), Packed(4, m.postBalances),
             Repeat(5, x.inner), Repeat(6, Listed(m.logs)), Repeat(7, x.pre), Repeat(8, x.post));
  }

  lemma MetaRestTagged(m: Meta, x: Nested)
    requires SizedRest(m, x)
    ensures TaggedFrom(MetaRest(m, x), 8)
  {
    EightTagged(Repeat(9, x.rewards), Flag(10, m.inner.None?), Flag(11, m.logs.None?), Repeat(12, m.writable),
                Repeat(13, m.readonly), OptRec(14, x.ret), Flag(15, m.returnData.None?), OptNum(16, m.computeUnits), 8);
  }

  lemma MetaRestLens(m: Meta, x: Nested)
    requires SizedRest(m, x)
    ensures Len4(MetaRest(m, x), 0) + Len4(MetaRest(m, x), 4) == MetaRestLen(m)
  {
    EightLen(Repeat(9, x.rewards), Flag(10, m.inner.None?), Flag(11, m.logs.None?), Repeat(12, m.writable),
             Repeat(13, m.readonly), OptRec(14, x.ret), Flag(15, m.returnData.None?), OptNum(16, m.computeUnits));
  }

  lemma MetaPartsOk(m: Meta, x: Nested)
    requires SizedFirst(m, x) && SizedRest(m, x)
    ensures WellTagged(MetaParts(m, x)) && |WriteGroups(MetaParts(m, x))| == MetaLen(m)
  {
    MetaFirstTagged(m, x);
    MetaFirstLens(m, x);
    MetaRestTagged(m, x);
    MetaRestLens(m, x);
    Halves(MetaFirst(m, x), MetaRest(m, x));
  }

  /** What the nested messages are to read back as. */
  function Expected(m: Meta): Found {
    Found(Some(m.error), Some(m.preBalances), Some(m.postBalances), Some(Listed(m.inner)),
          Some(NormalBalances(Listed(m.preTokens))), Some(NormalBalances(Listed(m.postTokens))),
          Some(Listed(m.rewards)),
          Some(m.writable), Some(m.readonly), Some(m.returnData))
  }

  lemma MetaPartsFrom(m: Meta, x: Nested)
    ensures MetaFrom(MetaParts(m, x), Expected(m)) == Some(NormalMeta(m))
  {
    RepeatRoundTrip(6, Listed(m.logs));
  }

  /** The bytes of `x` read back as the nested messages of `m`. */
  ghost predicate Readable(m: Meta, x: Nested) {
    && ReadOptError(x.error) == Some(m.error)
    && ReadEach(Payloads(Repeat(5, x.inner)), ReadInner) == Some(Listed(m.inner))
    && ReadEach(Payloads(Repeat(7, x.pre)), ReadBalance) == Some(NormalBalances(Listed(m.preTokens)))
    && ReadEach(Payloads(Repeat(8, x.post)), ReadBalance) == Some(NormalBalances(Listed(m.postTokens)))
    && ReadEach(Payloads(Repeat(9, x.rewards)), ReadReward) == Some(Listed(m.rewards))
    && ReadOptReturn(x.ret) == Some(m.returnData)
  }

  lemma FindNestedIs(m: Meta, x: Nested)
    requires Readable(m, x)
    ensures FindNested(MetaParts(m, x)) == Expected(m)
  {
    KeysOk(12, m.writable);
    KeysOk(13, m.readonly);
  }

  lemma InnersOk(tag: nat, xs: seq<InnerInstructions>)
    ensures var c := Repeat(tag, Each(xs, InnerBytes));
      Group(c, tag, SumLens(tag, Each(xs, InnerLen))) && ReadEach(Payloads(c), ReadInner) == Some(xs)
  {
    forall i | 0 <= i < |xs| { InnerOk(xs[i]); }
    RepeatedField(tag, xs, xs, InnerBytes, InnerLen, ReadInner);
  }

  lemma BalancesOk(tag: nat, xs: seq<TokenBalance>)
    ensures var c := Repeat(tag, Each(xs, BalanceBytes));
      Group(c, tag, SumLens(tag, Each(xs, BalanceLen)))
          && ReadEach(Payloads(c), ReadBalance) == Some(NormalBalances(xs))
  {
    forall i | 0 <= i < |xs| { BalanceOk(xs[i]); }
    RepeatedField(tag, xs, NormalBalances(xs), BalanceBytes, BalanceLen, ReadBalance);
  }

  lemma RewardListOk(tag: nat, xs: seq<Reward>)
    ensures var c := Repeat(tag, Each(xs, RewardBytes));
      Group(c, tag, SumLens(tag, Each(xs, RewardLen))) && ReadEach(Payloads(c), ReadReward) == Some(xs)
  {
    forall i | 0 <= i < |xs| { RewardOk(xs[i]); }
    RepeatedField(tag, xs, xs, RewardBytes, RewardLen, ReadReward);
  }

  lemma NestedSized(m: Meta)
    ensures SizedFirst(m, NestedOf(m)) && SizedRest(m, NestedOf(m))
  {
    if m.error.Some? { ErrorOk(m.error.value); }
    if m.returnData.Some? { ReturnOk(m.returnData.value); }
    InnersOk(5, Listed(m.inner));
    RepeatLen(6, Listed(m.logs), Each(Listed(m.logs), BytesLen));
    BalancesOk(7, Listed(m.preTokens));
    BalancesOk(8, Listed(m.postTokens));
    RewardListOk(9, Listed(m.rewards));
    KeysOk(12, m.writable);
    KeysOk(13, m.readonly);
  }

  lemma NestedReadable(m: Meta)
    ensures Readable(m, NestedOf(m))
  {
    if m.error.Some? { ErrorOk(m.error.value); }
    if m.returnData.Some? { ReturnOk(m.returnData.value); }
    InnersOk(5, Listed(m.inner));
    BalancesOk(7, Listed(m.preTokens));
    BalancesOk(8, Listed(m.postTokens));
    RewardListOk(9, Listed(m.rewards));
  }

  lemma MetaOk(m: Meta)
    ensures |MetaBytes(m)| == MetaLen(m) && ReadMeta(MetaBytes(m)) == Some(NormalMeta(m))
  {
    var x := NestedOf(m);
    NestedSized(m);
    MetaPartsOk(m, x);
    NestedReadable(m);
    FindNestedIs(m, x);
    MetaPartsFrom(m, x);
    GroupsRoundTrip(MetaParts(m, x));
  }

  // ---------------------------------------------------------------------------
  // The transaction update
  // ---------------------------------------------------------------------------

  datatype TxInfo = TxInfo(signature: Bytes, isVote: bool, transaction: Sanitized, meta: Meta, index: nat)

  function TxInfoParts(t: TxInfo, transaction: Bytes, meta: Bytes): Groups {
    [Rec(1, t.signature), Flag(2, t.isVote), Rec(3, transaction), Rec(4, meta), Num(5, t.index)]
  }

  function TxInfoBytes(t: TxInfo): Bytes {
    WriteGroups(TxInfoParts(t, SanitizedBytes(t.transaction), MetaBytes(t.meta)))
  }

  function TxInfoLen(t: TxInfo): nat {
    RecordLen(1, |t.signature|)
    + (if t.isVote then KeyLen(2) + 1 else 0)
    + RecordLen(3, SanitizedLen(t.transaction))
    + RecordLen(4, MetaLen(t.meta))
    + (if t.index != 0 then NumberLen(5, t.index) else 0)
  }

  function TxInfoFrom(g: Groups, transaction: Option<Sanitized>, meta: Option<Meta>): Option<TxInfo>
    requires |g| == 5
  {
    if transaction.None? || meta.None? then None
    else Some(TxInfo(RecOrEmpty(g[0]), NumOr0(g[1]) != 0, transaction.value, meta.value, NumOr0(g[4])))
  }

  function ReadTxInfo(b: Bytes): Option<TxInfo> {
    match ReadGroups(b, 5)
    case None => None
    case Some(g) => TxInfoFrom(g, ReadSanitized(RecOrEmpty(g[2])), ReadMeta(RecOrEmpty(g[3])))
  }

  lemma TxInfoPartsOk(t: TxInfo, transaction: Bytes, meta: Bytes)
    requires |transaction| == SanitizedLen(t.transaction) && |meta| == MetaLen(t.meta)
    ensures var gs := TxInfoParts(t, transaction, meta);
      WellTagged(gs) && |WriteGroups(gs)| == TxInfoLen(t)
  {
    GroupsLen(TxInfoParts(t, transaction, meta));
  }

  lemma TxInfoFromOk(t: TxInfo, transaction: Bytes, meta: Bytes)
    ensures var gs := TxInfoParts(t, transaction, meta);
      && RecOrEmpty(gs[2]) == transaction && RecOrEmpty(gs[3]) == meta
      && TxInfoFrom(gs, Some(t.transaction), Some(NormalMeta(t.meta))) == Some(t.(meta := NormalMeta(t.meta)))
  {
  }

  lemma TxInfoOk(t: TxInfo)
    ensures |TxInfoBytes(t)| == TxInfoLen(t) && ReadTxInfo(TxInfoBytes(t)) == Some(t.(meta := NormalMeta(t.meta)))
  {
    var transaction, meta := SanitizedBytes(t.transaction), MetaBytes(t.meta);
    SanitizedOk(t.transaction);
    MetaOk(t.meta);
    TxInfoPartsOk(t, transaction, meta);
    TxInfoFromOk(t, transaction, meta);
    GroupsRoundTrip(TxInfoParts(t, transaction, meta));
  }

  datatype TxUpdate = TxUpdate(info: TxInfo, slot: nat)

  function NormalTx(t: TxUpdate): TxUpdate {
    t.(info := t.info.(meta := NormalMeta(t.info.meta)))
  }

  function TxUpdateParts(info: Bytes, slot: nat): Groups { [Rec(1, info), Num(2, slot)] }

  function TxUpdateBytes(t: TxUpdate): Bytes { WriteGroups(TxUpdateParts(TxInfoBytes(t.info), t.slot)) }

  function TxUpdateLen(t: TxUpdate): nat {
    RecordLen(1, TxInfoLen(t.info)) + if t.slot != 0 then NumberLen(2, t.slot) else 0
  }

  function ReadTxUpdate(b: Bytes): Option<TxUpdate> {
    match ReadGroups(b, 2)
    case None => None
    case Some(g) => TxUpdateFrom(NumOr0(g[1]), ReadTxInfo(RecOrEmpty(g[0])))
  }

  function TxUpdateFrom(slot: nat, info: Option<TxInfo>): Option<TxUpdate> {
    if info.None? then None else Some(TxUpdate(info.value, slot))
  }

  lemma TxUpdatePartsOk(t: TxUpdate, info: Bytes)
    requires |info| == TxInfoLen(t.info)
    ensures var gs := TxUpdateParts(info, t.slot);
      WellTagged(gs) && |WriteGroups(gs)| == TxUpdateLen(t) && RecOrEmpty(gs[0]) == info && NumOr0(gs[1]) == t.slot
  {
    GroupsLen(TxUpdateParts(info, t.slot));
  }

  lemma TxUpdateOk(t: TxUpdate)
    ensures |TxUpdateBytes(t)| == TxUpdateLen(t) && ReadTxUpdate(TxUpdateBytes(t)) == Some(NormalTx(t))
  {
    var info := TxInfoBytes(t.info);
    TxInfoOk(t.info);
    TxUpdatePartsOk(t, info);
    GroupsRoundTrip(TxUpdateParts(info, t.slot));
  }

  // ---------------------------------------------------------------------------
  // The update envelope
  // ---------------------------------------------------------------------------

  datatype Timestamp = Timestamp(seconds: I64, nanos: I64)

  function TimestampGroups(seconds: nat, nanos: nat): Groups { [Num(1, seconds), Num(2, nanos)] }

  function TimestampBytes(t: Timestamp): Bytes { WriteGroups(TimestampGroups(AsU64(t.seconds), AsU64(t.nanos))) }

  function TimestampLen(t: Timestamp): nat {
    (if t.seconds != 0 then NumberLen(1, AsU64(t.seconds)) else 0)
    + (if t.nanos != 0 then NumberLen(2, AsU64(t.nanos)) else 0)
  }

  function ReadTimestamp(b: Bytes): Option<Timestamp> {
    match ReadGroups(b, 2)
    case None => None
    case Some(g) => Some(TimestampFrom(NumOr0(g[0]), NumOr0(g[1])))
  }

  function TimestampFrom(seconds: nat, nanos: nat): Timestamp { Timestamp(AsI64(seconds), AsI64(nanos)) }

  lemma TimestampGroupsOk(seconds: nat, nanos: nat)
    ensures var gs := TimestampGroups(seconds, nanos);
      && |WriteGroups(gs)|
          == (if seconds != 0 then NumberLen(1, seconds) else 0) + (if nanos != 0 then NumberLen(2, nanos) else 0)
      && ReadGroups(WriteGroups(gs), 2) == Some(gs)
  {
    var gs := TimestampGroups(seconds, nanos);
    GroupsLen(gs);
    GroupsRoundTrip(gs);
  }

  lemma TimestampOk(t: Timestamp)
    ensures |TimestampBytes(t)| == TimestampLen(t) && ReadTimestamp(TimestampBytes(t)) == Some(t)
  {
    TimestampGroupsOk(AsU64(t.seconds), AsU64(t.nanos));
    assert TimestampFrom(AsU64(t.seconds), AsU64(t.nanos)) == t;
  }

  datatype Message =
    | AccountMessage(account: Account)
    | SlotMessage(slot: SlotUpdate)
    | TransactionMessage(transaction: TxUpdate)
    | BlockMetaMessage(meta: BlockMeta)
    | EntryMessage(entry: EntryInfo)

  function SlotOf(m: Message): nat {
    match m
    case AccountMessage(a) => a.slot
    case SlotMessage(s) => s.slot
    case TransactionMessage(t) => t.slot
    case BlockMetaMessage(b) => b.slot
    case EntryMessage(e) => e.slot
  }

  /** Only transactions hold anything the wire cannot tell apart. */
  function NormalMessage(m: Message): Message {
    if m.TransactionMessage? then TransactionMessage(NormalTx(m.transaction)) else m
  }

  function TagOf(m: Message): nat {
    match m
    case AccountMessage(_) => 2
    case SlotMessage(_) => 3
    case TransactionMessage(_) => 4
    case BlockMetaMessage(_) => 7
    case EntryMessage(_) => 8
  }

  function BodyBytes(m: Message): Bytes {
    match m
    case AccountMessage(a) => AccountBytes(a)
    case SlotMessage(s) => SlotBytes(s)
    case TransactionMessage(t) => TxUpdateBytes(t)
    case BlockMetaMessage(b) => BlockMetaBytes(b)
    case EntryMessage(e) => EntryBytes(e)
  }

  function BodyLen(m: Message): nat {
    match m
    case AccountMessage(a) => AccountLen(a)
    case SlotMessage(s) => SlotLen(s)
    case TransactionMessage(t) => TxUpdateLen(t)
    case BlockMetaMessage(b) => BlockMetaLen(b)
    case EntryMessage(e) => EntryLen(e)
  }

  function AsAccount(x: Option<Account>): Option<Message> { if x.None? then None else Some(AccountMessage(x.value)) }
  function AsSlot(x: Option<SlotUpdate>): Option<Message> { if x.None? then None else Some(SlotMessage(x.value)) }
  function AsTransaction(x: Option<TxUpdate>): Option<Message> {
    if x.None? then None else Some(TransactionMessage(x.value))
  }
  function AsBlockMeta(x: Option<BlockMeta>): Option<Message> {
    if x.None? then None else Some(BlockMetaMessage(x.value))
  }
  function AsEntry(x: Option<EntryInfo>): Option<Message> { if x.None? then None else Some(EntryMessage(x.value)) }

  /** A reader for each kind of body. */
  datatype Readers = Readers(
    account: Bytes -> Option<Account>, slot: Bytes -> Option<SlotUpdate>, transaction: Bytes -> Option<TxUpdate>,
    blockMeta: Bytes -> Option<BlockMeta>, entry: Bytes -> Option<EntryInfo>)

  function TheReaders(): Readers { Readers(ReadAccount, ReadSlot, ReadTxUpdate, ReadBlockMeta, ReadEntry) }

  function ReadBody(rs: Readers, tag: nat, b: Bytes): Option<Message> {
    match tag
    case 2 => AsAccount(rs.account(b))
    case 3 => AsSlot(rs.slot(b))
    case 4 => AsTransaction(rs.transaction(b))
    case 7 => AsBlockMeta(rs.blockMeta(b))
    case 8 => AsEntry(rs.entry(b))
    case _ => None
  }

  predicate ReadsAs(rs: Readers, b: Bytes, m: Message) {
    match m
    case AccountMessage(a) => rs.account(b) == Some(a)
    case SlotMessage(s) => rs.slot(b) == Some(s)
    case TransactionMessage(t) => rs.transaction(b) == Some(t)
    case BlockMetaMessage(m) => rs.blockMeta(b) == Some(m)
    case EntryMessage(e) => rs.entry(b) == Some(e)
  }

  lemma ReadBodyAs(rs: Readers, b: Bytes, m: Message)
    requires ReadsAs(rs, b, m)
    ensures ReadBody(rs, TagOf(m), b) == Some(m)
  {
  }

  lemma BodyLenOk(m: Message)
    ensures |BodyBytes(m)| == BodyLen(m)
  {
    match m
    case AccountMessage(a) => AccountOk(a);
    case SlotMessage(s) => SlotOk(s);
    case TransactionMessage(t) => TxUpdateOk(t);
    case BlockMetaMessage(b) => BlockMetaOk(b);
    case EntryMessage(e) => EntryOk(e);
  }

  lemma BodyReadsAs(m: Message)
    ensures ReadsAs(TheReaders(), BodyBytes(m), NormalMessage(m))
  {
    match m
    case AccountMessage(a) => AccountOk(a);
    case SlotMessage(s) => SlotOk(s);
    case TransactionMessage(t) => TxUpdateOk(t);
    case BlockMetaMessage(b) => BlockMetaOk(b);
    case EntryMessage(e) => EntryOk(e);
  }

  function EnvelopeBytes(tag: nat, body: Bytes, time: Bytes): Bytes {
    WriteAll([Record(tag, body), Record(11, time)])
  }

  function UpdateBytes(m: Message, createdAt: Timestamp): Bytes {
    EnvelopeBytes(TagOf(m), BodyBytes(m), TimestampBytes(createdAt))
  }

  /** The size with which the output vector is allocated. */
  function UpdateLen(m: Message, createdAt: Timestamp): nat {
    RecordLen(TagOf(m), BodyLen(m)) + RecordLen(11, TimestampLen(createdAt))
  }

  /** The tag of the one alternative that is present. */
  function Alternative(g: Groups): nat
    requires |g| == 11
  {
    if g[1] != [] then 2 else if g[2] != [] then 3 else if g[3] != [] then 4
    else if g[6] != [] then 7 else if g[7] != [] then 8 else 1
  }

  function UpdateFrom(m: Option<Message>, t: Option<Timestamp>): Option<(Message, Timestamp)> {
    if m.Some? && t.Some? then Some((m.value, t.value)) else None
  }

  function ReadUpdateWith(rs: Readers, b: Bytes): Option<(Message, Timestamp)> {
    match ReadGroups(b, 11)
    case None => None
    case Some(g) =>
      var tag := Alternative(g);
      UpdateFrom(ReadBody(rs, tag, RecOrEmpty(g[tag - 1])), ReadTimestamp(RecOrEmpty(g[10])))
  }

  function ReadUpdate(b: Bytes): Option<(Message, Timestamp)> { ReadUpdateWith(TheReaders(), b) }

  lemma EnvelopeLen(tag: nat, body: Bytes, time: Bytes)
    ensures |EnvelopeBytes(tag, body, time)| == RecordLen(tag, |body|) + RecordLen(11, |time|)
  {
    var a, b := Record(tag, body), Record(11, time);
    OneLen(a);
    OneLen(b);
    WriteConcat([a], [b]);
    assert [a] + [b] == [a, b];
  }

  lemma PairByTag(a: Field, b: Field, t: nat)
    ensures ByTag([a, b], t) == (if a.tag == t then [a] else []) + (if b.tag == t then [b] else [])
  {
    TagConcat([a], [b], t);
    assert [a] + [b] == [a, b];
    OnlyTag([a], a.tag, t);
    OnlyTag([b], b.tag, t);
  }

  lemma PairRegroups(a: Field, b: Field, g: Groups)
    requires a.tag in {2, 3, 4, 7, 8} && b.tag == 11 && g == Regroup([a, b], 11)
    ensures Alternative(g) == a.tag && g[a.tag - 1] == [a] && g[10] == [b]
  {
    PairByTag(a, b, 2);
    PairByTag(a, b, 3);
    PairByTag(a, b, 4);
    PairByTag(a, b, 7);
    PairByTag(a, b, 8);
    PairByTag(a, b, 11);
  }

  lemma EnvelopeRead(tag: nat, body: Bytes, time: Bytes)
    requires tag in {2, 3, 4, 7, 8}
    ensures var r := ReadGroups(EnvelopeBytes(tag, body, time), 11);
      && r.Some? && Alternative(r.value) == tag
      && RecOrEmpty(r.value[tag - 1]) == body && RecOrEmpty(r.value[10]) == time
  {
    var a, b := Record(tag, body), Record(11, time);
    FieldsRoundTrip([a, b]);
    PairRegroups(a, b, Regroup([a, b], 11));
  }

  lemma EnvelopeOk(rs: Readers, m: Message, body: Bytes, time: Bytes, t: Timestamp)
    requires ReadsAs(rs, body, m) && ReadTimestamp(time) == Some(t)
    ensures ReadUpdateWith(rs, EnvelopeBytes(TagOf(m), body, time)) == Some((m, t))
  {
    ReadBodyAs(rs, body, m);
    EnvelopeRead(TagOf(m), body, time);
  }

  /** The allocated size is exact, and the bytes read back as the message. */
  lemma UpdateOk(m: Message, createdAt: Timestamp)
    ensures |UpdateBytes(m, createdAt)| == UpdateLen(m, createdAt)
    ensures ReadUpdate(UpdateBytes(m, createdAt)) == Some((NormalMessage(m), createdAt))
  {
    var body, time := BodyBytes(m), TimestampBytes(createdAt);
    TimestampOk(createdAt);
    assert |UpdateBytes(m, createdAt)| == UpdateLen(m, createdAt) by {
      BodyLenOk(m);
      EnvelopeLen(TagOf(m), body, time);
    }
    BodyReadsAs(m);
    EnvelopeOk(TheReaders(), NormalMessage(m), body, time, createdAt);
  }

  /** So equal bytes come from equal messages, and the slot survives. */
  lemma UpdateInjective(m: Message, n: Message, s: Timestamp, t: Timestamp)
    requires UpdateBytes(m, s) == UpdateBytes(n, t)
    ensures NormalMessage(m) == NormalMessage(n) && s == t && SlotOf(m) == SlotOf(n)
  {
    UpdateOk(m, s);
    UpdateOk(n, t);
    assert SlotOf(NormalMessage(m)) == SlotOf(m) && SlotOf(NormalMessage(n)) == SlotOf(n);
  }
}
