/** The plugin's hand-written encoders.  For every message: the fields
    `encode_raw` writes, the length `encoded_len` predicts, and a reader.
    The two source functions are written apart from each other; the lemma of
    each message is that they agree and that the bytes read back. */
module Encoding {
  import opened Base
  import opened Wire
  import opened PluginSpec

  /** Signed numbers travel as 64-bit two's complement. */
  type I64 = x: int | -TWO63 <= x < TWO63

  function AsU64(x: I64): (n: nat)
    ensures n == 0 <==> x == 0
  {
    if x < 0 then x + TWO64 else x
  }

  function AsI64(n: nat): I64 {
    if n < TWO63 then n else if n < TWO64 then n - TWO64 else 0
  }

  // ---------------------------------------------------------------------------
  // Rewards
  // ---------------------------------------------------------------------------

  type U8 = b: nat | b < 256

  /** The decimal digits of a number, as the table of number strings has them. */
  function Decimal(n: nat): (b: Bytes)
    ensures b != []
  {
    if n < 10 then [48 + n] else Decimal(n / 10) + [48 + n % 10]
  }

  function ParseDecimal(b: Bytes): int {
    if b == [] then 0 else 10 * ParseDecimal(b[..|b| - 1]) + b[|b| - 1] - 48
  }

  lemma {:induction false} DecimalRoundTrip(n: nat)
    ensures ParseDecimal(Decimal(n)) == n
    decreases n
  {
    var b := Decimal(n);
    if n < 10 {
      assert b[..0] == [];
    } else {
      DecimalRoundTrip(n / 10);
      assert b[..|b| - 1] == Decimal(n / 10);
    }
  }

  function ParseU8(b: Bytes): U8 {
    if 0 <= ParseDecimal(b) < 256 then ParseDecimal(b) else 0
  }

  datatype RewardType = Fee | Rent | Staking | Voting

  function RewardCode(t: RewardType): nat {
    match t
    case Fee => 1
    case Rent => 2
    case Staking => 3
    case Voting => 4
  }

  function RewardTypeOf(n: nat): Option<RewardType> {
    if n == 1 then Some(Fee) else if n == 2 then Some(Rent) else if n == 3 then Some(Staking)
    else if n == 4 then Some(Voting) else None
  }

  datatype Reward = Reward(pubkey: Bytes, lamports: I64, postBalance: nat, kind: Option<RewardType>,
      commission: Option<U8>)

  function RewardGroups(r: Reward): Groups {
    [NonEmpty(1, r.pubkey), Num(2, AsU64(r.lamports)), Num(3, r.postBalance), KindGroup(4, r.kind),
     CommissionGroup(5, r.commission)]
  }

  function RewardBytes(r: Reward): Bytes { WriteGroups(RewardGroups(r)) }

  function KindGroup(tag: nat, kind: Option<RewardType>): (c: seq<Field>)
    ensures Group(c, tag, if kind.Some? then NumberLen(tag, RewardCode(kind.value)) else 0)
    ensures RewardTypeOf(NumOr0(c)) == kind
  {
    OptNum(tag, if kind.Some? then Some(RewardCode(kind.value)) else None)
  }

  function ReadCommission(b: Option<Bytes>): Option<U8> {
    if b.Some? then Some(ParseU8(b.value)) else None
  }

  function CommissionGroup(tag: nat, commission: Option<U8>): (c: seq<Field>)
    ensures Group(c, tag, if commission.Some? then RecordLen(tag, |Decimal(commission.value)|) else 0)
    ensures ReadCommission(LastRec(c)) == commission
  {
    if commission.Some? then (DecimalRoundTrip(commission.value); Rec(tag, Decimal(commission.value))) else []
  }

  function RewardLen(r: Reward): nat {
    (if r.pubkey != [] then RecordLen(1, |r.pubkey|) else 0)
    + (if r.lamports != 0 then NumberLen(2, AsU64(r.lamports)) else 0)
    + (if r.postBalance != 0 then NumberLen(3, r.postBalance) else 0)
    + (if r.kind.Some? then NumberLen(4, RewardCode(r.kind.value)) else 0)
    + (if r.commission.Some? then RecordLen(5, |Decimal(r.commission.value)|) else 0)
  }

  function ReadReward(b: Bytes): Option<Reward> {
    match ReadGroups(b, 5)
    case None => None
    case Some(g) => Some(RewardFrom(g))
  }

  function RewardFrom(g: Groups): Reward
    requires |g| == 5
  {
    Reward(RecOrEmpty(g[0]), AsI64(NumOr0(g[1])), NumOr0(g[2]), RewardTypeOf(NumOr0(g[3])),
        ReadCommission(LastRec(g[4])))
  }

  lemma RewardFromOk(r: Reward)
    ensures WellTagged(RewardGroups(r)) && RewardFrom(RewardGroups(r)) == r
  {
  }

  lemma RewardLenOk(r: Reward)
    ensures |RewardBytes(r)| == RewardLen(r)
  {
    GroupsLen(RewardGroups(r));
  }

  lemma RewardReadOk(r: Reward)
    ensures ReadReward(RewardBytes(r)) == Some(r)
  {
    RewardFromOk(r);
    GroupsRoundTrip(RewardGroups(r));
  }

  lemma RewardOk(r: Reward)
    ensures |RewardBytes(r)| == RewardLen(r) && ReadReward(RewardBytes(r)) == Some(r)
  {
    RewardLenOk(r);
    RewardReadOk(r);
  }

  /** A message whose only field is a number; block time, block height and the
      number of partitions are of this kind. */
  function Wrapped(n: nat): Bytes {
    WriteGroups([Num(1, n)])
  }

  function WrappedLen(n: nat): nat {
    if n != 0 then NumberLen(1, n) else 0
  }

  function ReadWrapped(b: Bytes): Option<nat> {
    match ReadGroups(b, 1)
    case None => None
    case Some(g) => Some(NumOr0(g[0]))
  }

  lemma WrappedOk(n: nat)
    ensures |Wrapped(n)| == WrappedLen(n) && ReadWrapped(Wrapped(n)) == Some(n)
  {
    var gs := [Num(1, n)];
    assert |WriteGroups(gs)| == WrappedLen(n) by { GroupsLen(gs); }
    assert ReadWrapped(WriteGroups(gs)) == Some(n) by { GroupsRoundTrip(gs); }
  }

  /** An optional wrapped number: absent, or present and readable. */
  function ReadOptWrapped(b: Option<Bytes>): Option<Option<nat>> {
    match b
    case None => Some(None)
    case Some(b) => match ReadWrapped(b) case None => None case Some(n) => Some(Some(n))
  }

  function WrappedIf(n: Option<nat>): Option<Bytes> {
    if n.Some? then Some(Wrapped(n.value)) else None
  }

  /** `b` is the message for `n`, if there is one. */
  predicate Wraps(b: Option<Bytes>, n: Option<nat>) {
    SizedAs(b, n) && ReadOptWrapped(b) == Some(n)
  }

  predicate SizedAs(b: Option<Bytes>, n: Option<nat>) {
    b.Some? == n.Some? && (b.Some? ==> |b.value| == WrappedLen(n.value))
  }

  lemma WrappedIfOk(n: Option<nat>)
    ensures Wraps(WrappedIf(n), n)
  {
    if n.Some? { WrappedOk(n.value); }
  }

  datatype Rewards = Rewards(rewards: seq<Reward>, partitions: Option<nat>)

  function RewardsParts(rewards: seq<Bytes>, partitions: Option<Bytes>): Groups {
    [Repeat(1, rewards), OptRec(2, partitions)]
  }

  function RewardsBytes(r: Rewards): Bytes {
    WriteGroups(RewardsParts(Each(r.rewards, RewardBytes), WrappedIf(r.partitions)))
  }

  function RewardsLen(r: Rewards): nat {
    SumLens(1, Each(r.rewards, RewardLen))
    + (if r.partitions.Some? then RecordLen(2, WrappedLen(r.partitions.value)) else 0)
  }

  function ReadRewards(b: Bytes): Option<Rewards> {
    match ReadGroups(b, 2)
    case None => None
    case Some(g) =>
      RewardsFrom(ReadEach(Payloads(g[0]), ReadReward), ReadOptWrapped(LastRec(g[1])))
  }

  function RewardsFrom(rewards: Option<seq<Reward>>, partitions: Option<Option<nat>>): Option<Rewards> {
    if rewards.Some? && partitions.Some? then Some(Rewards(rewards.value, partitions.value)) else None
  }

  lemma RewardsPartsLen(r: Rewards, rewards: seq<Bytes>, partitions: Option<Bytes>)
    requires Group(Repeat(1, rewards), 1, SumLens(1, Each(r.rewards, RewardLen)))
    requires SizedAs(partitions, r.partitions)
    ensures var gs := RewardsParts(rewards, partitions); WellTagged(gs) && |WriteGroups(gs)| == RewardsLen(r)
  {
    GroupsLen(RewardsParts(rewards, partitions));
  }

  lemma RewardsPartsRead(r: Rewards, rewards: seq<Bytes>, partitions: Option<Bytes>)
    requires WellTagged(RewardsParts(rewards, partitions))
    requires ReadEach(Payloads(Repeat(1, rewards)), ReadReward) == Some(r.rewards)
        && ReadOptWrapped(partitions) == Some(r.partitions)
    ensures ReadRewards(WriteGroups(RewardsParts(rewards, partitions))) == Some(r)
  {
    GroupsRoundTrip(RewardsParts(rewards, partitions));
  }

  lemma RewardsOk(r: Rewards)
    ensures |RewardsBytes(r)| == RewardsLen(r) && ReadRewards(RewardsBytes(r)) == Some(r)
  {
    forall i | 0 <= i < |r.rewards| { RewardOk(r.rewards[i]); }
    RepeatedField(1, r.rewards, r.rewards, RewardBytes, RewardLen, ReadReward);
    WrappedIfOk(r.partitions);
    RewardsPartsLen(r, Each(r.rewards, RewardBytes), WrappedIf(r.partitions));
    RewardsPartsRead(r, Each(r.rewards, RewardBytes), WrappedIf(r.partitions));
  }

  // ---------------------------------------------------------------------------
  // Accounts
  // ---------------------------------------------------------------------------

  datatype AccountInfo = AccountInfo(
    pubkey: Bytes, lamports: nat, owner: Bytes, executable: bool, rentEpoch: nat, data: Bytes,
    writeVersion: nat, txnSignature: Option<Bytes>)

  function AccountInfoGroups(a: AccountInfo): Groups {
    [Rec(1, a.pubkey), Num(2, a.lamports), Rec(3, a.owner), Flag(4, a.executable),
     Num(5, a.rentEpoch), NonEmpty(6, a.data), Num(7, a.writeVersion), OptRec(8, a.txnSignature)]
  }

  function AccountInfoBytes(a: AccountInfo): Bytes { WriteGroups(AccountInfoGroups(a)) }

  function AccountInfoLen(a: AccountInfo): nat {
    RecordLen(1, |a.pubkey|)
    + (if a.lamports != 0 then NumberLen(2, a.lamports) else 0)
    + RecordLen(3, |a.owner|)
    + (if a.executable then KeyLen(4) + 1 else 0)
    + (if a.rentEpoch != 0 then NumberLen(5, a.rentEpoch) else 0)
    + (if a.data != [] then RecordLen(6, |a.data|) else 0)
    + (if a.writeVersion != 0 then NumberLen(7, a.writeVersion) else 0)
    + (if a.txnSignature.Some? then RecordLen(8, |a.txnSignature.value|) else 0)
  }

  function ReadAccountInfo(b: Bytes): Option<AccountInfo> {
    match ReadGroups(b, 8)
    case None => None
    case Some(g) => Some(AccountInfoFrom(g))
  }

  function AccountInfoFrom(g: Groups): AccountInfo
    requires |g| == 8
  {
    AccountInfo(RecOrEmpty(g[0]), NumOr0(g[1]), RecOrEmpty(g[2]), NumOr0(g[3]) != 0,
                NumOr0(g[4]), RecOrEmpty(g[5]), NumOr0(g[6]), LastRec(g[7]))
  }

  lemma AccountInfoFromOk(a: AccountInfo)
    ensures WellTagged(AccountInfoGroups(a)) && AccountInfoFrom(AccountInfoGroups(a)) == a
  {
  }

  lemma AccountInfoOk(a: AccountInfo)
    ensures |AccountInfoBytes(a)| == AccountInfoLen(a) && ReadAccountInfo(AccountInfoBytes(a)) == Some(a)
  {
    var gs := AccountInfoGroups(a);
    assert |WriteGroups(gs)| == AccountInfoLen(a) by { GroupsLen(gs); }
    AccountInfoFromOk(a);
    GroupsRoundTrip(gs);
  }

  datatype Account = Account(info: AccountInfo, slot: nat)

  function AccountParts(info: Bytes, slot: nat): Groups {
    [Rec(1, info), Num(2, slot)]
  }

  function AccountBytes(a: Account): Bytes { WriteGroups(AccountParts(AccountInfoBytes(a.info), a.slot)) }

  function AccountLen(a: Account): nat {
    RecordLen(1, AccountInfoLen(a.info)) + if a.slot != 0 then NumberLen(2, a.slot) else 0
  }

  function AccountFrom(info: Option<AccountInfo>, slot: nat): Option<Account> {
    if info.Some? then Some(Account(info.value, slot)) else None
  }

  function ReadAccount(b: Bytes): Option<Account> {
    match ReadGroups(b, 2)
    case None => None
    case Some(g) => AccountFrom(ReadAccountInfo(RecOrEmpty(g[0])), NumOr0(g[1]))
  }

  lemma AccountPartsOk(info: Bytes, slot: nat)
    ensures var gs := AccountParts(info, slot);
      && WellTagged(gs) && RecOrEmpty(gs[0]) == info && NumOr0(gs[1]) == slot
      && |WriteGroups(gs)| == RecordLen(1, |info|) + if slot != 0 then NumberLen(2, slot) else 0
  {
    GroupsLen(AccountParts(info, slot));
  }

  lemma AccountOk(a: Account)
    ensures |AccountBytes(a)| == AccountLen(a) && ReadAccount(AccountBytes(a)) == Some(a)
  {
    var info := AccountInfoBytes(a.info);
    AccountInfoOk(a.info);
    AccountPartsOk(info, a.slot);
    GroupsRoundTrip(AccountParts(info, a.slot));
  }

  // ---------------------------------------------------------------------------
  // Slots
  // ---------------------------------------------------------------------------

  datatype SlotUpdate = SlotUpdate(slot: nat, parent: Option<nat>, status: SlotStatus)

  function StatusCode(s: SlotStatus): nat {
    match s
    case Processed => 0
    case Rooted => 2
    case Confirmed => 1
    case FirstShredReceived => 3
    case Completed => 4
    case CreatedBank => 5
    case Dead(_) => 6
  }

  function DeadError(s: SlotStatus): Option<Bytes> {
    if s.Dead? then Some(s.error) else None
  }

  function StatusOf(code: nat, dead: Option<Bytes>): Option<SlotStatus> {
    if code == 0 then Some(Processed) else if code == 1 then Some(Confirmed) else if code == 2 then Some(Rooted)
    else if code == 3 then Some(FirstShredReceived) else if code == 4 then Some(Completed)
    else if code == 5 then Some(CreatedBank) else if code == 6 && dead.Some? then Some(Dead(dead.value)) else None
  }

  function SlotGroups(s: SlotUpdate): Groups {
    [Num(1, s.slot), OptNum(2, s.parent), Num(3, StatusCode(s.status)), OptRec(4, DeadError(s.status))]
  }

  function SlotBytes(s: SlotUpdate): Bytes { WriteGroups(SlotGroups(s)) }

  function SlotLen(s: SlotUpdate): nat {
    (if s.slot != 0 then NumberLen(1, s.slot) else 0)
    + (if s.parent.Some? then NumberLen(2, s.parent.value) else 0)
    + (if StatusCode(s.status) != 0 then NumberLen(3, StatusCode(s.status)) else 0)
    + (if s.status.Dead? then RecordLen(4, |s.status.error|) else 0)
  }

  function SlotFrom(g: Groups): Option<SlotUpdate>
    requires |g| == 4
  {
    match StatusOf(NumOr0(g[2]), LastRec(g[3]))
    case None => None
    case Some(status) => Some(SlotUpdate(NumOr0(g[0]), LastNum(g[1]), status))
  }

  function ReadSlot(b: Bytes): Option<SlotUpdate> {
    match ReadGroups(b, 4)
    case None => None
    case Some(g) => SlotFrom(g)
  }

  lemma SlotLenOk(s: SlotUpdate)
    ensures |SlotBytes(s)| == SlotLen(s)
  {
    GroupsLen(SlotGroups(s));
  }

  lemma SlotReadOk(s: SlotUpdate)
    ensures ReadSlot(SlotBytes(s)) == Some(s)
  {
    StatusRoundTrip(s.status);
    assert SlotFrom(SlotGroups(s)) == Some(s);
    GroupsRoundTrip(SlotGroups(s));
  }

  lemma StatusRoundTrip(s: SlotStatus)
    ensures StatusOf(StatusCode(s), DeadError(s)) == Some(s)
  {
  }

  lemma SlotOk(s: SlotUpdate)
    ensures |SlotBytes(s)| == SlotLen(s) && ReadSlot(SlotBytes(s)) == Some(s)
  {
    SlotLenOk(s);
    SlotReadOk(s);
  }

  // ---------------------------------------------------------------------------
  // Entries
  // ---------------------------------------------------------------------------

  datatype EntryInfo = EntryInfo(slot: nat, index: nat, numHashes: nat, hash: Bytes, transactions: nat,
      startingIndex: nat)

  function EntryGroups(e: EntryInfo): Groups {
    [Num(1, e.slot), Num(2, e.index), Num(3, e.numHashes), Rec(4, e.hash), Num(5, e.transactions),
        Num(6, e.startingIndex)]
  }

  function EntryBytes(e: EntryInfo): Bytes { WriteGroups(EntryGroups(e)) }

  function EntryLen(e: EntryInfo): nat {
    (if e.slot != 0 then NumberLen(1, e.slot) else 0)
    + (if e.index != 0 then NumberLen(2, e.index) else 0)
    + (if e.numHashes != 0 then NumberLen(3, e.numHashes) else 0)
    + RecordLen(4, |e.hash|)
    + (if e.transactions != 0 then NumberLen(5, e.transactions) else 0)
    + (if e.startingIndex != 0 then NumberLen(6, e.startingIndex) else 0)
  }

  function ReadEntry(b: Bytes): Option<EntryInfo> {
    match ReadGroups(b, 6)
    case None => None
    case Some(g) =>
      Some(EntryInfo(NumOr0(g[0]), NumOr0(g[1]), NumOr0(g[2]), RecOrEmpty(g[3]), NumOr0(g[4]), NumOr0(g[5])))
  }

  lemma EntryOk(e: EntryInfo)
    ensures |EntryBytes(e)| == EntryLen(e) && ReadEntry(EntryBytes(e)) == Some(e)
  {
    var gs := EntryGroups(e);
    assert |WriteGroups(gs)| == EntryLen(e) by { GroupsLen(gs); }
    assert ReadEntry(WriteGroups(gs)) == Some(e) by { GroupsRoundTrip(gs); }
  }

  // ---------------------------------------------------------------------------
  // Block metas
  // ---------------------------------------------------------------------------

  datatype BlockMeta = BlockMeta(
    slot: nat, blockhash: Bytes, rewards: Rewards, blockTime: Option<I64>, blockHeight: Option<nat>,
    parentSlot: nat, parentBlockhash: Bytes, transactions: nat, entries: nat)

  function TimeNumber(t: Option<I64>): Option<nat> {
    if t.Some? then Some(AsU64(t.value)) else None
  }

  function BlockMetaBytes(m: BlockMeta): Bytes {
    WriteGroups(BlockMetaParts(m, RewardsBytes(m.rewards), WrappedIf(TimeNumber(m.blockTime)),
        WrappedIf(m.blockHeight)))
  }

  function BlockMetaLen(m: BlockMeta): nat {
    BlockMetaSize(m, RewardsLen(m.rewards),
                  if m.blockTime.Some? then RecordLen(4, WrappedLen(AsU64(m.blockTime.value))) else 0,
                  if m.blockHeight.Some? then RecordLen(5, WrappedLen(m.blockHeight.value)) else 0)
  }

  /** The sum, with the lengths of nested messages given. */
  function BlockMetaSize(m: BlockMeta, rewards: nat, time: nat, height: nat): nat {
    (if m.slot != 0 then NumberLen(1, m.slot) else 0)
    + (if m.blockhash != [] then RecordLen(2, |m.blockhash|) else 0)
    + RecordLen(3, rewards) + time + height
    + (if m.parentSlot != 0 then NumberLen(6, m.parentSlot) else 0)
    + (if m.parentBlockhash != [] then RecordLen(7, |m.parentBlockhash|) else 0)
    + (if m.transactions != 0 then NumberLen(8, m.transactions) else 0)
    + (if m.entries != 0 then NumberLen(9, m.entries) else 0)
  }

  function BlockMetaFrom(g: Groups, rewards: Option<Rewards>, time: Option<Option<nat>>, height: Option<Option<nat>>)
      : Option<BlockMeta>
    requires |g| == 9
  {
    if rewards.None? || time.None? || height.None? then None
    else
      Some(BlockMeta(NumOr0(g[0]), RecOrEmpty(g[1]), rewards.value,
                     if time.value.Some? then Some(AsI64(time.value.value)) else None, height.value,
                     NumOr0(g[5]), RecOrEmpty(g[6]), NumOr0(g[7]), NumOr0(g[8])))
  }

  function ReadBlockMeta(b: Bytes): Option<BlockMeta> {
    match ReadGroups(b, 9)
    case None => None
    case Some(g) =>
      BlockMetaFrom(g, ReadRewards(RecOrEmpty(g[2])), ReadOptWrapped(LastRec(g[3])), ReadOptWrapped(LastRec(g[4])))
  }

  /** The groups, with the bytes of nested messages given. */
  function BlockMetaParts(m: BlockMeta, rewards: Bytes, time: Option<Bytes>, height: Option<Bytes>): (g: Groups)
    ensures WellTagged(g)
  {
    [Num(1, m.slot), NonEmpty(2, m.blockhash), Rec(3, rewards), OptRec(4, time), OptRec(5, height),
     Num(6, m.parentSlot), NonEmpty(7, m.parentBlockhash), Num(8, m.transactions), Num(9, m.entries)]
  }

  lemma BlockMetaPartsSize(m: BlockMeta, rewards: Bytes, time: Option<Bytes>, height: Option<Bytes>)
    ensures |WriteGroups(BlockMetaParts(m, rewards, time, height))|
         == BlockMetaSize(m, |rewards|, if time.Some? then RecordLen(4, |time.value|) else 0,
                          if height.Some? then RecordLen(5, |height.value|) else 0)
  {
    GroupsLen(BlockMetaParts(m, rewards, time, height));
  }

  lemma BlockMetaPartsLen(m: BlockMeta, rewards: Bytes, time: Option<Bytes>, height: Option<Bytes>)
    requires |rewards| == RewardsLen(m.rewards)
    requires SizedAs(time, TimeNumber(m.blockTime)) && SizedAs(height, m.blockHeight)
    ensures |WriteGroups(BlockMetaParts(m, rewards, time, height))| == BlockMetaLen(m)
  {
    BlockMetaPartsSize(m, rewards, time, height);
  }

  lemma BlockMetaPartsRead(m: BlockMeta, rewards: Bytes, time: Option<Bytes>, height: Option<Bytes>)
    ensures BlockMetaFrom(BlockMetaParts(m, rewards, time, height), Some(m.rewards), Some(TimeNumber(m.blockTime)),
        Some(m.blockHeight))
         == Some(m)
  {
  }

  lemma BlockMetaOk(m: BlockMeta)
    ensures |BlockMetaBytes(m)| == BlockMetaLen(m) && ReadBlockMeta(BlockMetaBytes(m)) == Some(m)
  {
    var inner, time, height := RewardsBytes(m.rewards), WrappedIf(TimeNumber(m.blockTime)), WrappedIf(m.blockHeight);
    RewardsOk(m.rewards);
    WrappedIfOk(TimeNumber(m.blockTime));
    WrappedIfOk(m.blockHeight);
    BlockMetaPartsLen(m, inner, time, height);
    BlockMetaPartsRead(m, inner, time, height);
    GroupsRoundTrip(BlockMetaParts(m, inner, time, height));
  }
}
