/** The wire format as a table: for every message the fields in the order they
    are written, each with its number, its wire type, its value and the condition
    under which it is there at all. */
module EncodingLayout {
  import opened Base
  import opened Wire
  import opened PluginSpec
  import opened Encoding
  import opened EncodingTransaction
  import opened EncodingUpdate

  // ---------------------------------------------------------------------------
  // Bytes
  // ---------------------------------------------------------------------------

  /** The number that seven bits of each byte spell, lowest first. */
  ghost function SevenBits(b: seq<int>): int
  {
    if b == [] then 0 else b[0] % 128 + 128 * SevenBits(b[1..])
  }

  /** A varint spells its number; all bytes but the last have the high bit. */
  lemma {:induction false} VarintLayout(n: nat)
    ensures var b := Varint(n);
      && SevenBits(b) == n && b[|b| - 1] < 128 && (forall i :: 0 <= i < |b| - 1 ==> b[i] >= 128)
      && (|b| > 1 ==> b[|b| - 1] > 0)
    decreases n
  {
    if n >= 128 {
      VarintLayout(n / 128);
      var rest := Varint(n / 128);
      assert Varint(n) == [n % 128 + 128] + rest && Varint(n)[1..] == rest;
      assert n / 128 < 128 ==> rest == [n / 128];
    } else {
      assert Varint(n)[1..] == [];
    }
  }

  /** Field number and wire type make the key; records carry their length. */
  lemma FieldLayout(tag: nat, n: nat, b: Bytes)
    ensures Write(Number(tag, n)) == Varint(8 * tag + 0) + Varint(n)
    ensures Write(Fixed(tag, b)) == Varint(8 * tag + 1) + b
    ensures Write(Record(tag, b)) == Varint(8 * tag + 2) + (Varint(|b|) + b)
  {
  }

  lemma {:induction false} FlatAppend(gs: Groups, c: seq<Field>, from: nat)
    requires from <= |gs|
    ensures Flat(gs + [c], from) == Flat(gs, from) + c
    decreases |gs| - from
  {
    if from < |gs| {
      FlatAppend(gs, c, from + 1);
      assert Flat(gs + [c], from) == gs[from] + (Flat(gs, from + 1) + c);
    } else {
      assert Flat(gs + [c], from) == c + Flat(gs + [c], from + 1);
    }
  }

  /** The fields of a message follow one another. */
  lemma GroupsLayout(gs: Groups, c: seq<Field>, f: Field)
    ensures WriteGroups([]) == [] && WriteGroups(gs + [[]]) == WriteGroups(gs)
    ensures WriteGroups(gs + [c + [f]]) == WriteGroups(gs + [c]) + Write(f)
  {
    FlatAppend(gs, [], 0);
    FlatAppend(gs, c, 0);
    FlatAppend(gs, c + [f], 0);
    assert Flat(gs, 0) + [] == Flat(gs, 0);
    assert Flat(gs, 0) + (c + [f]) == Flat(gs, 0) + c + [f];
    WriteConcat(Flat(gs, 0) + c, [f]);
    assert [f][1..] == [] && WriteAll([f]) == Write(f) + [];
  }

  lemma {:induction false} PackedLayout(ns: seq<nat>, n: nat)
    ensures PackedBody([]) == [] && PackedBody(ns + [n]) == PackedBody(ns) + Varint(n)
    decreases |ns|
  {
    if ns == [] {
      assert ns + [n] == [n] && [n][1..] == [];
    } else {
      PackedLayout(ns[1..], n);
      assert (ns + [n])[1..] == ns[1..] + [n];
      Assoc(Varint(ns[0]), PackedBody(ns[1..]), Varint(n));
    }
  }

  ghost function If(present: bool, f: Field): seq<Field> {
    if present then [f] else []
  }

  /** A signed number in 64-bit two's complement. */
  ghost function Signed(x: int): nat
    requires -0x8000_0000_0000_0000 <= x < 0x8000_0000_0000_0000
  {
    x % 0x1_0000_0000_0000_0000
  }

  // ---------------------------------------------------------------------------
  // Accounts, slots, entries
  // ---------------------------------------------------------------------------

  lemma AccountInfoLayout(a: AccountInfo)
    ensures AccountInfoGroups(a) == [
      [Record(1, a.pubkey)],
      If(a.lamports != 0, Number(2, a.lamports)),
      [Record(3, a.owner)],
      If(a.executable, Number(4, 1)),
      If(a.rentEpoch != 0, Number(5, a.rentEpoch)),
      If(a.data != [], Record(6, a.data)),
      If(a.writeVersion != 0, Number(7, a.writeVersion)),
      if a.txnSignature.Some? then [Record(8, a.txnSignature.value)] else []]
  {
  }

  lemma AccountLayout(a: Account)
    ensures AccountBytes(a) == WriteGroups([
      [Record(1, WriteGroups(AccountInfoGroups(a.info)))],
      If(a.slot != 0, Number(2, a.slot))])
  {
  }

  lemma SlotLayout(s: SlotUpdate)
    ensures SlotBytes(s) == WriteGroups([
      If(s.slot != 0, Number(1, s.slot)),
      if s.parent.Some? then [Number(2, s.parent.value)] else [],
      match s.status {
        case Processed => []
        case Confirmed => [Number(3, 1)]
        case Rooted => [Number(3, 2)]
        case FirstShredReceived => [Number(3, 3)]
        case Completed => [Number(3, 4)]
        case CreatedBank => [Number(3, 5)]
        case Dead(_) => [Number(3, 6)]
      },
      if s.status.Dead? then [Record(4, s.status.error)] else []])
  {
  }

  lemma EntryLayout(e: EntryInfo)
    ensures EntryBytes(e) == WriteGroups([
      If(e.slot != 0, Number(1, e.slot)),
      If(e.index != 0, Number(2, e.index)),
      If(e.numHashes != 0, Number(3, e.numHashes)),
      [Record(4, e.hash)],
      If(e.transactions != 0, Number(5, e.transactions)),
      If(e.startingIndex != 0, Number(6, e.startingIndex))])
  {
  }

  // ---------------------------------------------------------------------------
  // Rewards and block metas
  // ---------------------------------------------------------------------------

  /** Decimal digits, the most significant first and no zero in front. */
  lemma {:induction false} DecimalLayout(n: nat)
    ensures var d := Decimal(n);
      && (forall i :: 0 <= i < |d| ==> 48 <= d[i] <= 57) && (|d| > 1 ==> d[0] > 48)
      && d[|d| - 1] == 48 + n % 10
      && (n >= 10 ==> d[..|d| - 1] == Decimal(n / 10)) && (n < 10 ==> |d| == 1)
    decreases n
  {
    if n >= 10 {
      DecimalLayout(n / 10);
      var front := Decimal(n / 10);
      assert Decimal(n) == front + [48 + n % 10] && Decimal(n)[..|front|] == front;
    }
  }

  lemma RewardLayout(r: Reward)
    ensures RewardBytes(r) == WriteGroups([
      If(r.pubkey != [], Record(1, r.pubkey)),
      If(r.lamports != 0, Number(2, Signed(r.lamports))),
      If(r.postBalance != 0, Number(3, r.postBalance)),
      match r.kind {
        case None => []
        case Some(Fee) => [Number(4, 1)]
        case Some(Rent) => [Number(4, 2)]
        case Some(Staking) => [Number(4, 3)]
        case Some(Voting) => [Number(4, 4)]
      },
      if r.commission.Some? then [Record(5, Decimal(r.commission.value))] else []])
  {
    assert Signed(r.lamports) == AsU64(r.lamports);
  }

  /** A number in a message of its own. */
  lemma WrappedLayout(n: nat)
    ensures Wrapped(n) == WriteGroups([If(n != 0, Number(1, n))])
  {
  }

  /** One record for each element. */
  ghost function Items<T>(tag: nat, xs: seq<T>, f: T -> Bytes): seq<Field> {
    seq(|xs|, i requires 0 <= i < |xs| => Record(tag, f(xs[i])))
  }

  lemma RepeatIsItems<T>(tag: nat, xs: seq<T>, f: T -> Bytes)
    ensures Repeat(tag, Each(xs, f)) == Items(tag, xs, f)
  {
  }

  lemma RewardsLayout(r: Rewards)
    ensures RewardsBytes(r) == WriteGroups([
      Items(1, r.rewards, RewardBytes),
      if r.partitions.Some? then [Record(2, Wrapped(r.partitions.value))] else []])
  {
    RepeatIsItems(1, r.rewards, RewardBytes);
  }

  ghost function BlockMetaTable(m: BlockMeta): Groups {
    [If(m.slot != 0, Number(1, m.slot)),
     If(m.blockhash != [], Record(2, m.blockhash)),
     [Record(3, RewardsBytes(m.rewards))],
     if m.blockTime.Some? then [Record(4, Wrapped(Signed(m.blockTime.value)))] else [],
     if m.blockHeight.Some? then [Record(5, Wrapped(m.blockHeight.value))] else [],
     If(m.parentSlot != 0, Number(6, m.parentSlot)),
     If(m.parentBlockhash != [], Record(7, m.parentBlockhash)),
     If(m.transactions != 0, Number(8, m.transactions)),
     If(m.entries != 0, Number(9, m.entries))]
  }

  lemma BlockMetaLayout(m: BlockMeta)
    ensures BlockMetaBytes(m) == WriteGroups(BlockMetaTable(m))
  {
    TimeWraps(m.blockTime);
    BlockMetaPartsAre(m, RewardsBytes(m.rewards), WrappedIf(TimeNumber(m.blockTime)), WrappedIf(m.blockHeight));
  }

  lemma TimeWraps(t: Option<I64>)
    ensures WrappedIf(TimeNumber(t)) == if t.Some? then Some(Wrapped(Signed(t.value))) else None
  {
    if t.Some? { assert Signed(t.value) == AsU64(t.value); }
  }

  lemma BlockMetaPartsAre(m: BlockMeta, rewards: Bytes, time: Option<Bytes>, height: Option<Bytes>)
    requires rewards == RewardsBytes(m.rewards)
    requires time == if m.blockTime.Some? then Some(Wrapped(Signed(m.blockTime.value))) else None
    requires height == if m.blockHeight.Some? then Some(Wrapped(m.blockHeight.value)) else None
    ensures BlockMetaParts(m, rewards, time, height) == BlockMetaTable(m)
  {
  }

  // ---------------------------------------------------------------------------
  // Transactions
  // ---------------------------------------------------------------------------

  lemma HeaderLayout(h: Header)
    ensures HeaderBytes(h) == WriteGroups([
      If(h.signatures != 0, Number(1, h.signatures)),
      If(h.readonlySigned != 0, Number(2, h.readonlySigned)),
      If(h.readonlyUnsigned != 0, Number(3, h.readonlyUnsigned))])
  {
  }

  lemma InstructionLayout(i: Instruction)
    ensures InstructionBytes(i) == WriteGroups([
      If(i.programIdIndex != 0, Number(1, i.programIdIndex)),
      If(i.accounts != [], Record(2, i.accounts)),
      If(i.data != [], Record(3, i.data))])
  {
  }

  lemma LookupLayout(l: Lookup)
    ensures LookupBytes(l) == WriteGroups([
      [Record(1, l.accountKey)],
      If(l.writable != [], Record(2, l.writable)),
      If(l.readonly != [], Record(3, l.readonly))])
  {
  }

  lemma TxMessageLayout(m: TxMessage)
    ensures TxMessageBytes(m) == WriteGroups([
      [Record(1, HeaderBytes(m.header))],
      Items(2, m.keys, (b: Bytes) => b),
      [Record(3, m.blockhash)],
      Items(4, m.instructions, InstructionBytes),
      If(m.lookups.Some?, Number(5, 1)),
      if m.lookups.Some? then Items(6, m.lookups.value, LookupBytes) else []])
  {
    RepeatIsItems(4, m.instructions, InstructionBytes);
    assert Repeat(2, m.keys) == Items(2, m.keys, (b: Bytes) => b);
    RepeatIsItems(6, Lookups(m), LookupBytes);
    assert m.lookups.None? ==> Items(6, Lookups(m), LookupBytes) == [];
  }

  lemma SanitizedLayout(t: Sanitized)
    ensures SanitizedBytes(t) == WriteGroups([
      Items(1, t.signatures, (b: Bytes) => b),
      [Record(2, TxMessageBytes(t.message))]])
  {
    assert Repeat(1, t.signatures) == Items(1, t.signatures, (b: Bytes) => b);
  }

  lemma InnerInstructionLayout(i: InnerInstruction)
    ensures InnerInstructionBytes(i) == WriteGroups([
      If(i.programIdIndex != 0, Number(1, i.programIdIndex)),
      If(i.accounts != [], Record(2, i.accounts)),
      If(i.data != [], Record(3, i.data)),
      if i.stackHeight.Some? then [Number(4, i.stackHeight.value)] else []])
  {
  }

  lemma InnerLayout(i: InnerInstructions)
    ensures InnerBytes(i) == WriteGroups([
      If(i.index != 0, Number(1, i.index)),
      Items(2, i.instructions, InnerInstructionBytes)])
  {
    RepeatIsItems(2, i.instructions, InnerInstructionBytes);
  }

  /** A floating-point zero, of either sign, is left out. */
  lemma UiLayout(u: UiAmount)
    ensures UiBytes(u) == WriteGroups([
      if u.amountUi.None? || u.amountUi.value in {[0, 0, 0, 0, 0, 0, 0, 0], [0, 0, 0, 0, 0, 0, 0, 128]} then []
      else [Fixed(1, u.amountUi.value)],
      If(u.decimals != 0, Number(2, u.decimals)),
      If(u.amount != [], Record(3, u.amount)),
      If(u.amountString != [], Record(4, u.amountString))])
  {
    if u.amountUi.Some? {
      var d: Bytes := u.amountUi.value;
      assert IsZero(d) <==> d == [0, 0, 0, 0, 0, 0, 0, 0] || d == [0, 0, 0, 0, 0, 0, 0, 128];
    }
  }

  lemma BalanceLayout(t: TokenBalance)
    ensures BalanceBytes(t) == WriteGroups([
      If(t.accountIndex != 0, Number(1, t.accountIndex)),
      If(t.mint != [], Record(2, t.mint)),
      [Record(3, UiBytes(t.amount))],
      If(t.owner != [], Record(4, t.owner)),
      If(t.programId != [], Record(5, t.programId))])
  {
  }

  lemma ReturnLayout(r: ReturnData)
    ensures ReturnBytes(r) == WriteGroups([[Record(1, r.programId)], If(r.data != [], Record(2, r.data))])
    ensures ErrorBytes(r.data) == WriteGroups([If(r.data != [], Record(1, r.data))])
  {
  }

  lemma MetaLayout(m: Meta)
    ensures MetaBytes(m) == WriteGroups(MetaTable(m) + MetaTableRest(m))
  {
    MetaFirstIs(m);
    MetaRestIs(m);
  }

  ghost function MetaTable(m: Meta): Groups {
    [if m.error.Some? then [Record(1, ErrorBytes(m.error.value))] else [],
     If(m.fee != 0, Number(2, m.fee)),
     If(m.preBalances != [], Record(3, PackedBody(m.preBalances))),
     If(m.postBalances != [], Record(4, PackedBody(m.postBalances))),
     if m.inner.Some? then Items(5, m.inner.value, InnerBytes) else [],
     if m.logs.Some? then Items(6, m.logs.value, (b: Bytes) => b) else [],
     if m.preTokens.Some? then Items(7, m.preTokens.value, BalanceBytes) else [],
     if m.postTokens.Some? then Items(8, m.postTokens.value, BalanceBytes) else []]
  }

  ghost function MetaTableRest(m: Meta): Groups {
    [if m.rewards.Some? then Items(9, m.rewards.value, RewardBytes) else [],
     If(m.inner.None?, Number(10, 1)),
     If(m.logs.None?, Number(11, 1)),
     Items(12, m.writable, (b: Bytes) => b),
     Items(13, m.readonly, (b: Bytes) => b),
     if m.returnData.Some? then [Record(14, ReturnBytes(m.returnData.value))] else [],
     If(m.returnData.None?, Number(15, 1)),
     if m.computeUnits.Some? then [Number(16, m.computeUnits.value)] else []]
  }

  lemma ListedItems<T>(tag: nat, xs: Option<seq<T>>, f: T -> Bytes)
    ensures Repeat(tag, Each(Listed(xs), f)) == if xs.Some? then Items(tag, xs.value, f) else []
  {
  }

  lemma MetaScalarsAre(m: Meta, x: Nested)
    requires x.error == if m.error.Some? then Some(ErrorBytes(m.error.value)) else None
    ensures [OptRec(1, x.error), Num(2, m.fee), Packed(3, m.preBalances), Packed(4, m.postBalances)]
         == MetaTable(m)[..4]
  {
  }

  lemma MetaListsAre(m: Meta, x: Nested)
    requires x.inner == Each(Listed(m.inner), InnerBytes)
    requires x.pre == Each(Listed(m.preTokens), BalanceBytes) && x.post == Each(Listed(m.postTokens), BalanceBytes)
    ensures [Repeat(5, x.inner), Repeat(6, Listed(m.logs)), Repeat(7, x.pre), Repeat(8, x.post)] == MetaTable(m)[4..]
  {
    ListedItems(5, m.inner, InnerBytes);
    assert Repeat(6, Listed(m.logs)) == if m.logs.Some? then Items(6, m.logs.value, (b: Bytes) => b) else [];
    ListedItems(7, m.preTokens, BalanceBytes);
    ListedItems(8, m.postTokens, BalanceBytes);
  }

  lemma EightAre(a: seq<Field>, b: seq<Field>, c: seq<Field>, d: seq<Field>,
                 e: seq<Field>, f: seq<Field>, g: seq<Field>, h: seq<Field>, t: Groups)
    requires |t| == 8 && [a, b, c, d] == t[..4] && [e, f, g, h] == t[4..]
    ensures [a, b, c, d, e, f, g, h] == t
  {
    assert [a, b, c, d, e, f, g, h] == [a, b, c, d] + [e, f, g, h];
  }

  lemma MetaFirstIs(m: Meta)
    ensures MetaFirst(m, NestedOf(m)) == MetaTable(m)
  {
    var x, t := NestedOf(m), MetaTable(m);
    MetaScalarsAre(m, x);
    MetaListsAre(m, x);
    EightAre(OptRec(1, x.error), Num(2, m.fee), Packed(3, m.preBalances), Packed(4, m.postBalances),
             Repeat(5, x.inner), Repeat(6, Listed(m.logs)), Repeat(7, x.pre), Repeat(8, x.post), t);
  }

  lemma MetaRestIs(m: Meta)
    ensures MetaRest(m, NestedOf(m)) == MetaTableRest(m)
  {
    ListedItems(9, m.rewards, RewardBytes);
    assert Repeat(12, m.writable) == Items(12, m.writable, (b: Bytes) => b);
    assert Repeat(13, m.readonly) == Items(13, m.readonly, (b: Bytes) => b);
  }

  lemma TxInfoLayout(t: TxInfo)
    ensures TxInfoBytes(t) == WriteGroups([
      [Record(1, t.signature)],
      If(t.isVote, Number(2, 1)),
      [Record(3, SanitizedBytes(t.transaction))],
      [Record(4, MetaBytes(t.meta))],
      If(t.index != 0, Number(5, t.index))])
  {
  }

  // ---------------------------------------------------------------------------
  // Updates
  // ---------------------------------------------------------------------------

  /** The kind of update is the number of its field. */
  lemma UpdateLayout(m: Message, t: Timestamp)
    ensures UpdateBytes(m, t) == WriteAll([
      match m {
        case AccountMessage(a) => Record(2, AccountBytes(a))
        case SlotMessage(s) => Record(3, SlotBytes(s))
        case TransactionMessage(x) =>
          Record(4, WriteGroups([[Record(1, TxInfoBytes(x.info))], If(x.slot != 0, Number(2, x.slot))]))
        case BlockMetaMessage(b) => Record(7, BlockMetaBytes(b))
        case EntryMessage(e) => Record(8, EntryBytes(e))
      },
      Record(11, WriteGroups([
        If(t.seconds != 0, Number(1, Signed(t.seconds))),
        If(t.nanos != 0, Number(2, Signed(t.nanos)))]))])
  {
    TimestampLayout(t);
    BodyLayout(m);
  }

  lemma TimestampLayout(t: Timestamp)
    ensures TimestampBytes(t) == WriteGroups([
      If(t.seconds != 0, Number(1, Signed(t.seconds))),
      If(t.nanos != 0, Number(2, Signed(t.nanos)))])
  {
    assert Signed(t.seconds) == AsU64(t.seconds) && Signed(t.nanos) == AsU64(t.nanos);
  }

  lemma BodyLayout(m: Message)
    ensures Record(TagOf(m), BodyBytes(m)) ==
      match m {
        case AccountMessage(a) => Record(2, AccountBytes(a))
        case SlotMessage(s) => Record(3, SlotBytes(s))
        case TransactionMessage(x) =>
          Record(4, WriteGroups([[Record(1, TxInfoBytes(x.info))], If(x.slot != 0, Number(2, x.slot))]))
        case BlockMetaMessage(b) => Record(7, BlockMetaBytes(b))
        case EntryMessage(e) => Record(8, EntryBytes(e))
      }
  {
  }

  /** All that the wire cannot tell apart: an absent list of token balances or
      rewards is an empty one, and an absent amount is zero. */
  lemma NormalShows(m: Meta)
    ensures var n := NormalMeta(m);
      && n.error == m.error && n.fee == m.fee && n.preBalances == m.preBalances && n.postBalances == m.postBalances
      && n.inner == m.inner && n.logs == m.logs && n.writable == m.writable && n.readonly == m.readonly
      && n.returnData == m.returnData && n.computeUnits == m.computeUnits
      && n.rewards == Some(if m.rewards.Some? then m.rewards.value else [])
      && AlikeList(m.preTokens, n.preTokens) && AlikeList(m.postTokens, n.postTokens)
  {
  }

  ghost predicate AlikeList(ts: Option<seq<TokenBalance>>, ns: Option<seq<TokenBalance>>) {
    && ns.Some? && |ns.value| == (if ts.Some? then |ts.value| else 0)
    && forall i :: 0 <= i < |ns.value| ==> Alike(ts.value[i], ns.value[i])
  }

  ghost predicate Alike(t: TokenBalance, n: TokenBalance) {
    && n.accountIndex == t.accountIndex && n.mint == t.mint && n.owner == t.owner && n.programId == t.programId
    && n.amount.decimals == t.amount.decimals && n.amount.amount == t.amount.amount
    && n.amount.amountString == t.amount.amountString
    && (n.amount.amountUi != t.amount.amountUi ==>
          && n.amount.amountUi.None? && t.amount.amountUi.Some?
          && forall i :: 0 <= i < 7 ==> t.amount.amountUi.value[i] == 0)
  }
}
