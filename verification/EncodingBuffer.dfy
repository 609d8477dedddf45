/** Encoding in place.  `encode_raw` appends to an output buffer, every nested
    message is preceded by the length that `encoded_len` predicts, and a
    transaction error is serialised into a buffer that the whole thread shares:
    predicting its length fills that buffer, writing it only copies from it. */
module EncodingBuffer {
  import opened Base
  import opened Wire
  import opened Encoding
  import opened EncodingTransaction
  import opened EncodingUpdate

  /** Of a message that took `before` to `before + WriteGroups(gs)`, the first `i` groups are written. */
  ghost predicate Wrote(before: Bytes, out: Bytes, gs: Groups, i: nat) {
    out + WriteAll(Flat(gs, i)) == before + WriteGroups(gs)
  }

  lemma Shift(total: Bytes, was: Bytes, out: Bytes, a: Bytes, b: Bytes)
    requires was + (a + b) == total && out == was + a
    ensures out + b == total
  {
  }

  lemma Advance(before: Bytes, was: Bytes, out: Bytes, gs: Groups, i: nat, c: seq<Field>)
    requires i < |gs| && Wrote(before, was, gs, i) && gs[i] == c && out == was + WriteAll(c)
    ensures Wrote(before, out, gs, i + 1)
  {
    var rest := Flat(gs, i + 1);
    assert Flat(gs, i) == c + rest;
    WriteConcat(c, rest);
    Shift(before + WriteGroups(gs), was, out, WriteAll(c), WriteAll(rest));
  }

  lemma Finish(before: Bytes, out: Bytes, gs: Groups)
    requires Wrote(before, out, gs, |gs|)
    ensures out == before + WriteGroups(gs)
  {
  }

  /** A message of two groups is one after the other. */
  lemma TwoGroups(before: Bytes, out: Bytes, gs: Groups)
    requires |gs| == 2 && out == before + WriteAll(gs[0]) + WriteAll(gs[1])
    ensures out == before + WriteGroups(gs)
  {
    var a := before + WriteAll(gs[0]);
    Advance(before, before, a, gs, 0, gs[0]);
    Advance(before, a, out, gs, 1, gs[1]);
    Finish(before, out, gs);
  }

  lemma ThreeMore(before: Bytes, was: Bytes, out: Bytes, gs: Groups, i: nat)
    requires i + 3 <= |gs| && Wrote(before, was, gs, i)
    requires out == was + WriteAll(gs[i]) + WriteAll(gs[i + 1]) + WriteAll(gs[i + 2])
    ensures Wrote(before, out, gs, i + 3)
  {
    var a := was + WriteAll(gs[i]);
    var b := a + WriteAll(gs[i + 1]);
    Advance(before, was, a, gs, i, gs[i]);
    Advance(before, a, b, gs, i + 1, gs[i + 1]);
    Advance(before, b, out, gs, i + 2, gs[i + 2]);
  }

  /** And so is one of five, of six, of nine. */
  lemma FiveGroups(before: Bytes, mid: Bytes, out: Bytes, gs: Groups)
    requires |gs| == 5 && mid == before + WriteAll(gs[0]) + WriteAll(gs[1]) + WriteAll(gs[2])
    requires out == mid + WriteAll(gs[3]) + WriteAll(gs[4])
    ensures out == before + WriteGroups(gs)
  {
    var d := mid + WriteAll(gs[3]);
    ThreeMore(before, before, mid, gs, 0);
    Advance(before, mid, d, gs, 3, gs[3]);
    Advance(before, d, out, gs, 4, gs[4]);
    Finish(before, out, gs);
  }

  lemma SixGroups(before: Bytes, mid: Bytes, out: Bytes, gs: Groups)
    requires |gs| == 6 && mid == before + WriteAll(gs[0]) + WriteAll(gs[1]) + WriteAll(gs[2])
    requires out == mid + WriteAll(gs[3]) + WriteAll(gs[4]) + WriteAll(gs[5])
    ensures out == before + WriteGroups(gs)
  {
    FirstSix(before, mid, out, gs);
    Finish(before, out, gs);
  }

  lemma NineGroups(before: Bytes, a: Bytes, b: Bytes, out: Bytes, gs: Groups)
    requires |gs| == 9 && a == before + WriteAll(gs[0]) + WriteAll(gs[1]) + WriteAll(gs[2])
    requires b == a + WriteAll(gs[3]) + WriteAll(gs[4]) + WriteAll(gs[5])
    requires out == b + WriteAll(gs[6]) + WriteAll(gs[7]) + WriteAll(gs[8])
    ensures out == before + WriteGroups(gs)
  {
    FirstSix(before, a, b, gs);
    ThreeMore(before, b, out, gs, 6);
    Finish(before, out, gs);
  }

  lemma FirstSix(before: Bytes, a: Bytes, b: Bytes, gs: Groups)
    requires |gs| >= 6 && a == before + WriteAll(gs[0]) + WriteAll(gs[1]) + WriteAll(gs[2])
    requires b == a + WriteAll(gs[3]) + WriteAll(gs[4]) + WriteAll(gs[5])
    ensures Wrote(before, b, gs, 6)
  {
    ThreeMore(before, before, a, gs, 0);
    ThreeMore(before, a, b, gs, 3);
  }

  lemma InfoJoined(before: Bytes, mid: Bytes, out: Bytes, t: TxInfo, transaction: Bytes, meta: Bytes)
    requires mid == before + WriteAll(Rec(1, t.signature)) + WriteAll(Flag(2, t.isVote)) + WriteAll(Rec(3, transaction))
    requires out == mid + WriteAll(Rec(4, meta)) + WriteAll(Num(5, t.index))
    ensures out == before + WriteGroups(TxInfoParts(t, transaction, meta))
  {
    FiveGroups(before, mid, out, TxInfoParts(t, transaction, meta));
  }

  lemma BlockMetaJoined(before: Bytes, a: Bytes, b: Bytes, out: Bytes, m: BlockMeta,
                        rewards: Bytes, time: Option<Bytes>, height: Option<Bytes>)
    requires a == before + WriteAll(Num(1, m.slot)) + WriteAll(NonEmpty(2, m.blockhash)) + WriteAll(Rec(3, rewards))
    requires b == a + WriteAll(OptRec(4, time)) + WriteAll(OptRec(5, height)) + WriteAll(Num(6, m.parentSlot))
    requires out == b + WriteAll(NonEmpty(7, m.parentBlockhash)) + WriteAll(Num(8, m.transactions))
                    + WriteAll(Num(9, m.entries))
    ensures out == before + WriteGroups(BlockMetaParts(m, rewards, time, height))
  {
    NineGroups(before, a, b, out, BlockMetaParts(m, rewards, time, height));
  }

  lemma BalanceJoined(before: Bytes, mid: Bytes, out: Bytes, t: TokenBalance, amount: Bytes)
    requires mid == before + WriteAll(Num(1, t.accountIndex)) + WriteAll(NonEmpty(2, t.mint)) + WriteAll(Rec(3, amount))
    requires out == mid + WriteAll(NonEmpty(4, t.owner)) + WriteAll(NonEmpty(5, t.programId))
    ensures out == before + WriteGroups(BalanceParts(t, amount))
  {
    FiveGroups(before, mid, out, BalanceParts(t, amount));
  }

  lemma TransactionJoined(before: Bytes, out: Bytes, info: Bytes, slot: nat)
    requires out == before + WriteAll(Rec(1, info)) + WriteAll(Num(2, slot))
    ensures out == before + WriteGroups(TxUpdateParts(info, slot))
  {
    TwoGroups(before, out, TxUpdateParts(info, slot));
  }

  lemma OneField(f: Field)
    ensures WriteAll([f]) == Write(f)
  {
    assert [f][1..] == [];
  }

  lemma NextField(before: Bytes, was: Bytes, out: Bytes, c: seq<Field>, i: nat, f: Field)
    requires i < |c| && c[i] == f && was + WriteAll(c[i..]) == before + WriteAll(c) && out == was + WriteAll([f])
    ensures out + WriteAll(c[i + 1..]) == before + WriteAll(c)
  {
    var rest := c[i + 1..];
    assert c[i..] == [f] + rest;
    WriteConcat([f], rest);
    Shift(before + WriteAll(c), was, out, WriteAll([f]), WriteAll(rest));
  }

  /** A record is its key, the length of its payload, and the payload. */
  lemma Framed(was: Bytes, tag: nat, body: Bytes, out: Bytes)
    requires out == was + Varint(8 * tag + 2) + Varint(|body|) + body
    ensures out == was + WriteAll(Rec(tag, body))
  {
    OneField(Record(tag, body));
  }

  /** The groups of a status meta, a few at a time. */
  ghost predicate HeadGroups(m: Meta, error: Option<Bytes>, gs: Groups) {
    && |gs| >= 4 && gs[0] == OptRec(1, error) && gs[1] == Num(2, m.fee)
    && gs[2] == Packed(3, m.preBalances) && gs[3] == Packed(4, m.postBalances)
  }

  ghost predicate ListGroups(m: Meta, gs: Groups) {
    && |gs| >= 7 && gs[4] == Repeat(5, Each(Listed(m.inner), InnerBytes)) && gs[5] == Repeat(6, Listed(m.logs))
    && gs[6] == Repeat(7, Each(Listed(m.preTokens), BalanceBytes))
  }

  ghost predicate MoreListGroups(m: Meta, gs: Groups) {
    && |gs| >= 9 && gs[7] == Repeat(8, Each(Listed(m.postTokens), BalanceBytes))
    && gs[8] == Repeat(9, Each(Listed(m.rewards), RewardBytes))
  }

  ghost predicate FlagGroups(m: Meta, gs: Groups) {
    && |gs| >= 13 && gs[9] == Flag(10, m.inner.None?) && gs[10] == Flag(11, m.logs.None?)
    && gs[11] == Repeat(12, m.writable) && gs[12] == Repeat(13, m.readonly)
  }

  ghost predicate LastGroups(m: Meta, gs: Groups) {
    && |gs| >= 16 && gs[13] == OptRec(14, ReturnIf(m.returnData)) && gs[14] == Flag(15, m.returnData.None?)
    && gs[15] == OptNum(16, m.computeUnits)
  }

  function ReturnIf(r: Option<ReturnData>): Option<Bytes> {
    if r.Some? then Some(ReturnBytes(r.value)) else None
  }

  lemma FirstGroups(m: Meta, x: Nested, gs: Groups)
    requires gs == MetaParts(m, x) && x == NestedOf(m)
    ensures HeadGroups(m, x.error, gs) && ListGroups(m, gs)
  {
    assert forall i :: 0 <= i < 8 ==> gs[i] == MetaFirst(m, x)[i];
  }

  lemma RestGroups(m: Meta, x: Nested, gs: Groups)
    requires gs == MetaParts(m, x) && x == NestedOf(m)
    ensures MoreListGroups(m, gs) && FlagGroups(m, gs) && LastGroups(m, gs)
  {
    assert gs[7] == MetaFirst(m, x)[7];
    assert forall i :: 0 <= i < 8 ==> gs[8 + i] == MetaRest(m, x)[i];
  }

  lemma MetaGroups(m: Meta, x: Nested, gs: Groups)
    requires gs == MetaParts(m, x) && x == NestedOf(m)
    ensures |gs| == 16 && HeadGroups(m, x.error, gs) && ListGroups(m, gs) && MoreListGroups(m, gs)
    ensures FlagGroups(m, gs) && LastGroups(m, gs)
  {
    FirstGroups(m, x, gs);
    RestGroups(m, x, gs);
  }

  /** What the shared buffer holds once lengths were predicted. */
  function Memo(error: Option<Bytes>, before: Bytes): Bytes {
    if error.Some? then error.value else before
  }

  class Encoder {
    var out: Bytes
    var memo: Bytes    // the thread's error buffer, holding whatever was left there

    constructor (left: Bytes)
      ensures out == [] && memo == left
    {
      out, memo := [], left;
    }

    method PutFields(fs: seq<Field>)
      modifies this`out
      ensures out == old(out) + WriteAll(fs)
    {
      var i := 0;
      while i < |fs|
        invariant i <= |fs|
        invariant out + WriteAll(fs[i..]) == old(out) + WriteAll(fs)
      {
        ghost var was := out;
        out := out + Write(fs[i]);
        OneField(fs[i]);
        NextField(old(out), was, out, fs, i, fs[i]);
        i := i + 1;
      }
    }

    /** The groups of a message without nested messages, field by field. */
    method PutGroups(gs: Groups)
      modifies this`out
      ensures out == old(out) + WriteGroups(gs)
    {
      var i := 0;
      while i < |gs|
        invariant i <= |gs| && Wrote(old(out), out, gs, i)
      {
        PutGroup(old(out), gs, i, gs[i]);
        i := i + 1;
      }
      Finish(old(out), out, gs);
    }

    /** Such a message as a field, with its predicted length in front. */
    method PutLeaf(tag: nat, len: nat, gs: Groups)
      requires len == |WriteGroups(gs)|
      modifies this`out
      ensures out == old(out) + WriteAll(Rec(tag, WriteGroups(gs)))
    {
      out := out + Varint(8 * tag + 2);
      out := out + Varint(len);
      PutGroups(gs);
      Framed(old(out), tag, WriteGroups(gs), out);
    }

    /** One such field for each element. */
    method PutLeaves<T(!new)>(tag: nat, xs: seq<T>, groups: T -> Groups, len: T -> nat, ghost write: T -> Bytes)
      requires forall x :: write(x) == WriteGroups(groups(x)) && |write(x)| == len(x)
      modifies this`out
      ensures out == old(out) + WriteAll(Repeat(tag, Each(xs, write)))
    {
      ghost var c := Repeat(tag, Each(xs, write));
      var i := 0;
      while i < |xs|
        invariant i <= |xs|
        invariant out + WriteAll(c[i..]) == old(out) + WriteAll(c)
      {
        ghost var was := out;
        assert write(xs[i]) == WriteGroups(groups(xs[i]));
        PutLeaf(tag, len(xs[i]), groups(xs[i]));
        NextField(old(out), was, out, c, i, Record(tag, write(xs[i])));
        i := i + 1;
      }
    }

    // -------------------------------------------------------------------------
    // Accounts and block metas
    // -------------------------------------------------------------------------

    method AccountRaw(a: Account)
      modifies this`out
      ensures out == old(out) + AccountBytes(a)
    {
      AccountInfoOk(a.info);
      PutLeaf(1, AccountInfoLen(a.info), AccountInfoGroups(a.info));
      PutFields(Num(2, a.slot));
      TwoGroups(old(out), out, AccountParts(AccountInfoBytes(a.info), a.slot));
    }

    /** A message that wraps a number, if there is one. */
    method PutWrapped(tag: nat, n: Option<nat>)
      modifies this`out
      ensures out == old(out) + WriteAll(OptRec(tag, WrappedIf(n)))
    {
      if n.Some? {
        WrappedOk(n.value);
        PutLeaf(tag, WrappedLen(n.value), [Num(1, n.value)]);
      }
    }

    method RewardsRaw(r: Rewards)
      modifies this`out
      ensures out == old(out) + RewardsBytes(r)
    {
      EncodeRewardList(1, r.rewards);
      PutWrapped(2, r.partitions);
      TwoGroups(old(out), out, RewardsParts(Each(r.rewards, RewardBytes), WrappedIf(r.partitions)));
    }

    method EncodeRewards(tag: nat, r: Rewards)
      modifies this`out
      ensures out == old(out) + WriteAll(Rec(tag, RewardsBytes(r)))
    {
      RewardsOk(r);
      out := out + Varint(8 * tag + 2);
      out := out + Varint(RewardsLen(r));
      RewardsRaw(r);
      Framed(old(out), tag, RewardsBytes(r), out);
    }

    method BlockMetaFirst(m: BlockMeta)
      modifies this`out
      ensures out == old(out) + WriteAll(Num(1, m.slot)) + WriteAll(NonEmpty(2, m.blockhash))
                     + WriteAll(Rec(3, RewardsBytes(m.rewards)))
    {
      PutFields(Num(1, m.slot));
      PutFields(NonEmpty(2, m.blockhash));
      EncodeRewards(3, m.rewards);
    }

    method BlockMetaSecond(m: BlockMeta)
      modifies this`out
      ensures out == old(out) + WriteAll(OptRec(4, WrappedIf(TimeNumber(m.blockTime))))
                     + WriteAll(OptRec(5, WrappedIf(m.blockHeight))) + WriteAll(Num(6, m.parentSlot))
    {
      PutWrapped(4, TimeNumber(m.blockTime));
      PutWrapped(5, m.blockHeight);
      PutFields(Num(6, m.parentSlot));
    }

    method BlockMetaThird(m: BlockMeta)
      modifies this`out
      ensures out == old(out) + WriteAll(NonEmpty(7, m.parentBlockhash)) + WriteAll(Num(8, m.transactions))
                     + WriteAll(Num(9, m.entries))
    {
      PutFields(NonEmpty(7, m.parentBlockhash));
      PutFields(Num(8, m.transactions));
      PutFields(Num(9, m.entries));
    }

    method BlockMetaRaw(m: BlockMeta)
      modifies this`out
      ensures out == old(out) + BlockMetaBytes(m)
    {
      BlockMetaFirst(m);
      ghost var a := out;
      BlockMetaSecond(m);
      ghost var b := out;
      BlockMetaThird(m);
      BlockMetaJoined(old(out), a, b, out, m, RewardsBytes(m.rewards), WrappedIf(TimeNumber(m.blockTime)),
                      WrappedIf(m.blockHeight));
    }

    // -------------------------------------------------------------------------
    // Transactions
    // -------------------------------------------------------------------------

    method TxMessageFirst(m: TxMessage)
      modifies this`out
      ensures out == old(out) + WriteAll(Rec(1, HeaderBytes(m.header))) + WriteAll(Repeat(2, m.keys))
                     + WriteAll(Rec(3, m.blockhash))
    {
      HeaderOk(m.header);
      PutLeaf(1, HeaderLen(m.header), HeaderGroups(m.header));
      PutFields(Repeat(2, m.keys));
      PutFields(Rec(3, m.blockhash));
    }

    method TxMessageSecond(m: TxMessage)
      modifies this`out
      ensures out == old(out) + WriteAll(Repeat(4, Each(m.instructions, InstructionBytes)))
                     + WriteAll(Flag(5, m.lookups.Some?)) + WriteAll(Repeat(6, Each(Lookups(m), LookupBytes)))
    {
      EncodeInstructions(4, m.instructions);
      PutFields(Flag(5, m.lookups.Some?));
      EncodeLookups(6, Lookups(m));
    }

    method EncodeInstructions(tag: nat, xs: seq<Instruction>)
      modifies this`out
      ensures out == old(out) + WriteAll(Repeat(tag, Each(xs, InstructionBytes)))
    {
      forall x
        ensures InstructionBytes(x) == WriteGroups(InstructionGroups(x)) && |InstructionBytes(x)| == InstructionLen(x)
      {
        InstructionOk(x);
      }
      PutLeaves(tag, xs, InstructionGroups, InstructionLen, InstructionBytes);
    }

    method EncodeLookups(tag: nat, xs: seq<Lookup>)
      modifies this`out
      ensures out == old(out) + WriteAll(Repeat(tag, Each(xs, LookupBytes)))
    {
      forall x
        ensures LookupBytes(x) == WriteGroups(LookupGroups(x)) && |LookupBytes(x)| == LookupLen(x)
      {
        LookupOk(x);
      }
      PutLeaves(tag, xs, LookupGroups, LookupLen, LookupBytes);
    }

    method TxMessageRaw(m: TxMessage)
      modifies this`out
      ensures out == old(out) + TxMessageBytes(m)
    {
      TxMessageFirst(m);
      ghost var mid := out;
      TxMessageSecond(m);
      SixGroups(old(out), mid, out, TxMessageParts(m, HeaderBytes(m.header), Each(m.instructions, InstructionBytes),
                                                   Each(Lookups(m), LookupBytes)));
    }

    method EncodeTxMessage(tag: nat, m: TxMessage)
      modifies this`out
      ensures out == old(out) + WriteAll(Rec(tag, TxMessageBytes(m)))
    {
      TxMessageOk(m);
      out := out + Varint(8 * tag + 2);
      out := out + Varint(TxMessageLen(m));
      TxMessageRaw(m);
      Framed(old(out), tag, TxMessageBytes(m), out);
    }

    method SanitizedRaw(t: Sanitized)
      modifies this`out
      ensures out == old(out) + SanitizedBytes(t)
    {
      PutFields(Repeat(1, t.signatures));
      EncodeTxMessage(2, t.message);
      TwoGroups(old(out), out, SanitizedParts(t.signatures, TxMessageBytes(t.message)));
    }

    method EncodeSanitized(tag: nat, t: Sanitized)
      modifies this`out
      ensures out == old(out) + WriteAll(Rec(tag, SanitizedBytes(t)))
    {
      SanitizedOk(t);
      out := out + Varint(8 * tag + 2);
      out := out + Varint(SanitizedLen(t));
      SanitizedRaw(t);
      Framed(old(out), tag, SanitizedBytes(t), out);
    }

    // -------------------------------------------------------------------------
    // Lists of the status meta
    // -------------------------------------------------------------------------

    method InnerRaw(x: InnerInstructions)
      modifies this`out
      ensures out == old(out) + InnerBytes(x)
    {
      forall i ensures InnerInstructionBytes(i) == WriteGroups(InnerInstructionGroups(i))
                    && |InnerInstructionBytes(i)| == InnerInstructionLen(i) { InnerInstructionOk(i); }
      PutFields(Num(1, x.index));
      PutLeaves(2, x.instructions, InnerInstructionGroups, InnerInstructionLen, InnerInstructionBytes);
      TwoGroups(old(out), out, InnerParts(x.index, Each(x.instructions, InnerInstructionBytes)));
    }

    method EncodeInner(tag: nat, x: InnerInstructions)
      modifies this`out
      ensures out == old(out) + WriteAll(Rec(tag, InnerBytes(x)))
    {
      InnerOk(x);
      out := out + Varint(8 * tag + 2);
      out := out + Varint(InnerLen(x));
      InnerRaw(x);
      Framed(old(out), tag, InnerBytes(x), out);
    }

    method EncodeInners(tag: nat, xs: seq<InnerInstructions>)
      modifies this`out
      ensures out == old(out) + WriteAll(Repeat(tag, Each(xs, InnerBytes)))
    {
      ghost var c := Repeat(tag, Each(xs, InnerBytes));
      var i := 0;
      while i < |xs|
        invariant i <= |xs|
        invariant out + WriteAll(c[i..]) == old(out) + WriteAll(c)
      {
        ghost var was := out;
        EncodeInner(tag, xs[i]);
        NextField(old(out), was, out, c, i, Record(tag, InnerBytes(xs[i])));
        i := i + 1;
      }
    }

    method BalanceRaw(t: TokenBalance)
      modifies this`out
      ensures out == old(out) + BalanceBytes(t)
    {
      UiOk(t.amount);
      PutFields(Num(1, t.accountIndex));
      PutFields(NonEmpty(2, t.mint));
      PutLeaf(3, UiLen(t.amount), UiGroups(t.amount));
      ghost var mid := out;
      PutFields(NonEmpty(4, t.owner));
      PutFields(NonEmpty(5, t.programId));
      BalanceJoined(old(out), mid, out, t, UiBytes(t.amount));
    }

    method EncodeBalance(tag: nat, t: TokenBalance)
      modifies this`out
      ensures out == old(out) + WriteAll(Rec(tag, BalanceBytes(t)))
    {
      BalanceOk(t);
      out := out + Varint(8 * tag + 2);
      out := out + Varint(BalanceLen(t));
      BalanceRaw(t);
      Framed(old(out), tag, BalanceBytes(t), out);
    }

    method EncodeBalances(tag: nat, xs: seq<TokenBalance>)
      modifies this`out
      ensures out == old(out) + WriteAll(Repeat(tag, Each(xs, BalanceBytes)))
    {
      ghost var c := Repeat(tag, Each(xs, BalanceBytes));
      var i := 0;
      while i < |xs|
        invariant i <= |xs|
        invariant out + WriteAll(c[i..]) == old(out) + WriteAll(c)
      {
        ghost var was := out;
        EncodeBalance(tag, xs[i]);
        NextField(old(out), was, out, c, i, Record(tag, BalanceBytes(xs[i])));
        i := i + 1;
      }
    }

    method EncodeRewardList(tag: nat, xs: seq<Reward>)
      modifies this`out
      ensures out == old(out) + WriteAll(Repeat(tag, Each(xs, RewardBytes)))
    {
      forall x
        ensures RewardBytes(x) == WriteGroups(RewardGroups(x)) && |RewardBytes(x)| == RewardLen(x)
      {
        RewardOk(x);
      }
      PutLeaves(tag, xs, RewardGroups, RewardLen, RewardBytes);
    }

    /** Nothing at all for an absent list. */
    method MetaInners(ghost before: Bytes, ghost gs: Groups, ghost i: nat, tag: nat, xs: Option<seq<InnerInstructions>>)
      requires i < |gs| && gs[i] == Repeat(tag, Each(Listed(xs), InnerBytes)) && Wrote(before, out, gs, i)
      modifies this`out
      ensures Wrote(before, out, gs, i + 1)
    {
      if xs.Some? { EncodeInners(tag, xs.value); }
      Advance(before, old(out), out, gs, i, gs[i]);
    }

    method MetaTokens(ghost before: Bytes, ghost gs: Groups, ghost i: nat, tag: nat, xs: Option<seq<TokenBalance>>)
      requires i < |gs| && gs[i] == Repeat(tag, Each(Listed(xs), BalanceBytes)) && Wrote(before, out, gs, i)
      modifies this`out
      ensures Wrote(before, out, gs, i + 1)
    {
      if xs.Some? { EncodeBalances(tag, xs.value); }
      Advance(before, old(out), out, gs, i, gs[i]);
    }

    method MetaRewards(ghost before: Bytes, ghost gs: Groups, ghost i: nat, tag: nat, xs: Option<seq<Reward>>)
      requires i < |gs| && gs[i] == Repeat(tag, Each(Listed(xs), RewardBytes)) && Wrote(before, out, gs, i)
      modifies this`out
      ensures Wrote(before, out, gs, i + 1)
    {
      if xs.Some? { EncodeRewardList(tag, xs.value); }
      Advance(before, old(out), out, gs, i, gs[i]);
    }

    // -------------------------------------------------------------------------
    // Errors
    // -------------------------------------------------------------------------

    method ErrorLength(e: Bytes) returns (len: nat)
      modifies this`memo
      ensures len == |ErrorBytes(e)| && memo == e
    {
      ErrorOk(e);
      memo := [];
      memo := memo + e;
      len := if memo != [] then RecordLen(1, |memo|) else 0;
    }

    /** Copies the buffer, which must hold this very error. */
    method ErrorRaw(ghost e: Bytes)
      requires memo == e
      modifies this`out
      ensures out == old(out) + ErrorBytes(e)
    {
      ghost var gs := [NonEmpty(1, e)];
      assert Flat(gs, 1) == [] && Flat(gs, 0) == gs[0];
      if memo != [] { PutFields([Record(1, memo)]); }
    }

    method EncodeError(tag: nat, e: Bytes)
      modifies this
      ensures out == old(out) + WriteAll(Rec(tag, ErrorBytes(e))) && memo == e
    {
      out := out + Varint(8 * tag + 2);
      var len := ErrorLength(e);
      out := out + Varint(len);
      ErrorRaw(e);
      Framed(old(out), tag, ErrorBytes(e), out);
    }

    // -------------------------------------------------------------------------
    // The status meta
    // -------------------------------------------------------------------------

    method MetaLength(m: Meta) returns (len: nat)
      modifies this`memo
      ensures len == |MetaBytes(m)| && memo == Memo(m.error, old(memo))
    {
      MetaOk(m);
      len := 0;
      if m.error.Some? {
        ErrorOk(m.error.value);
        len := ErrorLength(m.error.value);
        len := RecordLen(1, len);
      }
      len := len + MetaSecondLen(m) + MetaRestLen(m);
    }

    /** Group `i` of a message, field by field. */
    method PutGroup(ghost before: Bytes, ghost gs: Groups, ghost i: nat, c: seq<Field>)
      requires i < |gs| && gs[i] == c && Wrote(before, out, gs, i)
      modifies this`out
      ensures Wrote(before, out, gs, i + 1)
    {
      PutFields(c);
      Advance(before, old(out), out, gs, i, c);
    }

    method EncodeOptError(tag: nat, e: Option<Bytes>, ghost bytes: Option<Bytes>)
      requires bytes == if e.Some? then Some(ErrorBytes(e.value)) else None
      modifies this
      ensures out == old(out) + WriteAll(OptRec(tag, bytes)) && memo == Memo(e, old(memo))
    {
      if e.Some? { EncodeError(tag, e.value); }
    }

    method MetaRawFirst(m: Meta, ghost before: Bytes, ghost error: Option<Bytes>, ghost gs: Groups)
      requires |gs| >= 2 && gs[0] == OptRec(1, error) && gs[1] == Num(2, m.fee)
      requires error == (if m.error.Some? then Some(ErrorBytes(m.error.value)) else None) && Wrote(before, out, gs, 0)
      modifies this
      ensures Wrote(before, out, gs, 2) && memo == Memo(m.error, old(memo))
    {
      EncodeOptError(1, m.error, error);
      Advance(before, old(out), out, gs, 0, OptRec(1, error));
      PutGroup(before, gs, 1, Num(2, m.fee));
    }

    method MetaRawBalances(m: Meta, ghost before: Bytes, ghost gs: Groups)
      requires |gs| >= 4 && gs[2] == Packed(3, m.preBalances) && gs[3] == Packed(4, m.postBalances)
      requires Wrote(before, out, gs, 2)
      modifies this`out
      ensures Wrote(before, out, gs, 4)
    {
      PutGroup(before, gs, 2, Packed(3, m.preBalances));
      PutGroup(before, gs, 3, Packed(4, m.postBalances));
    }

    method MetaRawLists(m: Meta, ghost before: Bytes, ghost gs: Groups)
      requires ListGroups(m, gs) && Wrote(before, out, gs, 4)
      modifies this`out
      ensures Wrote(before, out, gs, 7)
    {
      MetaInners(before, gs, 4, 5, m.inner);
      PutGroup(before, gs, 5, Repeat(6, Listed(m.logs)));
      MetaTokens(before, gs, 6, 7, m.preTokens);
    }

    method MetaRawMoreLists(m: Meta, ghost before: Bytes, ghost gs: Groups)
      requires MoreListGroups(m, gs) && Wrote(before, out, gs, 7)
      modifies this`out
      ensures Wrote(before, out, gs, 9)
    {
      MetaTokens(before, gs, 7, 8, m.postTokens);
      MetaRewards(before, gs, 8, 9, m.rewards);
    }

    method MetaRawFlags(m: Meta, ghost before: Bytes, ghost gs: Groups)
      requires FlagGroups(m, gs) && Wrote(before, out, gs, 9)
      modifies this`out
      ensures Wrote(before, out, gs, 13)
    {
      PutGroup(before, gs, 9, Flag(10, m.inner.None?));
      PutGroup(before, gs, 10, Flag(11, m.logs.None?));
      PutGroup(before, gs, 11, Repeat(12, m.writable));
      PutGroup(before, gs, 12, Repeat(13, m.readonly));
    }

    method EncodeOptReturn(tag: nat, r: Option<ReturnData>)
      modifies this`out
      ensures out == old(out) + WriteAll(OptRec(tag, ReturnIf(r)))
    {
      if r.Some? { EncodeReturn(tag, r.value); }
    }

    method MetaRawLast(m: Meta, ghost before: Bytes, ghost gs: Groups)
      requires LastGroups(m, gs) && Wrote(before, out, gs, 13)
      modifies this`out
      ensures Wrote(before, out, gs, 16)
    {
      EncodeOptReturn(14, m.returnData);
      Advance(before, old(out), out, gs, 13, gs[13]);
      PutGroup(before, gs, 14, Flag(15, m.returnData.None?));
      PutGroup(before, gs, 15, OptNum(16, m.computeUnits));
    }

    method EncodeReturn(tag: nat, r: ReturnData)
      modifies this`out
      ensures out == old(out) + WriteAll(Rec(tag, ReturnBytes(r)))
    {
      ReturnOk(r);
      PutLeaf(tag, ReturnLen(r), ReturnGroups(r));
    }

    method MetaRawHead(m: Meta, ghost before: Bytes, ghost error: Option<Bytes>, ghost gs: Groups)
      requires HeadGroups(m, error, gs) && Wrote(before, out, gs, 0)
      requires error == if m.error.Some? then Some(ErrorBytes(m.error.value)) else None
      modifies this
      ensures Wrote(before, out, gs, 4) && memo == Memo(m.error, old(memo))
    {
      MetaRawFirst(m, before, error, gs);
      MetaRawBalances(m, before, gs);
    }

    method MetaRawTail(m: Meta, ghost before: Bytes, ghost gs: Groups)
      requires ListGroups(m, gs) && MoreListGroups(m, gs) && FlagGroups(m, gs) && LastGroups(m, gs)
      requires Wrote(before, out, gs, 4)
      modifies this`out
      ensures Wrote(before, out, gs, 16)
    {
      MetaRawLists(m, before, gs);
      MetaRawMoreLists(m, before, gs);
      MetaRawFlags(m, before, gs);
      MetaRawLast(m, before, gs);
    }

    method MetaRaw(m: Meta)
      modifies this
      ensures out == old(out) + MetaBytes(m) && memo == Memo(m.error, old(memo))
    {
      ghost var x := NestedOf(m);
      ghost var gs := MetaParts(m, x);
      MetaGroups(m, x, gs);
      MetaRawHead(m, out, x.error, gs);
      MetaRawTail(m, old(out), gs);
      Finish(old(out), out, gs);
    }

    method EncodeMeta(tag: nat, m: Meta)
      modifies this
      ensures out == old(out) + WriteAll(Rec(tag, MetaBytes(m))) && memo == Memo(m.error, old(memo))
    {
      out := out + Varint(8 * tag + 2);
      var len := MetaLength(m);
      out := out + Varint(len);
      MetaRaw(m);
      Framed(old(out), tag, MetaBytes(m), out);
    }

    // -------------------------------------------------------------------------
    // The transaction update
    // -------------------------------------------------------------------------

    method InfoLength(t: TxInfo) returns (len: nat)
      modifies this`memo
      ensures len == |TxInfoBytes(t)| && memo == Memo(t.meta.error, old(memo))
    {
      TxInfoOk(t);
      MetaOk(t.meta);
      var meta := MetaLength(t.meta);
      len := RecordLen(1, |t.signature|) + (if t.isVote then KeyLen(2) + 1 else 0)
        + RecordLen(3, SanitizedLen(t.transaction)) + RecordLen(4, meta)
        + if t.index != 0 then NumberLen(5, t.index) else 0;
    }

    method InfoRaw(t: TxInfo)
      modifies this
      ensures out == old(out) + TxInfoBytes(t) && memo == Memo(t.meta.error, old(memo))
    {
      InfoRawFirst(t);
      ghost var mid := out;
      EncodeMeta(4, t.meta);
      PutFields(Num(5, t.index));
      InfoJoined(old(out), mid, out, t, SanitizedBytes(t.transaction), MetaBytes(t.meta));
    }

    method InfoRawFirst(t: TxInfo)
      modifies this`out
      ensures out == old(out) + WriteAll(Rec(1, t.signature)) + WriteAll(Flag(2, t.isVote))
                     + WriteAll(Rec(3, SanitizedBytes(t.transaction)))
    {
      PutFields(Rec(1, t.signature));
      PutFields(Flag(2, t.isVote));
      EncodeSanitized(3, t.transaction);
    }

    method EncodeInfo(tag: nat, t: TxInfo)
      modifies this
      ensures out == old(out) + WriteAll(Rec(tag, TxInfoBytes(t))) && memo == Memo(t.meta.error, old(memo))
    {
      out := out + Varint(8 * tag + 2);
      var len := InfoLength(t);
      out := out + Varint(len);
      InfoRaw(t);
      Framed(old(out), tag, TxInfoBytes(t), out);
    }

    method TransactionLength(t: TxUpdate) returns (len: nat)
      modifies this`memo
      ensures len == |TxUpdateBytes(t)| && memo == Memo(t.info.meta.error, old(memo))
    {
      TxUpdateOk(t);
      TxInfoOk(t.info);
      len := InfoLength(t.info);
      len := RecordLen(1, len) + if t.slot != 0 then NumberLen(2, t.slot) else 0;
    }

    method TransactionRaw(t: TxUpdate)
      modifies this
      ensures out == old(out) + TxUpdateBytes(t) && memo == Memo(t.info.meta.error, old(memo))
    {
      EncodeInfo(1, t.info);
      PutFields(Num(2, t.slot));
      TransactionJoined(old(out), out, TxInfoBytes(t.info), t.slot);
    }

    method EncodeTransaction(tag: nat, t: TxUpdate)
      modifies this
      ensures out == old(out) + WriteAll(Rec(tag, TxUpdateBytes(t))) && memo == Memo(t.info.meta.error, old(memo))
    {
      out := out + Varint(8 * tag + 2);
      var len := TransactionLength(t);
      out := out + Varint(len);
      TransactionRaw(t);
      Framed(old(out), tag, TxUpdateBytes(t), out);
    }

    // -------------------------------------------------------------------------
    // The update
    // -------------------------------------------------------------------------

    method BodyLength(m: Message) returns (len: nat)
      modifies this`memo
      ensures len == |BodyBytes(m)|
    {
      BodyLenOk(m);
      if m.TransactionMessage? { len := TransactionLength(m.transaction); } else { len := BodyLen(m); }
    }

    method EncodeBody(m: Message)
      modifies this
      ensures out == old(out) + WriteAll(Rec(TagOf(m), BodyBytes(m)))
    {
      if m.TransactionMessage? {
        EncodeTransaction(4, m.transaction);
      } else {
        BodyLenOk(m);
        out := out + Varint(8 * TagOf(m) + 2);
        out := out + Varint(BodyLen(m));
        BodyRaw(m);
        Framed(old(out), TagOf(m), BodyBytes(m), out);
      }
    }

    method BodyRaw(m: Message)
      requires !m.TransactionMessage?
      modifies this`out
      ensures out == old(out) + BodyBytes(m)
    {
      match m
      case AccountMessage(a) => AccountRaw(a);
      case SlotMessage(s) => PutGroups(SlotGroups(s));
      case BlockMetaMessage(b) => BlockMetaRaw(b);
      case EntryMessage(e) => PutGroups(EntryGroups(e));
    }

    method EncodeTime(tag: nat, t: Timestamp)
      modifies this`out
      ensures out == old(out) + WriteAll(Rec(tag, TimestampBytes(t)))
    {
      TimestampOk(t);
      PutLeaf(tag, TimestampLen(t), TimestampGroups(AsU64(t.seconds), AsU64(t.nanos)));
    }

    method EncodeParts(m: Message, createdAt: Timestamp, ghost body: Bytes, ghost time: Bytes)
      requires body == BodyBytes(m) && time == TimestampBytes(createdAt)
      modifies this
      ensures out == old(out) + EnvelopeBytes(TagOf(m), body, time)
    {
      EncodeBody(m);
      ghost var was := out;
      EncodeTime(11, createdAt);
      Enveloped(old(out), TagOf(m), body, time, was, out);
    }

    /** Whatever was left in the shared buffer, the bytes are those of the message,
        and exactly as many as were allocated. */
    method Encode(m: Message, createdAt: Timestamp) returns (capacity: nat)
      modifies this
      ensures out == old(out) + UpdateBytes(m, createdAt) && |UpdateBytes(m, createdAt)| == capacity
    {
      var len := BodyLength(m);
      capacity := RecordLen(TagOf(m), len) + RecordLen(11, TimestampLen(createdAt));
      EncodeParts(m, createdAt, BodyBytes(m), TimestampBytes(createdAt));
      TimestampOk(createdAt);
      EnvelopeLen(TagOf(m), BodyBytes(m), TimestampBytes(createdAt));
    }
  }

  lemma Enveloped(before: Bytes, tag: nat, body: Bytes, time: Bytes, mid: Bytes, out: Bytes)
    requires mid == before + WriteAll(Rec(tag, body)) && out == mid + WriteAll(Rec(11, time))
    ensures out == before + EnvelopeBytes(tag, body, time)
  {
    WriteConcat(Rec(tag, body), Rec(11, time));
    assert Rec(tag, body) + Rec(11, time) == [Record(tag, body), Record(11, time)];
    assert out == before + (WriteAll(Rec(tag, body)) + WriteAll(Rec(11, time)));
  }
}
