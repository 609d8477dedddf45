/** The encoders of a transaction update, the deepest tree of messages. */
module EncodingTransaction {
  import opened Base
  import opened Wire
  import opened Encoding

  type Signature = b: Bytes | |b| == 64 witness seq(64, _ => 0)
  type Pubkey = b: Bytes | |b| == 32 witness seq(32, _ => 0)

  function AsKeys(bs: seq<Bytes>): Option<seq<Pubkey>> {
    if forall i :: 0 <= i < |bs| ==> |bs[i]| == 32 then Some(bs) else None
  }

  function AsSignatures(bs: seq<Bytes>): Option<seq<Signature>> {
    if forall i :: 0 <= i < |bs| ==> |bs[i]| == 64 then Some(bs) else None
  }

  /** Keys are sized by one multiplication and written by a loop. */
  lemma KeysOk(tag: nat, keys: seq<Pubkey>)
    ensures Group(Repeat(tag, keys), tag, FixedItemsLen(tag, 32, |keys|))
    ensures AsKeys(Payloads(Repeat(tag, keys))) == Some(keys)
  {
    RepeatFixedLen(tag, keys, 32);
    RepeatRoundTrip(tag, keys);
  }

  lemma SignaturesOk(tag: nat, signatures: seq<Signature>)
    ensures Group(Repeat(tag, signatures), tag, FixedItemsLen(tag, 64, |signatures|))
    ensures AsSignatures(Payloads(Repeat(tag, signatures))) == Some(signatures)
  {
    RepeatFixedLen(tag, signatures, 64);
    RepeatRoundTrip(tag, signatures);
  }

  // ---------------------------------------------------------------------------
  // The transaction's message
  // ---------------------------------------------------------------------------

  datatype Header = Header(signatures: nat, readonlySigned: nat, readonlyUnsigned: nat)

  function HeaderGroups(h: Header): Groups {
    [Num(1, h.signatures), Num(2, h.readonlySigned), Num(3, h.readonlyUnsigned)]
  }

  function HeaderBytes(h: Header): Bytes { WriteGroups(HeaderGroups(h)) }

  function HeaderLen(h: Header): nat {
    (if h.signatures != 0 then NumberLen(1, h.signatures) else 0)
    + (if h.readonlySigned != 0 then NumberLen(2, h.readonlySigned) else 0)
    + (if h.readonlyUnsigned != 0 then NumberLen(3, h.readonlyUnsigned) else 0)
  }

  function ReadHeader(b: Bytes): Option<Header> {
    match ReadGroups(b, 3)
    case None => None
    case Some(g) => Some(Header(NumOr0(g[0]), NumOr0(g[1]), NumOr0(g[2])))
  }

  lemma HeaderOk(h: Header)
    ensures |HeaderBytes(h)| == HeaderLen(h) && ReadHeader(HeaderBytes(h)) == Some(h)
  {
    var gs := HeaderGroups(h);
    assert |WriteGroups(gs)| == HeaderLen(h) by { GroupsLen(gs); }
    assert ReadHeader(WriteGroups(gs)) == Some(h) by { GroupsRoundTrip(gs); }
  }

  datatype Instruction = Instruction(programIdIndex: nat, accounts: Bytes, data: Bytes)

  function InstructionGroups(i: Instruction): Groups {
    [Num(1, i.programIdIndex), NonEmpty(2, i.accounts), NonEmpty(3, i.data)]
  }

  function InstructionBytes(i: Instruction): Bytes { WriteGroups(InstructionGroups(i)) }

  function InstructionLen(i: Instruction): nat {
    (if i.programIdIndex != 0 then NumberLen(1, i.programIdIndex) else 0)
    + (if i.accounts != [] then RecordLen(2, |i.accounts|) else 0)
    + (if i.data != [] then RecordLen(3, |i.data|) else 0)
  }

  function ReadInstruction(b: Bytes): Option<Instruction> {
    match ReadGroups(b, 3)
    case None => None
    case Some(g) => Some(Instruction(NumOr0(g[0]), RecOrEmpty(g[1]), RecOrEmpty(g[2])))
  }

  lemma InstructionOk(i: Instruction)
    ensures |InstructionBytes(i)| == InstructionLen(i) && ReadInstruction(InstructionBytes(i)) == Some(i)
  {
    var gs := InstructionGroups(i);
    assert |WriteGroups(gs)| == InstructionLen(i) by { GroupsLen(gs); }
    assert ReadInstruction(WriteGroups(gs)) == Some(i) by { GroupsRoundTrip(gs); }
  }

  datatype Lookup = Lookup(accountKey: Pubkey, writable: Bytes, readonly: Bytes)

  function LookupGroups(l: Lookup): Groups {
    [Rec(1, l.accountKey), NonEmpty(2, l.writable), NonEmpty(3, l.readonly)]
  }

  function LookupBytes(l: Lookup): Bytes { WriteGroups(LookupGroups(l)) }

  function LookupLen(l: Lookup): nat {
    RecordLen(1, |l.accountKey|)
    + (if l.writable != [] then RecordLen(2, |l.writable|) else 0)
    + (if l.readonly != [] then RecordLen(3, |l.readonly|) else 0)
  }

  function ReadLookup(b: Bytes): Option<Lookup> {
    match ReadGroups(b, 3)
    case None => None
    case Some(g) =>
      var key := RecOrEmpty(g[0]);
      if |key| == 32 then Some(Lookup(key, RecOrEmpty(g[1]), RecOrEmpty(g[2]))) else None
  }

  lemma LookupOk(l: Lookup)
    ensures |LookupBytes(l)| == LookupLen(l) && ReadLookup(LookupBytes(l)) == Some(l)
  {
    var gs := LookupGroups(l);
    assert |WriteGroups(gs)| == LookupLen(l) by { GroupsLen(gs); }
    assert ReadLookup(WriteGroups(gs)) == Some(l) by { GroupsRoundTrip(gs); }
  }

  /** A legacy message, or a versioned one with its address table lookups. */
  datatype TxMessage = TxMessage(
    header: Header, keys: seq<Pubkey>, blockhash: Bytes, instructions: seq<Instruction>, lookups: Option<seq<Lookup>>)

  function Lookups(m: TxMessage): seq<Lookup> {
    if m.lookups.Some? then m.lookups.value else []
  }

  function TxMessageParts(m: TxMessage, header: Bytes, instructions: seq<Bytes>, lookups: seq<Bytes>): Groups {
    [Rec(1, header), Repeat(2, m.keys), Rec(3, m.blockhash), Repeat(4, instructions), Flag(5, m.lookups.Some?),
        Repeat(6, lookups)]
  }

  function TxMessageBytes(m: TxMessage): Bytes {
    WriteGroups(TxMessageParts(m, HeaderBytes(m.header), Each(m.instructions, InstructionBytes),
        Each(Lookups(m), LookupBytes)))
  }

  function TxMessageLen(m: TxMessage): nat {
    RecordLen(1, HeaderLen(m.header))
    + FixedItemsLen(2, 32, |m.keys|)
    + RecordLen(3, |m.blockhash|)
    + SumLens(4, Each(m.instructions, InstructionLen))
    + (if m.lookups.Some? then KeyLen(5) + 1 else 0)
    + SumLens(6, Each(Lookups(m), LookupLen))
  }

  function TxMessageFrom(g: Groups, header: Option<Header>, instructions: Option<seq<Instruction>>,
      lookups: Option<seq<Lookup>>): Option<TxMessage>
    requires |g| == 6
  {
    var keys := AsKeys(Payloads(g[1]));
    if header.None? || keys.None? || instructions.None? || lookups.None? then None
    else Some(TxMessage(header.value, keys.value, RecOrEmpty(g[2]), instructions.value,
                        if NumOr0(g[4]) != 0 then lookups else None))
  }

  function ReadTxMessage(b: Bytes): Option<TxMessage> {
    match ReadGroups(b, 6)
    case None => None
    case Some(g) =>
      TxMessageFrom(g, ReadHeader(RecOrEmpty(g[0])), ReadEach(Payloads(g[3]), ReadInstruction),
          ReadEach(Payloads(g[5]), ReadLookup))
  }

  lemma TxMessagePartsOk(m: TxMessage, header: Bytes, instructions: seq<Bytes>, lookups: seq<Bytes>)
    requires |header| == HeaderLen(m.header)
    requires Group(Repeat(2, m.keys), 2, FixedItemsLen(2, 32, |m.keys|))
    requires Group(Repeat(4, instructions), 4, SumLens(4, Each(m.instructions, InstructionLen)))
    requires Group(Repeat(6, lookups), 6, SumLens(6, Each(Lookups(m), LookupLen)))
    ensures var gs := TxMessageParts(m, header, instructions, lookups);
      WellTagged(gs) && |WriteGroups(gs)| == TxMessageLen(m)
  {
    GroupsLen(TxMessageParts(m, header, instructions, lookups));
  }

  lemma TxMessageFromOk(m: TxMessage, header: Bytes, instructions: seq<Bytes>, lookups: seq<Bytes>)
    requires AsKeys(Payloads(Repeat(2, m.keys))) == Some(m.keys)
    ensures TxMessageFrom(TxMessageParts(m, header, instructions, lookups), Some(m.header), Some(m.instructions),
        Some(Lookups(m))) == Some(m)
  {
  }

  lemma InstructionsOk(tag: nat, xs: seq<Instruction>)
    ensures var c := Repeat(tag, Each(xs, InstructionBytes));
      Group(c, tag, SumLens(tag, Each(xs, InstructionLen))) && ReadEach(Payloads(c), ReadInstruction) == Some(xs)
  {
    forall i | 0 <= i < |xs| { InstructionOk(xs[i]); }
    RepeatedField(tag, xs, xs, InstructionBytes, InstructionLen, ReadInstruction);
  }

  lemma LookupsOk(tag: nat, xs: seq<Lookup>)
    ensures var c := Repeat(tag, Each(xs, LookupBytes));
      Group(c, tag, SumLens(tag, Each(xs, LookupLen))) && ReadEach(Payloads(c), ReadLookup) == Some(xs)
  {
    forall i | 0 <= i < |xs| { LookupOk(xs[i]); }
    RepeatedField(tag, xs, xs, LookupBytes, LookupLen, ReadLookup);
  }

  lemma TxMessageRead(m: TxMessage, header: Bytes, instructions: seq<Bytes>, lookups: seq<Bytes>)
    requires var gs := TxMessageParts(m, header, instructions, lookups); WellTagged(gs)
    requires AsKeys(Payloads(Repeat(2, m.keys))) == Some(m.keys)
    requires ReadHeader(header) == Some(m.header)
    requires ReadEach(Payloads(Repeat(4, instructions)), ReadInstruction) == Some(m.instructions)
    requires ReadEach(Payloads(Repeat(6, lookups)), ReadLookup) == Some(Lookups(m))
    ensures ReadTxMessage(WriteGroups(TxMessageParts(m, header, instructions, lookups))) == Some(m)
  {
    TxMessageFromOk(m, header, instructions, lookups);
    GroupsRoundTrip(TxMessageParts(m, header, instructions, lookups));
  }

  lemma TxMessageOk(m: TxMessage)
    ensures |TxMessageBytes(m)| == TxMessageLen(m) && ReadTxMessage(TxMessageBytes(m)) == Some(m)
  {
    var header, instructions, lookups :=
      HeaderBytes(m.header), Each(m.instructions, InstructionBytes), Each(Lookups(m), LookupBytes);
    HeaderOk(m.header);
    KeysOk(2, m.keys);
    InstructionsOk(4, m.instructions);
    LookupsOk(6, Lookups(m));
    TxMessagePartsOk(m, header, instructions, lookups);
    TxMessageRead(m, header, instructions, lookups);
  }

  datatype Sanitized = Sanitized(signatures: seq<Signature>, message: TxMessage)

  function SanitizedParts(signatures: seq<Signature>, message: Bytes): Groups {
    [Repeat(1, signatures), Rec(2, message)]
  }

  function SanitizedBytes(t: Sanitized): Bytes { WriteGroups(SanitizedParts(t.signatures, TxMessageBytes(t.message))) }

  function SanitizedLen(t: Sanitized): nat {
    FixedItemsLen(1, 64, |t.signatures|) + RecordLen(2, TxMessageLen(t.message))
  }

  function SanitizedFrom(signatures: Option<seq<Signature>>, message: Option<TxMessage>): Option<Sanitized> {
    if signatures.Some? && message.Some? then Some(Sanitized(signatures.value, message.value)) else None
  }

  function ReadSanitized(b: Bytes): Option<Sanitized> {
    match ReadGroups(b, 2)
    case None => None
    case Some(g) => SanitizedFrom(AsSignatures(Payloads(g[0])), ReadTxMessage(RecOrEmpty(g[1])))
  }

  lemma SanitizedPartsOk(t: Sanitized, message: Bytes)
    requires |message| == TxMessageLen(t.message)
    ensures var gs := SanitizedParts(t.signatures, message);
      && WellTagged(gs) && |WriteGroups(gs)| == SanitizedLen(t)
      && AsSignatures(Payloads(gs[0])) == Some(t.signatures) && RecOrEmpty(gs[1]) == message
  {
    SignaturesOk(1, t.signatures);
    GroupsLen(SanitizedParts(t.signatures, message));
  }

  lemma SanitizedOk(t: Sanitized)
    ensures |SanitizedBytes(t)| == SanitizedLen(t) && ReadSanitized(SanitizedBytes(t)) == Some(t)
  {
    var message := TxMessageBytes(t.message);
    TxMessageOk(t.message);
    SanitizedPartsOk(t, message);
    GroupsRoundTrip(SanitizedParts(t.signatures, message));
  }

  // ---------------------------------------------------------------------------
  // Parts of the status meta
  // ---------------------------------------------------------------------------

  datatype InnerInstruction = InnerInstruction(programIdIndex: nat, accounts: Bytes, data: Bytes,
      stackHeight: Option<nat>)

  function InnerInstructionGroups(i: InnerInstruction): Groups {
    [Num(1, i.programIdIndex), NonEmpty(2, i.accounts), NonEmpty(3, i.data), OptNum(4, i.stackHeight)]
  }

  function InnerInstructionBytes(i: InnerInstruction): Bytes { WriteGroups(InnerInstructionGroups(i)) }

  function InnerInstructionLen(i: InnerInstruction): nat {
    (if i.programIdIndex != 0 then NumberLen(1, i.programIdIndex) else 0)
    + (if i.accounts != [] then RecordLen(2, |i.accounts|) else 0)
    + (if i.data != [] then RecordLen(3, |i.data|) else 0)
    + (if i.stackHeight.Some? then NumberLen(4, i.stackHeight.value) else 0)
  }

  function ReadInnerInstruction(b: Bytes): Option<InnerInstruction> {
    match ReadGroups(b, 4)
    case None => None
    case Some(g) => Some(InnerInstruction(NumOr0(g[0]), RecOrEmpty(g[1]), RecOrEmpty(g[2]), LastNum(g[3])))
  }

  lemma InnerInstructionOk(i: InnerInstruction)
    ensures |InnerInstructionBytes(i)| == InnerInstructionLen(i)
        && ReadInnerInstruction(InnerInstructionBytes(i)) == Some(i)
  {
    var gs := InnerInstructionGroups(i);
    assert |WriteGroups(gs)| == InnerInstructionLen(i) by { GroupsLen(gs); }
    assert ReadInnerInstruction(WriteGroups(gs)) == Some(i) by { GroupsRoundTrip(gs); }
  }

  datatype InnerInstructions = InnerInstructions(index: nat, instructions: seq<InnerInstruction>)

  function InnerParts(index: nat, instructions: seq<Bytes>): Groups {
    [Num(1, index), Repeat(2, instructions)]
  }

  function InnerBytes(i: InnerInstructions): Bytes {
    WriteGroups(InnerParts(i.index, Each(i.instructions, InnerInstructionBytes)))
  }

  function InnerLen(i: InnerInstructions): nat {
    (if i.index != 0 then NumberLen(1, i.index) else 0) + SumLens(2, Each(i.instructions, InnerInstructionLen))
  }

  function InnerFrom(index: nat, instructions: Option<seq<InnerInstruction>>): Option<InnerInstructions> {
    if instructions.Some? then Some(InnerInstructions(index, instructions.value)) else None
  }

  function ReadInner(b: Bytes): Option<InnerInstructions> {
    match ReadGroups(b, 2)
    case None => None
    case Some(g) => InnerFrom(NumOr0(g[0]), ReadEach(Payloads(g[1]), ReadInnerInstruction))
  }

  lemma InnerPartsOk(i: InnerInstructions, instructions: seq<Bytes>)
    requires var c := Repeat(2, instructions);
      Group(c, 2, SumLens(2, Each(i.instructions, InnerInstructionLen)))
    ensures var gs := InnerParts(i.index, instructions);
      WellTagged(gs) && |WriteGroups(gs)| == InnerLen(i)
  {
    GroupsLen(InnerParts(i.index, instructions));
  }

  lemma InnerOk(i: InnerInstructions)
    ensures |InnerBytes(i)| == InnerLen(i) && ReadInner(InnerBytes(i)) == Some(i)
  {
    var instructions := Each(i.instructions, InnerInstructionBytes);
    forall k | 0 <= k < |i.instructions| { InnerInstructionOk(i.instructions[k]); }
    RepeatedField(2, i.instructions, i.instructions, InnerInstructionBytes, InnerInstructionLen, ReadInnerInstruction);
    InnerPartsOk(i, instructions);
    GroupsRoundTrip(InnerParts(i.index, instructions));
  }

  /** A double, as its eight bytes. */
  type Double = b: Bytes | |b| == 8 witness seq(8, _ => 0)

  /** Zero and negative zero compare equal to zero. */
  predicate IsZero(d: Double) {
    (forall i :: 0 <= i < 7 ==> d[i] == 0) && (d[7] == 0 || d[7] == 128)
  }

  datatype UiAmount = UiAmount(amountUi: Option<Double>, decimals: nat, amount: Bytes, amountString: Bytes)

  /** Absent and zero amounts are the same on the wire. */
  function NormalUi(u: UiAmount): UiAmount {
    u.(amountUi := if u.amountUi.Some? && IsZero(u.amountUi.value) then None else u.amountUi)
  }

  function UiGroups(u: UiAmount): Groups {
    [OptFixed(1, NormalUi(u).amountUi), Num(2, u.decimals), NonEmpty(3, u.amount), NonEmpty(4, u.amountString)]
  }

  function UiBytes(u: UiAmount): Bytes { WriteGroups(UiGroups(u)) }

  function UiLen(u: UiAmount): nat {
    (if u.amountUi.Some? && !IsZero(u.amountUi.value) then FixedLen(1) else 0)
    + (if u.decimals != 0 then NumberLen(2, u.decimals) else 0)
    + (if u.amount != [] then RecordLen(3, |u.amount|) else 0)
    + (if u.amountString != [] then RecordLen(4, |u.amountString|) else 0)
  }

  function ReadUi(b: Bytes): Option<UiAmount> {
    match ReadGroups(b, 4)
    case None => None
    case Some(g) =>
      var d := LastFixed(g[0]);
      if d.Some? && |d.value| != 8 then None
      else Some(UiAmount(d, NumOr0(g[1]), RecOrEmpty(g[2]), RecOrEmpty(g[3])))
  }

  lemma UiOk(u: UiAmount)
    ensures |UiBytes(u)| == UiLen(u) && ReadUi(UiBytes(u)) == Some(NormalUi(u))
  {
    var gs := UiGroups(u);
    assert |WriteGroups(gs)| == UiLen(u) by { GroupsLen(gs); }
    assert ReadUi(WriteGroups(gs)) == Some(NormalUi(u)) by { GroupsRoundTrip(gs); }
  }

  datatype TokenBalance = TokenBalance(accountIndex: nat, mint: Bytes, amount: UiAmount, owner: Bytes, programId: Bytes)

  function NormalBalance(t: TokenBalance): TokenBalance { t.(amount := NormalUi(t.amount)) }

  function BalanceParts(t: TokenBalance, amount: Bytes): Groups {
    [Num(1, t.accountIndex), NonEmpty(2, t.mint), Rec(3, amount), NonEmpty(4, t.owner), NonEmpty(5, t.programId)]
  }

  function BalanceBytes(t: TokenBalance): Bytes { WriteGroups(BalanceParts(t, UiBytes(t.amount))) }

  function BalanceLen(t: TokenBalance): nat {
    (if t.accountIndex != 0 then NumberLen(1, t.accountIndex) else 0)
    + (if t.mint != [] then RecordLen(2, |t.mint|) else 0)
    + RecordLen(3, UiLen(t.amount))
    + (if t.owner != [] then RecordLen(4, |t.owner|) else 0)
    + (if t.programId != [] then RecordLen(5, |t.programId|) else 0)
  }

  function BalanceFrom(g: Groups, amount: Option<UiAmount>): Option<TokenBalance>
    requires |g| == 5
  {
    if amount.None? then None
    else Some(TokenBalance(NumOr0(g[0]), RecOrEmpty(g[1]), amount.value, RecOrEmpty(g[3]), RecOrEmpty(g[4])))
  }

  function ReadBalance(b: Bytes): Option<TokenBalance> {
    match ReadGroups(b, 5)
    case None => None
    case Some(g) => BalanceFrom(g, ReadUi(RecOrEmpty(g[2])))
  }

  lemma BalancePartsOk(t: TokenBalance, amount: Bytes)
    requires |amount| == UiLen(t.amount)
    ensures var gs := BalanceParts(t, amount);
      && WellTagged(gs) && |WriteGroups(gs)| == BalanceLen(t)
      && BalanceFrom(gs, Some(NormalUi(t.amount))) == Some(NormalBalance(t))
  {
    var gs := BalanceParts(t, amount);
    assert |WriteGroups(gs)| == BalanceLen(t) by { GroupsLen(gs); }
  }

  lemma BalanceOk(t: TokenBalance)
    ensures |BalanceBytes(t)| == BalanceLen(t) && ReadBalance(BalanceBytes(t)) == Some(NormalBalance(t))
  {
    var amount := UiBytes(t.amount);
    UiOk(t.amount);
    BalancePartsOk(t, amount);
    GroupsRoundTrip(BalanceParts(t, amount));
  }

  datatype ReturnData = ReturnData(programId: Pubkey, data: Bytes)

  function ReturnGroups(r: ReturnData): Groups { [Rec(1, r.programId), NonEmpty(2, r.data)] }

  function ReturnBytes(r: ReturnData): Bytes { WriteGroups(ReturnGroups(r)) }

  function ReturnLen(r: ReturnData): nat {
    RecordLen(1, |r.programId|) + if r.data != [] then RecordLen(2, |r.data|) else 0
  }

  function ReadReturn(b: Bytes): Option<ReturnData> {
    match ReadGroups(b, 2)
    case None => None
    case Some(g) =>
      var id := RecOrEmpty(g[0]);
      if |id| == 32 then Some(ReturnData(id, RecOrEmpty(g[1]))) else None
  }

  lemma ReturnOk(r: ReturnData)
    ensures |ReturnBytes(r)| == ReturnLen(r) && ReadReturn(ReturnBytes(r)) == Some(r)
  {
    var gs := ReturnGroups(r);
    assert |WriteGroups(gs)| == ReturnLen(r) by { GroupsLen(gs); }
    assert ReadReturn(WriteGroups(gs)) == Some(r) by { GroupsRoundTrip(gs); }
  }

  /** A transaction error travels as its serialisation, wrapped in a message. */
  function ErrorBytes(e: Bytes): Bytes { WriteGroups([NonEmpty(1, e)]) }

  function ErrorLen(e: Bytes): nat { if e != [] then RecordLen(1, |e|) else 0 }

  function ReadError(b: Bytes): Option<Bytes> {
    match ReadGroups(b, 1)
    case None => None
    case Some(g) => Some(RecOrEmpty(g[0]))
  }

  lemma ErrorOk(e: Bytes)
    ensures |ErrorBytes(e)| == ErrorLen(e) && ReadError(ErrorBytes(e)) == Some(e)
  {
    var gs := [NonEmpty(1, e)];
    assert |WriteGroups(gs)| == ErrorLen(e) by { GroupsLen(gs); }
    assert ReadError(WriteGroups(gs)) == Some(e) by { GroupsRoundTrip(gs); }
  }
}
