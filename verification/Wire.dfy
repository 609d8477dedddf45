/** The Protocol Buffers wire format: base 128 varints, fields as key and
    payload, length-delimited records; its reader, and the length functions
    that the encoders use to size their output before writing it. */
module Wire {
  import opened Base

  type Bytes = seq<Byte>

  // ---------------------------------------------------------------------------
  // Varints
  // ---------------------------------------------------------------------------

  /** Seven bits a byte, lowest first, the high bit set on all but the last. */
  function Varint(n: nat): (b: Bytes)
    ensures |b| >= 1
  {
    if n < 128 then [n] else [n % 128 + 128] + Varint(n / 128)
  }

  function VarintLen(n: nat): (l: nat)
    ensures l >= 1
  {
    if n < 128 then 1 else 1 + VarintLen(n / 128)
  }

  function ReadVarint(b: Bytes): (r: Option<(nat, Bytes)>)
    ensures r.Some? ==> |r.value.1| < |b|
  {
    if b == [] then None
    else if b[0] < 128 then Some((b[0], b[1..]))
    else match ReadVarint(b[1..])
      case None => None
      case Some((n, rest)) => Some((b[0] - 128 + 128 * n, rest))
  }

  lemma {:induction false} VarintRoundTrip(n: nat, rest: Bytes)
    ensures ReadVarint(Varint(n) + rest) == Some((n, rest))
    ensures |Varint(n)| == VarintLen(n)
    decreases n
  {
    var b := Varint(n) + rest;
    if n < 128 {
      assert b[1..] == rest;
    } else {
      VarintRoundTrip(n / 128, rest);
      assert b[1..] == Varint(n / 128) + rest;
    }
  }

  /** The three bits of a wire type never lengthen a key. */
  lemma KeyLenIgnoresType(tag: nat, wire: nat)
    requires wire < 8
    ensures VarintLen(8 * tag + wire) == VarintLen(8 * tag)
  {
    var q, r := tag / 16, tag % 16;
    assert 8 * tag == 128 * q + 8 * r && 8 * r + wire < 128;
    assert (8 * tag) / 128 == q && (8 * tag + wire) / 128 == q;
  }

  // ---------------------------------------------------------------------------
  // Fields
  // ---------------------------------------------------------------------------

  datatype Field =
    | Number(tag: nat, value: nat)       // wire type 0
    | Fixed(tag: nat, bytes: Bytes)      // wire type 1, eight bytes
    | Record(tag: nat, bytes: Bytes)     // wire type 2

  predicate Writable(f: Field) {
    f.Fixed? ==> |f.bytes| == 8
  }

  function WireType(f: Field): (w: nat)
    ensures w < 8
  {
    match f
    case Number(_, _) => 0
    case Fixed(_, _) => 1
    case Record(_, _) => 2
  }

  function Write(f: Field): Bytes {
    Varint(8 * f.tag + WireType(f)) +
    match f
    case Number(_, value) => Varint(value)
    case Fixed(_, bytes) => bytes
    case Record(_, bytes) => Varint(|bytes|) + bytes
  }

  function WriteAll(fs: seq<Field>): Bytes {
    if fs == [] then [] else Write(fs[0]) + WriteAll(fs[1..])
  }

  /** One field, and what follows it; other wire types are not understood. */
  function ReadField(b: Bytes): (r: Option<(Field, Bytes)>)
    ensures r.Some? ==> |r.value.1| < |b|
  {
    match ReadVarint(b)
    case None => None
    case Some((key, rest)) =>
      if key % 8 == 0 then
        match ReadVarint(rest)
        case None => None
        case Some((value, rest)) => Some((Number(key / 8, value), rest))
      else if key % 8 == 1 then
        if |rest| < 8 then None else Some((Fixed(key / 8, rest[..8]), rest[8..]))
      else if key % 8 == 2 then
        match ReadVarint(rest)
        case None => None
        case Some((len, rest)) =>
          if |rest| < len then None else Some((Record(key / 8, rest[..len]), rest[len..]))
      else None
  }

  function ReadAll(b: Bytes): (r: Option<seq<Field>>)
    decreases |b|
  {
    if b == [] then Some([])
    else match ReadField(b)
      case None => None
      case Some((f, rest)) =>
        match ReadAll(rest)
        case None => None
        case Some(fs) => Some([f] + fs)
  }

  lemma Assoc(x: Bytes, y: Bytes, z: Bytes)
    ensures x + (y + z) == x + y + z
  {
  }

  lemma ReadNumber(b: Bytes, key: nat, mid: Bytes, value: nat, rest: Bytes)
    requires ReadVarint(b) == Some((key, mid)) && key % 8 == 0 && ReadVarint(mid) == Some((value, rest))
    ensures ReadField(b) == Some((Number(key / 8, value), rest))
  {
  }

  lemma NumberRoundTrip(key: nat, value: nat, rest: Bytes)
    requires key % 8 == 0
    ensures ReadField(Varint(key) + Varint(value) + rest) == Some((Number(key / 8, value), rest))
  {
    var mid := Varint(value) + rest;
    VarintRoundTrip(key, mid);
    VarintRoundTrip(value, rest);
    ReadNumber(Varint(key) + mid, key, mid, value, rest);
    Assoc(Varint(key), Varint(value), rest);
  }

  lemma FixedRoundTrip(key: nat, bytes: Bytes, rest: Bytes)
    requires key % 8 == 1 && |bytes| == 8
    ensures ReadField(Varint(key) + bytes + rest) == Some((Fixed(key / 8, bytes), rest))
  {
    VarintRoundTrip(key, bytes + rest);
    assert Varint(key) + bytes + rest == Varint(key) + (bytes + rest);
    assert (bytes + rest)[..8] == bytes && (bytes + rest)[8..] == rest;
  }

  lemma ReadRecord(b: Bytes, key: nat, mid: Bytes, bytes: Bytes, rest: Bytes)
    requires ReadVarint(b) == Some((key, mid)) && key % 8 == 2 && ReadVarint(mid) == Some((|bytes|, bytes + rest))
    ensures ReadField(b) == Some((Record(key / 8, bytes), rest))
  {
    assert (bytes + rest)[..|bytes|] == bytes && (bytes + rest)[|bytes|..] == rest;
  }

  lemma RecordRoundTrip(key: nat, bytes: Bytes, rest: Bytes)
    requires key % 8 == 2
    ensures ReadField(Varint(key) + (Varint(|bytes|) + bytes) + rest) == Some((Record(key / 8, bytes), rest))
  {
    var mid := Varint(|bytes|) + (bytes + rest);
    VarintRoundTrip(key, mid);
    VarintRoundTrip(|bytes|, bytes + rest);
    ReadRecord(Varint(key) + mid, key, mid, bytes, rest);
    Assoc(Varint(key), Varint(|bytes|) + bytes, rest);
    Assoc(Varint(|bytes|), bytes, rest);
  }

  lemma FieldRoundTrip(f: Field, rest: Bytes)
    requires Writable(f)
    ensures ReadField(Write(f) + rest) == Some((f, rest))
  {
    var key := 8 * f.tag + WireType(f);
    assert key % 8 == WireType(f) && key / 8 == f.tag;
    match f
    case Number(_, value) => NumberRoundTrip(key, value, rest);
    case Fixed(_, bytes) => FixedRoundTrip(key, bytes, rest);
    case Record(_, bytes) => RecordRoundTrip(key, bytes, rest);
  }

  predicate AllWritable(fs: seq<Field>) {
    forall i :: 0 <= i < |fs| ==> Writable(fs[i])
  }

  /** Whatever fields are written are read back. */
  lemma {:induction false} FieldsRoundTrip(fs: seq<Field>)
    requires AllWritable(fs)
    ensures ReadAll(WriteAll(fs)) == Some(fs)
    decreases |fs|
  {
    if fs != [] {
      FieldRoundTrip(fs[0], WriteAll(fs[1..]));
      FieldsRoundTrip(fs[1..]);
      assert fs == [fs[0]] + fs[1..];
    }
  }

  lemma {:induction false} WriteConcat(a: seq<Field>, b: seq<Field>)
    ensures WriteAll(a + b) == WriteAll(a) + WriteAll(b)
    decreases |a|
  {
    if a == [] {
      assert a + b == b;
    } else {
      WriteConcat(a[1..], b);
      assert (a + b)[1..] == a[1..] + b;
      Assoc(Write(a[0]), WriteAll(a[1..]), WriteAll(b));
    }
  }

  // ---------------------------------------------------------------------------
  // Fields by tag
  // ---------------------------------------------------------------------------

  function ByTag(fs: seq<Field>, t: nat): seq<Field> {
    if fs == [] then []
    else (if fs[0].tag == t then [fs[0]] else []) + ByTag(fs[1..], t)
  }

  lemma {:induction false} TagConcat(a: seq<Field>, b: seq<Field>, t: nat)
    ensures ByTag(a + b, t) == ByTag(a, t) + ByTag(b, t)
    decreases |a|
  {
    if a == [] {
      assert a + b == b;
    } else {
      TagConcat(a[1..], b, t);
      assert (a + b)[1..] == a[1..] + b;
      var first := if a[0].tag == t then [a[0]] else [];
      assert first + (ByTag(a[1..], t) + ByTag(b, t)) == first + ByTag(a[1..], t) + ByTag(b, t);
    }
  }

  predicate Only(c: seq<Field>, t: nat) {
    forall i :: 0 <= i < |c| ==> c[i].tag == t
  }

  lemma {:induction false} OnlyTag(c: seq<Field>, s: nat, t: nat)
    requires Only(c, s)
    ensures ByTag(c, t) == if s == t then c else []
    decreases |c|
  {
    if c != [] { OnlyTag(c[1..], s, t); }
  }

  // ---------------------------------------------------------------------------
  // Single fields and their lengths
  // ---------------------------------------------------------------------------

  function KeyLen(tag: nat): nat { VarintLen(8 * tag) }

  function NumberLen(tag: nat, value: nat): nat { KeyLen(tag) + VarintLen(value) }

  function FixedLen(tag: nat): nat { KeyLen(tag) + 8 }

  function RecordLen(tag: nat, size: nat): nat { KeyLen(tag) + VarintLen(size) + size }

  function FieldLen(f: Field): nat {
    match f
    case Number(tag, value) => NumberLen(tag, value)
    case Fixed(tag, _) => FixedLen(tag)
    case Record(tag, bytes) => RecordLen(tag, |bytes|)
  }

  lemma OneLen(f: Field)
    requires Writable(f)
    ensures |WriteAll([f])| == FieldLen(f)
  {
    KeyLenIgnoresType(f.tag, WireType(f));
    VarintRoundTrip(8 * f.tag + WireType(f), []);
    if f.Number? { VarintRoundTrip(f.value, []); }
    if f.Record? { VarintRoundTrip(|f.bytes|, []); }
    assert [f][1..] == [] && WriteAll([f]) == Write(f);
  }

  /** A group of at most one field, of tag `t` and length `len`. */
  predicate Group(c: seq<Field>, t: nat, len: nat) {
    Only(c, t) && AllWritable(c) && |WriteAll(c)| == len
  }

  /** A number, left out when zero. */
  function Num(tag: nat, value: nat): (c: seq<Field>)
    ensures Group(c, tag, if value != 0 then NumberLen(tag, value) else 0) && NumOr0(c) == value
  {
    if value != 0 then (OneLen(Number(tag, value)); [Number(tag, value)]) else []
  }

  function OptNum(tag: nat, value: Option<nat>): (c: seq<Field>)
    ensures Group(c, tag, if value.Some? then NumberLen(tag, value.value) else 0) && LastNum(c) == value
  {
    if value.Some? then (OneLen(Number(tag, value.value)); [Number(tag, value.value)]) else []
  }

  /** A flag, left out when false. */
  function Flag(tag: nat, value: bool): (c: seq<Field>)
    ensures Group(c, tag, if value then KeyLen(tag) + 1 else 0) && (NumOr0(c) != 0) == value
  {
    if value then (OneLen(Number(tag, 1)); [Number(tag, 1)]) else []
  }

  /** A record, written even when empty. */
  function Rec(tag: nat, bytes: Bytes): (c: seq<Field>)
    ensures Group(c, tag, RecordLen(tag, |bytes|)) && LastRec(c) == Some(bytes)
  {
    OneLen(Record(tag, bytes)); [Record(tag, bytes)]
  }

  /** A record, left out when empty. */
  function NonEmpty(tag: nat, bytes: Bytes): (c: seq<Field>)
    ensures Group(c, tag, if bytes != [] then RecordLen(tag, |bytes|) else 0) && RecOrEmpty(c) == bytes
  {
    if bytes != [] then Rec(tag, bytes) else []
  }

  function OptRec(tag: nat, bytes: Option<Bytes>): (c: seq<Field>)
    ensures Group(c, tag, if bytes.Some? then RecordLen(tag, |bytes.value|) else 0) && LastRec(c) == bytes
  {
    if bytes.Some? then Rec(tag, bytes.value) else []
  }

  /** Eight bytes, left out when absent. */
  function OptFixed(tag: nat, bytes: Option<Bytes>): (c: seq<Field>)
    requires bytes.Some? ==> |bytes.value| == 8
    ensures Group(c, tag, if bytes.Some? then FixedLen(tag) else 0) && LastFixed(c) == bytes
  {
    if bytes.Some? then (OneLen(Fixed(tag, bytes.value)); [Fixed(tag, bytes.value)]) else []
  }

  /** One record for each element. */
  function Repeat(tag: nat, items: seq<Bytes>): (c: seq<Field>)
    ensures |c| == |items| && forall i :: 0 <= i < |c| ==> c[i] == Record(tag, items[i])
  {
    seq(|items|, i requires 0 <= i < |items| => Record(tag, items[i]))
  }

  function SumLens(tag: nat, sizes: seq<nat>): nat {
    if sizes == [] then 0 else RecordLen(tag, sizes[0]) + SumLens(tag, sizes[1..])
  }

  lemma {:induction false} RepeatLen(tag: nat, items: seq<Bytes>, sizes: seq<nat>)
    requires |sizes| == |items| && forall i :: 0 <= i < |items| ==> sizes[i] == |items[i]|
    ensures Group(Repeat(tag, items), tag, SumLens(tag, sizes))
    decreases |items|
  {
    if items != [] {
      RepeatLen(tag, items[1..], sizes[1..]);
      var f := Record(tag, items[0]);
      OneLen(f);
      assert Repeat(tag, items) == [f] + Repeat(tag, items[1..]);
      WriteConcat([f], Repeat(tag, items[1..]));
    }
  }

  function FixedItemsLen(tag: nat, size: nat, count: nat): nat {
    RecordLen(tag, size) * count
  }

  /** For items of one fixed size the length is a single multiplication. */
  lemma {:induction false} RepeatFixedLen(tag: nat, items: seq<Bytes>, size: nat)
    requires forall i :: 0 <= i < |items| ==> |items[i]| == size
    ensures Group(Repeat(tag, items), tag, FixedItemsLen(tag, size, |items|))
    decreases |items|
  {
    if items != [] {
      RepeatFixedLen(tag, items[1..], size);
      var f := Record(tag, items[0]);
      OneLen(f);
      assert Repeat(tag, items) == [f] + Repeat(tag, items[1..]);
      WriteConcat([f], Repeat(tag, items[1..]));
      var k, n := RecordLen(tag, size), |items|;
      assert FixedItemsLen(tag, size, n) == k * n && FixedItemsLen(tag, size, n - 1) == k * (n - 1);
      Distribute(k, n);
    }
  }

  lemma Distribute(k: nat, n: nat)
    requires n >= 1
    ensures k * n == k + k * (n - 1)
  {
  }

  // ---------------------------------------------------------------------------
  // Packed numbers
  // ---------------------------------------------------------------------------

  function PackedBody(values: seq<nat>): Bytes {
    if values == [] then [] else Varint(values[0]) + PackedBody(values[1..])
  }

  function PackedBodyLen(values: seq<nat>): nat {
    if values == [] then 0 else VarintLen(values[0]) + PackedBodyLen(values[1..])
  }

  function Packed(tag: nat, values: seq<nat>): (c: seq<Field>)
    ensures Group(c, tag, PackedLen(tag, values)) && Unpack(RecOrEmpty(c)) == Some(values)
  {
    PackedRoundTrip(values);
    if values == [] then [] else Rec(tag, PackedBody(values))
  }

  function PackedLen(tag: nat, values: seq<nat>): nat {
    if values == [] then 0 else RecordLen(tag, PackedBodyLen(values))
  }

  function Unpack(b: Bytes): (r: Option<seq<nat>>)
    decreases |b|
  {
    if b == [] then Some([])
    else match ReadVarint(b)
      case None => None
      case Some((n, rest)) =>
        match Unpack(rest)
        case None => None
        case Some(ns) => Some([n] + ns)
  }

  lemma {:induction false} PackedRoundTrip(values: seq<nat>)
    ensures Unpack(PackedBody(values)) == Some(values)
    ensures |PackedBody(values)| == PackedBodyLen(values)
    decreases |values|
  {
    if values != [] {
      PackedRoundTrip(values[1..]);
      VarintRoundTrip(values[0], PackedBody(values[1..]));
      assert values == [values[0]] + values[1..];
    }
  }

  // ---------------------------------------------------------------------------
  // Reading single fields
  // ---------------------------------------------------------------------------

  /** The last number of a group, if any. */
  function LastNum(c: seq<Field>): Option<nat> {
    if c != [] && c[|c| - 1].Number? then Some(c[|c| - 1].value) else None
  }

  function NumOr0(c: seq<Field>): nat {
    if LastNum(c).Some? then LastNum(c).value else 0
  }

  function LastRec(c: seq<Field>): Option<Bytes> {
    if c != [] && c[|c| - 1].Record? then Some(c[|c| - 1].bytes) else None
  }

  function RecOrEmpty(c: seq<Field>): Bytes {
    if LastRec(c).Some? then LastRec(c).value else []
  }

  function LastFixed(c: seq<Field>): Option<Bytes> {
    if c != [] && c[|c| - 1].Fixed? then Some(c[|c| - 1].bytes) else None
  }

  /** The payloads of a group of records. */
  function Payloads(c: seq<Field>): (bs: seq<Bytes>)
    ensures |bs| == |c|
  {
    if c == [] then []
    else [if c[0].Record? then c[0].bytes else []] + Payloads(c[1..])
  }

  lemma {:induction false} RepeatRoundTrip(tag: nat, items: seq<Bytes>)
    ensures Payloads(Repeat(tag, items)) == items
    decreases |items|
  {
    if items != [] {
      RepeatRoundTrip(tag, items[1..]);
      assert Repeat(tag, items)[1..] == Repeat(tag, items[1..]);
    }
  }

  /** Element by element, or not at all. */
  function ReadEach<T>(bs: seq<Bytes>, read: Bytes -> Option<T>): Option<seq<T>> {
    if bs == [] then Some([])
    else match (read(bs[0]), ReadEach(bs[1..], read))
      case (Some(x), Some(xs)) => Some([x] + xs)
      case _ => None
  }

  function Each<T, U>(xs: seq<T>, f: T -> U): (ys: seq<U>)
    ensures |ys| == |xs| && forall i :: 0 <= i < |xs| ==> ys[i] == f(xs[i])
  {
    seq(|xs|, i requires 0 <= i < |xs| => f(xs[i]))
  }

  /** Element-wise round trips and lengths lift to repeated fields. */
  lemma {:induction false} EachRoundTrip<T>(xs: seq<T>, ys: seq<T>, write: T -> Bytes, read: Bytes -> Option<T>)
    requires |ys| == |xs| && forall i :: 0 <= i < |xs| ==> read(write(xs[i])) == Some(ys[i])
    ensures ReadEach(Each(xs, write), read) == Some(ys)
    decreases |xs|
  {
    if xs != [] {
      EachRoundTrip(xs[1..], ys[1..], write, read);
      assert Each(xs, write)[1..] == Each(xs[1..], write);
      assert ys == [ys[0]] + ys[1..];
    }
  }

  /** Fields written for `xs` are read back as `ys`, element by element. */
  lemma RepeatedField<T>(tag: nat, xs: seq<T>, ys: seq<T>, write: T -> Bytes, len: T -> nat, read: Bytes -> Option<T>)
    requires |ys| == |xs|
    requires forall i :: 0 <= i < |xs| ==> read(write(xs[i])) == Some(ys[i]) && |write(xs[i])| == len(xs[i])
    ensures var c := Repeat(tag, Each(xs, write));
      Group(c, tag, SumLens(tag, Each(xs, len))) && ReadEach(Payloads(c), read) == Some(ys)
  {
    RepeatLen(tag, Each(xs, write), Each(xs, len));
    RepeatRoundTrip(tag, Each(xs, write));
    EachRoundTrip(xs, ys, write, read);
  }

  // ---------------------------------------------------------------------------
  // Whole messages
  // ---------------------------------------------------------------------------

  /** A message as its groups of fields: group `i` holds the fields with tag i + 1,
      which is also the order in which they are written. */
  type Groups = seq<seq<Field>>

  predicate WellTagged(gs: Groups) {
    forall i :: 0 <= i < |gs| ==> Only(gs[i], i + 1) && AllWritable(gs[i])
  }

  function Flat(gs: Groups, from: nat): seq<Field>
    decreases |gs| - from
  {
    if from >= |gs| then [] else gs[from] + Flat(gs, from + 1)
  }

  function WriteGroups(gs: Groups): Bytes {
    WriteAll(Flat(gs, 0))
  }

  function ReadGroups(b: Bytes, n: nat): (r: Option<Groups>)
    ensures r.Some? ==> |r.value| == n
  {
    match ReadAll(b)
    case None => None
    case Some(fs) => Some(Regroup(fs, n))
  }

  function Regroup(fs: seq<Field>, n: nat): (gs: Groups)
    ensures |gs| == n && forall i :: 0 <= i < n ==> gs[i] == ByTag(fs, i + 1)
  {
    seq(n, i requires 0 <= i < n => ByTag(fs, i + 1))
  }

  lemma {:induction false} FlatByTag(gs: Groups, from: nat, t: nat)
    requires WellTagged(gs) && from <= |gs|
    ensures ByTag(Flat(gs, from), t) == if from < t <= |gs| then gs[t - 1] else []
    ensures AllWritable(Flat(gs, from))
    decreases |gs| - from
  {
    if from < |gs| {
      FlatByTag(gs, from + 1, t);
      TagConcat(gs[from], Flat(gs, from + 1), t);
      OnlyTag(gs[from], from + 1, t);
    }
  }

  lemma FlatRegroups(gs: Groups)
    requires WellTagged(gs)
    ensures Regroup(Flat(gs, 0), |gs|) == gs
  {
    var fs := Flat(gs, 0);
    forall i | 0 <= i < |gs| ensures ByTag(fs, i + 1) == gs[i] {
      FlatByTag(gs, 0, i + 1);
    }
  }

  /** Whatever groups are written are read back. */
  lemma GroupsRoundTrip(gs: Groups)
    requires WellTagged(gs)
    ensures ReadGroups(WriteGroups(gs), |gs|) == Some(gs)
  {
    FlatRegroups(gs);
    FlatByTag(gs, 0, 0);
    FieldsRoundTrip(Flat(gs, 0));
  }

  function GroupLen(gs: Groups, i: nat): nat {
    if i < |gs| then |WriteAll(gs[i])| else 0
  }

  function LenFrom(gs: Groups, from: nat): nat
    decreases |gs| - from
  {
    if from >= |gs| then 0 else GroupLen(gs, from) + LenFrom(gs, from + 1)
  }

  lemma {:induction false} FlatLen(gs: Groups, from: nat)
    requires from <= |gs|
    ensures |WriteAll(Flat(gs, from))| == LenFrom(gs, from)
    decreases |gs| - from
  {
    if from < |gs| {
      FlatLen(gs, from + 1);
      WriteConcat(gs[from], Flat(gs, from + 1));
    }
  }

  function Len4(gs: Groups, i: nat): nat {
    GroupLen(gs, i) + GroupLen(gs, i + 1) + GroupLen(gs, i + 2) + GroupLen(gs, i + 3)
  }

  lemma LenStep(gs: Groups, i: nat)
    ensures LenFrom(gs, i) == Len4(gs, i) + LenFrom(gs, i + 4)
  {
    assert LenFrom(gs, i) == GroupLen(gs, i) + LenFrom(gs, i + 1);
    assert LenFrom(gs, i + 1) == GroupLen(gs, i + 1) + LenFrom(gs, i + 2);
    assert LenFrom(gs, i + 2) == GroupLen(gs, i + 2) + LenFrom(gs, i + 3);
    assert LenFrom(gs, i + 3) == GroupLen(gs, i + 3) + LenFrom(gs, i + 4);
  }

  /** The length of a message is the sum over its groups; none here has more than sixteen. */
  lemma GroupsLen(gs: Groups)
    requires |gs| <= 16
    ensures |WriteGroups(gs)| == Len4(gs, 0) + Len4(gs, 4) + Len4(gs, 8) + Len4(gs, 12)
  {
    FlatLen(gs, 0);
    LenStep(gs, 0);
    LenStep(gs, 4);
    LenStep(gs, 8);
    LenStep(gs, 12);
  }

  /** Groups whose tags start at n + 1. */
  predicate TaggedFrom(gs: Groups, n: nat) {
    forall i :: 0 <= i < |gs| ==> Only(gs[i], n + i + 1) && AllWritable(gs[i])
  }

  lemma EightTagged(a: seq<Field>, b: seq<Field>, c: seq<Field>, d: seq<Field>,
                    e: seq<Field>, f: seq<Field>, g: seq<Field>, h: seq<Field>, n: nat)
    requires Only(a, n + 1) && Only(b, n + 2) && Only(c, n + 3) && Only(d, n + 4)
    requires Only(e, n + 5) && Only(f, n + 6) && Only(g, n + 7) && Only(h, n + 8)
    requires AllWritable(a) && AllWritable(b) && AllWritable(c) && AllWritable(d)
    requires AllWritable(e) && AllWritable(f) && AllWritable(g) && AllWritable(h)
    ensures TaggedFrom([a, b, c, d, e, f, g, h], n)
  {
  }

  lemma EightLen(a: seq<Field>, b: seq<Field>, c: seq<Field>, d: seq<Field>,
                 e: seq<Field>, f: seq<Field>, g: seq<Field>, h: seq<Field>)
    ensures var gs := [a, b, c, d, e, f, g, h];
      Len4(gs, 0) + Len4(gs, 4) == |WriteAll(a)| + |WriteAll(b)| + |WriteAll(c)| + |WriteAll(d)|
                                   + |WriteAll(e)| + |WriteAll(f)| + |WriteAll(g)| + |WriteAll(h)|
  {
  }

  /** A message of sixteen groups, seen as two halves. */
  lemma Halves(a: Groups, b: Groups)
    requires |a| == 8 && |b| == 8 && TaggedFrom(a, 0) && TaggedFrom(b, 8)
    ensures WellTagged(a + b)
    ensures |WriteGroups(a + b)| == Len4(a, 0) + Len4(a, 4) + (Len4(b, 0) + Len4(b, 4))
  {
    var gs := a + b;
    forall i | 0 <= i < |gs| ensures Only(gs[i], i + 1) && AllWritable(gs[i]) {
      if i >= 8 { assert gs[i] == b[i - 8]; }
    }
    GroupsLen(gs);
    assert forall i :: 0 <= i < 8 ==> GroupLen(gs, i) == GroupLen(a, i);
    assert forall i :: 0 <= i < 8 ==> GroupLen(gs, i + 8) == GroupLen(b, i);
    assert Len4(gs, 0) == Len4(a, 0) && Len4(gs, 4) == Len4(a, 4);
    assert GroupLen(gs, 8) == GroupLen(b, 0) && GroupLen(gs, 9) == GroupLen(b, 1) && GroupLen(gs, 10) == GroupLen(b, 2);
    assert GroupLen(gs, 11) == GroupLen(b, 3) && GroupLen(gs, 12) == GroupLen(b, 4)
        && GroupLen(gs, 13) == GroupLen(b, 5);
    assert GroupLen(gs, 14) == GroupLen(b, 6) && GroupLen(gs, 15) == GroupLen(b, 7);
  }
}
