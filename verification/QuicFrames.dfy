/** Frames on a QUIC stream: message id and length as 64-bit big-endian words,
    then the payload.  The id `U64_MAX` marks the frame that closes the subscription. */
module QuicFrames {
  import opened Base
  import Wire

  datatype Frame = Frame(id: nat, payload: seq<Byte>)

  ghost predicate Sendable(f: Frame) {
    f.id <= U64_MAX && |f.payload| <= U64_MAX
  }

  function Pow256(k: nat): (r: nat)
    ensures r >= 1
  {
    if k == 0 then 1 else 256 * Pow256(k - 1)
  }

  /** The last `k` bytes of `n`, most significant first. */
  function BigEndian(n: nat, k: nat): (b: seq<Byte>)
    ensures |b| == k
    decreases k
  {
    if k == 0 then [] else BigEndian(n / 256, k - 1) + [n % 256]
  }

  function FromBigEndian(b: seq<Byte>): nat {
    if b == [] then 0 else FromBigEndian(b[..|b| - 1]) * 256 + b[|b| - 1]
  }

  lemma {:induction false} BigEndianRoundTrip(n: nat, k: nat)
    requires n < Pow256(k)
    ensures FromBigEndian(BigEndian(n, k)) == n
    decreases k
  {
    if k > 0 {
      BigEndianRoundTrip(n / 256, k - 1);
      var b := BigEndian(n, k);
      assert b[..|b| - 1] == BigEndian(n / 256, k - 1);
    }
  }

  lemma WordRoundTrip(n: nat)
    requires n <= U64_MAX
    ensures FromBigEndian(BigEndian(n, 8)) == n
  {
    assert Pow256(2) == 0x1_0000;
    assert Pow256(4) == 0x1_0000_0000;
    assert Pow256(6) == 0x1_0000_0000_0000;
    assert Pow256(8) == 0x1_0000_0000_0000_0000;
    BigEndianRoundTrip(n, 8);
  }

  function Bytes(f: Frame): seq<Byte> {
    BigEndian(f.id, 8) + BigEndian(|f.payload|, 8) + f.payload
  }

  /** A frame byte by byte: the id, then the length of the payload, each with its
      most significant byte first, then the payload. */
  lemma FrameLayout(f: Frame)
    requires Sendable(f)
    ensures var b := Bytes(f);
      && |b| == 16 + |f.payload| && b[16..] == f.payload
      && Spells(b[..8], f.id) && Spells(b[8..16], |f.payload|)
  {
    var x, y := BigEndian(f.id, 8), BigEndian(|f.payload|, 8);
    var b := Bytes(f);
    assert b[..8] == x && b[8..16] == y && b[16..] == f.payload;
    WordSpells(f.id);
    WordSpells(|f.payload|);
  }

  /** The eight bytes of a number. */
  ghost predicate Spells(b: seq<int>, n: nat) {
    && |b| == 8
    && n == b[0] * 0x100_0000_0000_0000 + b[1] * 0x1_0000_0000_0000 + b[2] * 0x100_0000_0000 + b[3] * 0x1_0000_0000
            + b[4] * 0x100_0000 + b[5] * 0x1_0000 + b[6] * 0x100 + b[7]
  }

  lemma WordSpells(n: nat)
    requires n <= U64_MAX
    ensures Spells(BigEndian(n, 8), n)
  {
    WordRoundTrip(n);
    var b := BigEndian(n, 8);
    assert b[..7][..6] == b[..6] && b[..6][..5] == b[..5] && b[..5][..4] == b[..4] && b[..4][..3] == b[..3];
    assert b[..3][..2] == b[..2] && b[..2][..1] == b[..1] && b[..1][..0] == [];
    assert FromBigEndian(b[..4]) == FromBigEndian(b[..3]) * 256 + b[3];
    assert FromBigEndian(b[..1]) == b[0];
  }

  function AllBytes(fs: seq<Frame>): seq<Byte> {
    if fs == [] then [] else Bytes(fs[0]) + AllBytes(fs[1..])
  }

  /** Why the server closes a subscription. */
  datatype CloseReason = Lagged | Closed

  function CloseCode(c: CloseReason): nat { if c.Lagged? then 0 else 1 }

  /** The close message: the code as its first field, left out when zero. */
  function CloseBytes(c: CloseReason): seq<Byte> { Wire.WriteGroups([Wire.Num(1, CloseCode(c))]) }

  datatype ReceiveError = EndOfStream | Undecodable | Unknown(code: int) | Ended(reason: CloseReason)

  /** The low 32 bits of a number, as a signed one. */
  function AsI32(n: nat): int {
    var low := n % 0x1_0000_0000;
    if low < 0x8000_0000 then low else low - 0x1_0000_0000
  }

  function ReadClose(b: seq<Byte>): ReceiveError {
    match Wire.ReadGroups(b, 1)
    case None => Undecodable
    case Some(g) => ErrorOf(AsI32(Wire.NumOr0(g[0])))
  }

  function ErrorOf(code: int): ReceiveError {
    if code == 0 then Ended(Lagged) else if code == 1 then Ended(Closed) else Unknown(code)
  }

  /** A client learns the reason the server gave. */
  lemma CloseRoundTrip(c: CloseReason)
    ensures ReadClose(CloseBytes(c)) == Ended(c) && |CloseBytes(c)| <= 2
  {
    var gs := [Wire.Num(1, CloseCode(c))];
    Wire.GroupsRoundTrip(gs);
    assert |Wire.WriteGroups(gs)| <= 2 by {
      Wire.GroupsLen(gs);
      assert Wire.VarintLen(8) == 1 && Wire.VarintLen(1) == 1;
    }
  }

  /** The two close messages, byte by byte; zero is the default and takes no bytes. */
  lemma CloseLayout()
    ensures CloseBytes(Lagged) == [] && CloseBytes(Closed) == [8, 1]
  {
  }

  /** The reading end of a stream. */
  class RecvStream {
    var unread: seq<Byte>

    constructor (bytes: seq<Byte>)
      ensures unread == bytes
    {
      unread := bytes;
    }

    /** The next `n` bytes, or an error if the stream ends before. */
    method ReadExact(n: nat) returns (r: Option<seq<Byte>>)
      modifies this
      ensures r.Some? <==> n <= |old(unread)|
      ensures r.Some? ==> |r.value| == n && old(unread) == r.value + unread
    {
      if n > |unread| { return None; }
      r, unread := Some(unread[..n]), unread[n..];
    }

    method ReadU64() returns (r: Option<nat>)
      modifies this
      ensures r.Some? <==> 8 <= |old(unread)|
      ensures r.Some? ==> r.value == FromBigEndian(old(unread)[..8]) && unread == old(unread)[8..]
    {
      var bytes := ReadExact(8);
      if bytes.None? { return None; }
      r := Some(FromBigEndian(bytes.value));
    }

    /** One frame, or the error that ends the subscription: the stream is too
        short, or the frame is a close frame. */
    method Recv() returns (r: Result<(nat, seq<Byte>), ReceiveError>)
      modifies this
      ensures var p := Parse(old(unread));
        && (p.None? <==> r == Err(EndOfStream))
        && (p.Some? ==> unread == p.value.1)
        && (p.Some? && p.value.0.id != U64_MAX ==> r == Ok((p.value.0.id, p.value.0.payload)))
        && (p.Some? && p.value.0.id == U64_MAX ==> r == Err(ReadClose(p.value.0.payload)))
    {
      var id := ReadU64();
      if id.None? { return Err(EndOfStream); }
      var error := id.value == U64_MAX;
      var size := ReadU64();
      if size.None? { return Err(EndOfStream); }
      ghost var body := unread;
      var payload := ReadExact(size.value);
      if payload.None? { return Err(EndOfStream); }
      assert payload.value == body[..size.value] && unread == body[size.value..];
      if error {
        r := Err(ReadClose(payload.value));
      } else {
        r := Ok((id.value, payload.value));
      }
    }
  }

  /** The frame at the start of `b`, and what follows it. */
  function Parse(b: seq<Byte>): (p: Option<(Frame, seq<Byte>)>)
    ensures p.Some? ==> |p.value.1| + 16 + |p.value.0.payload| == |b|
  {
    if |b| < 16 then None
    else
      var body, size := b[8..][8..], FromBigEndian(b[8..][..8]);
      if size > |body| then None else Some((Frame(FromBigEndian(b[..8]), body[..size]), body[size..]))
  }

  function ParseAll(b: seq<Byte>): seq<Frame>
    decreases |b|
  {
    match Parse(b)
    case None => []
    case Some((f, rest)) => [f] + ParseAll(rest)
  }

  lemma Words(x: seq<Byte>, y: seq<Byte>, body: seq<Byte>)
    requires |x| == 8 && |y| == 8
    ensures (x + y + body)[..8] == x
    ensures (x + y + body)[8..] == y + body
    ensures (y + body)[..8] == y
    ensures (y + body)[8..] == body
  {
  }

  lemma ParseFrame(f: Frame, rest: seq<Byte>)
    requires Sendable(f)
    ensures Parse(Bytes(f) + rest) == Some((f, rest))
  {
    var x, y, body := BigEndian(f.id, 8), BigEndian(|f.payload|, 8), f.payload + rest;
    assert FromBigEndian(x) == f.id && FromBigEndian(y) == |f.payload| by {
      WordRoundTrip(f.id);
      WordRoundTrip(|f.payload|);
    }
    assert Bytes(f) + rest == x + y + body;
    Words(x, y, body);
    assert body[..|f.payload|] == f.payload && body[|f.payload|..] == rest;
  }

  /** A reader gets back exactly the frames that were written on its stream. */
  lemma {:induction false} FramesRoundTrip(fs: seq<Frame>)
    requires forall i :: 0 <= i < |fs| ==> Sendable(fs[i])
    ensures ParseAll(AllBytes(fs)) == fs
    decreases |fs|
  {
    if fs != [] {
      ParseFrame(fs[0], AllBytes(fs[1..]));
      FramesRoundTrip(fs[1..]);
    }
  }
}
