/** Mask arithmetic shared by every ring of the program: a position is turned
    into a cell number with `pos & mask`, where `mask` is the capacity minus one. */
module RingIndex {

  /** Bitwise conjunction of two unsigned numbers, bit by bit from the lowest. */
  function BitAnd(a: nat, b: nat): (r: nat)
    ensures r <= a && r <= b
  {
    if a == 0 || b == 0 then 0 else 2 * BitAnd(a / 2, b / 2) + if a % 2 == 1 && b % 2 == 1 then 1 else 0
  }

  function Pow2(k: nat): (r: nat)
    ensures r >= 1
  {
    if k == 0 then 1 else 2 * Pow2(k - 1)
  }

  ghost predicate IsPow2(n: nat) {
    exists k :: n == Pow2(k)
  }

  /** The cell that position `pos` uses in a ring of `cap` cells. */
  function Idx(pos: nat, cap: nat): (i: nat)
    requires cap >= 1
    ensures i < cap && i <= pos
  {
    BitAnd(pos, cap - 1)
  }

  /** The least power of two that is at least `n`. */
  function NextPow2From(n: nat, k: nat): (r: nat)
    requires k == 0 || Pow2(k - 1) < n
    ensures IsPow2(r) && r >= n && r >= 1
    ensures forall j: nat :: Pow2(j) >= n ==> Pow2(j) >= r
    decreases if n <= Pow2(k) then 0 else n - Pow2(k)
  {
    if n <= Pow2(k) then
      MonotoneFrom(n, k);
      Pow2(k)
    else
      NextPow2From(n, k + 1)
  }

  function NextPow2(n: nat): (r: nat)
    ensures IsPow2(r) && r >= n && r >= 1
    ensures forall j: nat :: Pow2(j) >= n ==> Pow2(j) >= r
  {
    NextPow2From(n, 0)
  }

  lemma {:induction false} Monotone(i: nat, j: nat)
    requires i <= j
    ensures Pow2(i) <= Pow2(j)
    decreases j
  {
    if i < j { Monotone(i, j - 1); }
  }

  lemma MonotoneFrom(n: nat, k: nat)
    requires k == 0 || Pow2(k - 1) < n
    ensures forall j: nat :: Pow2(j) >= n ==> Pow2(j) >= Pow2(k)
  {
    forall j: nat | Pow2(j) >= n ensures Pow2(j) >= Pow2(k) {
      if j < k { Monotone(j, k - 1); } else { Monotone(k, j); }
    }
  }

  /** The remainder, by taking `m` away as often as that goes. */
  function Mod(p: nat, m: nat): (r: nat)
    requires m >= 1
    ensures r < m
  {
    if p < m then p else Mod(p - m, m)
  }

  lemma {:induction false} ModIs(p: nat, m: nat)
    requires m >= 1
    ensures Mod(p, m) == p % m
    decreases p
  {
    if p < m {
      ModUnique(p, m, 0, p);
    } else {
      ModIs(p - m, m);
      var d, r := (p - m) / m, (p - m) % m;
      assert p == m * (d + 1) + r;
      ModUnique(p, m, d + 1, r);
    }
  }

  lemma {:induction false} MaskIsMod(pos: nat, k: nat)
    ensures BitAnd(pos, Pow2(k) - 1) == Mod(pos, Pow2(k))
    decreases k
  {
    if k > 0 {
      MaskIsMod(pos / 2, k - 1);
      MaskModStep(pos, Pow2(k - 1));
    } else {
      ModOne(pos);
    }
  }

  lemma ModOne(p: nat)
    ensures Mod(p, 1) == 0
  {
  }

  lemma MaskModStep(pos: nat, q: nat)
    requires q >= 1 && BitAnd(pos / 2, q - 1) == Mod(pos / 2, q)
    ensures BitAnd(pos, 2 * q - 1) == Mod(pos, 2 * q)
  {
    MaskStep(pos, q);
    DoubleMod(pos, q);
  }

  lemma MaskStep(pos: nat, q: nat)
    requires q >= 1
    ensures BitAnd(pos, 2 * q - 1) == 2 * BitAnd(pos / 2, q - 1) + pos % 2
  {
    assert (2 * q - 1) / 2 == q - 1 && (2 * q - 1) % 2 == 1;
    LowestBit(pos, 2 * q - 1);
  }

  lemma {:induction false} DoubleMod(p: nat, q: nat)
    requires q >= 1
    ensures 2 * Mod(p / 2, q) + p % 2 == Mod(p, 2 * q)
    decreases p
  {
    if p >= 2 * q {
      DoubleMod(p - 2 * q, q);
      assert (p - 2 * q) / 2 == p / 2 - q && (p - 2 * q) % 2 == p % 2;
    }
  }

  lemma {:induction false} MulAtLeast(m: nat, k: int)
    requires k >= 1
    ensures m * k >= m
    decreases k
  {
    if k > 1 {
      MulAtLeast(m, k - 1);
      assert m * k == m * (k - 1) + m;
    }
  }

  lemma ModUnique(p: nat, m: nat, d: nat, r: nat)
    requires 0 <= r < m && p == m * d + r
    ensures p % m == r
  {
    var d' := p / m;
    assert p == m * d' + p % m;
    if d > d' {
      MulAtLeast(m, d - d');
    } else if d < d' {
      MulAtLeast(m, d' - d);
    }
  }

  lemma LowestBit(a: nat, m: nat)
    requires m % 2 == 1
    ensures BitAnd(a, m) == 2 * BitAnd(a / 2, m / 2) + a % 2
  {
  }

  lemma WrapStep(pos: nat, half: nat, lap: nat)
    requires half >= 1 && lap == pos + 2 * half && BitAnd(pos / 2 + half, half - 1) == BitAnd(pos / 2, half - 1)
    ensures BitAnd(lap, 2 * half - 1) == BitAnd(pos, 2 * half - 1)
  {
    assert lap / 2 == pos / 2 + half && lap % 2 == pos % 2;
    MaskStep(pos, half);
    MaskStep(lap, half);
  }

  lemma {:induction false} WrapPow2(pos: nat, k: nat, cap: nat)
    requires cap == Pow2(k)
    ensures BitAnd(pos + cap, cap - 1) == BitAnd(pos, cap - 1)
    decreases k
  {
    if k > 0 {
      var half := Pow2(k - 1);
      WrapPow2(pos / 2, k - 1, half);
      WrapStep(pos, half, pos + cap);
    }
  }

  lemma SameLowBit(a: nat, b: nat, x: nat, y: nat)
    requires a < 2 && b < 2 && 2 * x + a == 2 * y + b
    ensures a == b && x == y
  {
  }

  lemma {:induction false} InjectivePow2(p: nat, q: nat, k: nat)
    requires p < q + Pow2(k) && q < p + Pow2(k)
    requires BitAnd(p, Pow2(k) - 1) == BitAnd(q, Pow2(k) - 1)
    ensures p == q
    decreases k
  {
    if k > 0 {
      var half := Pow2(k - 1);
      MaskStep(p, half);
      MaskStep(q, half);
      SameLowBit(p % 2, q % 2, BitAnd(p / 2, half - 1), BitAnd(q / 2, half - 1));
      InjectivePow2(p / 2, q / 2, k - 1);
    }
  }

  /** One lap further on is the same cell. */
  lemma IdxWraps(pos: nat, cap: nat)
    requires cap >= 1 && IsPow2(cap)
    ensures Idx(pos + cap, cap) == Idx(pos, cap)
  {
    var k :| cap == Pow2(k);
    WrapPow2(pos, k, cap);
  }

  /** Positions less than one lap apart never share a cell. */
  lemma IdxInjective(p: nat, q: nat, cap: nat)
    requires cap >= 1 && IsPow2(cap)
    requires p < q + cap && q < p + cap
    ensures Idx(p, cap) == Idx(q, cap) <==> p == q
  {
    var k :| cap == Pow2(k);
    if Idx(p, cap) == Idx(q, cap) {
      InjectivePow2(p, q, k);
    }
  }

  /** With a power of two for capacity the mask is the remainder of a division. */
  lemma IdxIsMod(pos: nat, cap: nat)
    requires cap >= 1 && IsPow2(cap)
    ensures Idx(pos, cap) == pos % cap
  {
    var k :| cap == Pow2(k);
    MaskIsMod(pos, k);
    ModIs(pos, cap);
  }

  lemma IdxSmall(pos: nat, cap: nat)
    requires pos < cap && IsPow2(cap)
    ensures Idx(pos, cap) == pos
  {
    IdxIsMod(pos, cap);
    ModUnique(pos, cap, 0, pos);
  }

  /** Masking twice is masking once. */
  lemma {:induction false} MaskTwice(a: nat, m: nat)
    ensures BitAnd(BitAnd(a, m), m) == BitAnd(a, m)
    decreases m
  {
    if a != 0 && m != 0 {
      MaskTwice(a / 2, m / 2);
      var r := BitAnd(a, m);
      assert r / 2 == BitAnd(a / 2, m / 2) && r % 2 == (if a % 2 == 1 && m % 2 == 1 then 1 else 0);
    }
  }

  lemma DoublePow2(n: nat)
    ensures IsPow2(n) ==> IsPow2(2 * n)
  {
    if IsPow2(n) {
      var k: nat :| n == Pow2(k);
      assert 2 * n == Pow2(k + 1);
    }
  }

  /** A mask that is not one less than a power of two has a gap: some number up to
      it that masking changes. */
  lemma {:induction false} MaskGap(m: nat) returns (i: nat)
    requires !IsPow2(m + 1)
    ensures 0 < i <= m && BitAnd(i, m) != i
    decreases m
  {
    assert Pow2(0) == 1;
    if m % 2 == 0 {
      i := 1;
      assert BitAnd(0, m / 2) == 0;
    } else {
      DoublePow2(m / 2 + 1);
      i := MaskGap(m / 2);
      assert (2 * i) / 2 == i && (2 * i) % 2 == 0;
      i := 2 * i;
    }
  }

  /** Then some cell is never used. */
  lemma UnusedCell(cap: nat) returns (i: nat)
    requires cap >= 1 && !IsPow2(cap)
    ensures i < cap && forall p :: Idx(p, cap) != i
  {
    i := MaskGap(cap - 1);
    forall p ensures Idx(p, cap) != i { MaskTwice(p, cap - 1); }
  }
}
