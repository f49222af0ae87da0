// The 32-bit signed version counter. The release build's `+= 1` wraps around.
module Int32 {
  const MIN: int := -0x8000_0000
  const MAX: int := 0x7fff_ffff
  const SPAN: int := 0x1_0000_0000

  type I32 = x: int | MIN <= x <= MAX

  // The i32 that two's-complement arithmetic assigns to x.
  function Wrap(x: int): (r: I32)
    ensures (x - r) % SPAN == 0
    ensures MIN <= x <= MAX ==> r == x
  {
    (x - MIN) % SPAN + MIN
  }

  function Bump(v: I32): I32 {
    if v == MAX then MIN else v + 1
  }

  // Counting positions upward from just after gap: gap itself comes last.
  function Rank(gap: I32, v: I32): (r: nat)
    ensures r < SPAN
    ensures r == SPAN - 1 <==> v == gap
  {
    (v - gap - 1) % SPAN
  }

  lemma RankBump(gap: I32, v: I32)
    requires v != gap
    ensures Rank(gap, Bump(v)) == Rank(gap, v) + 1
  {
  }

  // One more than the largest i32 is the smallest.
  lemma BumpLiterally(v: I32)
    ensures -2147483648 <= v <= 2147483647
    ensures Bump(v) == if v == 2147483647 then -2147483648 else v + 1
    ensures forall x: int :: -2147483648 <= x <= 2147483647 ==> Wrap(x) == x
  {
  }

  lemma BumpIsWrap(x: int)
    ensures Bump(Wrap(x)) == Wrap(x + 1)
  {
  }

  lemma WrapCollides(start: I32, i: int, j: int)
    ensures Wrap(start + i) == Wrap(start + j) <==> (j - i) % SPAN == 0
  {
  }
}
