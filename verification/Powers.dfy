module Powers {
  function Pow2(k: nat): (p: nat)
    ensures p >= 1
  {
    if k == 0 then 1 else 2 * Pow2(k - 1)
  }

  lemma {:induction false} PowGrows(k: nat, more: nat)
    requires k <= more
    ensures Pow2(k) <= Pow2(more)
    decreases more
  {
    if k == more {
    } else {
      PowGrows(k, more - 1);
    }
  }
}
