/** The sequence generator: which numbers it draws, and when two draws are the same. */
module Sequences {
  import opened Words
  import opened Endpoint

  /** The length of the cycle: every 32-bit value but zero. */
  const CYCLE := 0xffff_ffff

  /** The k-th number drawn after a bind. */
  function Draw(k: nat): u32
  {
    if k == 0 then 0 else NextSequence(Draw(k - 1))
  }

  lemma {:induction false} DrawClosedForm(k: nat)
    requires k > 0
    ensures Draw(k) == (k - 1) % CYCLE + 1
  {
    if k > 1 {
      DrawClosedForm(k - 1);
      ResidueStep(k - 2);
    } else {
      assert Draw(0) == 0;
    }
  }

  lemma ResidueStep(n: nat)
    ensures (n + 1) % CYCLE == if n % CYCLE == CYCLE - 1 then 0 else n % CYCLE + 1
  {
    var q, r := n / CYCLE, n % CYCLE;
    assert n == q * CYCLE + r;
    if r == CYCLE - 1 {
      assert n + 1 == (q + 1) * CYCLE;
    } else {
      assert n + 1 == q * CYCLE + (r + 1);
    }
  }

  lemma SameResidue(a: nat, d: nat)
    ensures (a + d) % CYCLE == a % CYCLE <==> d % CYCLE == 0
  {
    var r, s := a % CYCLE, d % CYCLE;
    assert a + d == (a / CYCLE + d / CYCLE) * CYCLE + (r + s);
    if r + s < CYCLE {
      assert (a + d) % CYCLE == r + s;
    } else {
      assert a + d == (a / CYCLE + d / CYCLE + 1) * CYCLE + (r + s - CYCLE);
      assert (a + d) % CYCLE == r + s - CYCLE;
    }
  }

  /** Never zero, and two draws agree exactly when they are a whole number of cycles apart. */
  lemma DrawsRepeatExactlyByCycle(i: nat, j: nat)
    requires 0 < i <= j
    ensures Draw(i) != 0
    ensures Draw(i) == Draw(j) <==> (j - i) % CYCLE == 0
  {
    hide Draw;
    DrawClosedForm(i);
    DrawClosedForm(j);
    SameResidue(i - 1, j - i);
    assert (i - 1) + (j - i) == j - 1;
  }

  /** The cycle misses nothing: every non-zero value is drawn within one cycle. */
  lemma EveryValueIsDrawn(v: u32)
    requires v != 0
    ensures Draw(v) == v
  {
    DrawClosedForm(v);
  }
}
