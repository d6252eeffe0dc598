// Powers of two, and bit operations on 64-bit words as arithmetic.
module Bits {
  const WORD: nat := 0x1_0000_0000_0000_0000

  function Pow2(k: nat): (p: nat)
    ensures p >= 1
  {
    if k == 0 then 1 else 2 * Pow2(k - 1)
  }

  function Or(a: nat, b: nat): nat {
    if a == 0 then b
    else if b == 0 then a
    else 2 * Or(a / 2, b / 2) + (if a % 2 == 1 || b % 2 == 1 then 1 else 0)
  }

  function And(a: nat, b: nat): nat {
    if a == 0 || b == 0 then 0
    else 2 * And(a / 2, b / 2) + (if a % 2 == 1 && b % 2 == 1 then 1 else 0)
  }

  function Doublings(a: nat, k: nat): nat {
    if k == 0 then a else 2 * Doublings(a, k - 1)
  }

  // Shifts of 64-bit words; bits shifted out are lost.
  function ShiftLeft(a: nat, k: nat): nat {
    Doublings(a, k) % WORD
  }

  function ShiftRight(a: nat, k: nat): nat {
    if k == 0 then a else ShiftRight(a / 2, k - 1)
  }

  // ---- one bit at a time ----

  lemma OrBit(word: nat, high: nat, b: nat)
    requires word == 2 * high
    ensures Or(word, b) == 2 * Or(high, b / 2) + b % 2
  {
    assert word / 2 == high && word % 2 == 0;
  }

  lemma AndBit(word: nat, mask: nat, high: nat, b: nat, p: nat)
    requires p >= 1 && word == 2 * high + b && mask == 2 * p - 1
    ensures And(word, mask) == 2 * And(high + b / 2, p - 1) + b % 2
  {
    assert word / 2 == high + b / 2 && word % 2 == b % 2;
    assert mask / 2 == p - 1 && mask % 2 == 1;
  }

  lemma AndNothing(word: nat, mask: nat)
    requires mask == 0
    ensures And(word, mask) == 0
  {
  }

  lemma ShiftBit(word: nat, high: nat, b: nat, k: nat)
    requires k > 0 && word == 2 * high + b
    ensures ShiftRight(word, k) == ShiftRight(high + b / 2, k - 1)
  {
    assert word / 2 == high + b / 2;
  }

  // ---- whole fields ----

  lemma {:induction false} DoublingsMultiply(a: nat, k: nat)
    ensures Doublings(a, k) == a * Pow2(k)
  {
    if k > 0 {
      DoublingsMultiply(a, k - 1);
      Reorder(a, Pow2(k - 1));
    }
  }

  lemma Reorder(a: nat, p: nat)
    ensures a * (2 * p) == 2 * (a * p)
  {
  }

  // Or adds when the low operand stays below the high one's zeros.
  lemma {:induction false} OrAdds(a: nat, b: nat, k: nat)
    requires b < Pow2(k)
    ensures Or(Doublings(a, k), b) == Doublings(a, k) + b
  {
    if k == 0 { return; }
    hide Or;
    OrBit(Doublings(a, k), Doublings(a, k - 1), b);
    OrAdds(a, b / 2, k - 1);
  }

  // And with a mask of ones keeps the low bits ...
  lemma {:induction false} AndMasks(a: nat, b: nat, k: nat)
    requires b < Pow2(k)
    ensures And(Doublings(a, k) + b, Pow2(k) - 1) == b
  {
    hide And;
    if k == 0 {
      AndNothing(Doublings(a, k) + b, Pow2(k) - 1);
      return;
    }
    AndBit(Doublings(a, k) + b, Pow2(k) - 1, Doublings(a, k - 1), b, Pow2(k - 1));
    AndMasks(a, b / 2, k - 1);
  }

  // ... and a shift to the right keeps the others.
  lemma {:induction false} ShiftDrops(a: nat, b: nat, k: nat)
    requires b < Pow2(k)
    ensures ShiftRight(Doublings(a, k) + b, k) == a
  {
    if k == 0 { return; }
    hide ShiftRight;
    ShiftBit(Doublings(a, k) + b, Doublings(a, k - 1), b, k);
    ShiftDrops(a, b / 2, k - 1);
  }

  lemma {:induction false} AndIsBelow(a: nat, b: nat)
    ensures And(a, b) <= b
  {
    if a > 0 && b > 0 { AndIsBelow(a / 2, b / 2); }
  }
}
