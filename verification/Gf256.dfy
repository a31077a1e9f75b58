/** The field GF(2^8) of AES (section 4 of FIPS 197), the truncated product the
    source computes in it, and the two column matrices, which invert each other.

    Proofs about whole products hide Add and Mul and rewrite with the small laws
    below; only those laws look at bits. */
module Gf256 {
  import opened Bytes

  // Addition of the field (section 4.1 of FIPS 197).
  function Add(x: byte, y: byte): byte { x ^ y }

  // xtime (crypto/aes128.c:79-82)
  function Xtime(x: byte): byte { (x << 1) ^ (((x >> 7) & 1) * 0x1b) }

  function Pick(b: byte, x: byte): byte { if b != 0 then x else 0 }

  // The product as section 4.2.1 of FIPS 197 builds it: add those of the multiples
  // x, 2x, 4x, ... that the bits of y select.
  function Mul(x: byte, y: byte): byte
    decreases y
  {
    if y == 0 then 0 else Add(Pick(y & 1, x), Mul(Xtime(x), y >> 1))
  }

  // ---- Laws of Add ----

  lemma AddAssoc(a: byte, b: byte, c: byte)
    ensures Add(a, Add(b, c)) == Add(Add(a, b), c)
  {
  }

  lemma AddComm(a: byte, b: byte)
    ensures Add(a, b) == Add(b, a)
  {
  }

  lemma AddZero(a: byte)
    ensures Add(a, 0) == a && Add(0, a) == a && Add(a, a) == 0
  {
  }

  lemma AddPairs(a: byte, b: byte, c: byte, d: byte)
    ensures Add(Add(a, b), Add(c, d)) == Add(Add(a, c), Add(b, d))
  {
    hide Add;
    calc {
      Add(Add(a, b), Add(c, d));
      { AddAssoc(a, b, Add(c, d)); }
      Add(a, Add(b, Add(c, d)));
      { AddAssoc(b, c, d); AddComm(b, c); AddAssoc(c, b, d); }
      Add(a, Add(c, Add(b, d)));
      { AddAssoc(a, c, Add(b, d)); }
      Add(Add(a, c), Add(b, d));
    }
  }

  // ---- The product, unrolled and linear ----

  lemma Unroll(x: byte, y: byte)
    ensures Mul(x, y) == Add(Pick(y & 1, x), Mul(Xtime(x), y >> 1))
  {
    if y == 0 {
      assert y >> 1 == 0 && y & 1 == 0;
    }
  }

  lemma XtimeIsLinear(x: byte, z: byte)
    ensures Xtime(Add(x, z)) == Add(Xtime(x), Xtime(z))
  {
  }

  lemma PickIsLinear(b: byte, x: byte, z: byte)
    ensures Pick(b, Add(x, z)) == Add(Pick(b, x), Pick(b, z))
  {
  }

  lemma {:induction false} MulIsLinear(x: byte, z: byte, y: byte)
    ensures Mul(Add(x, z), y) == Add(Mul(x, y), Mul(z, y))
    decreases y
  {
    if y == 0 {
      AddZero(0);
    } else {
      HalfIsLess(y);
      MulIsLinearStep(x, z, y);
    }
  }

  lemma HalfIsLess(y: byte)
    requires y != 0
    ensures y >> 1 < y
  {
  }

  lemma {:induction false} MulIsLinearStep(x: byte, z: byte, y: byte)
    requires y >> 1 < y
    ensures Mul(Add(x, z), y) == Add(Mul(x, y), Mul(z, y))
    decreases y, 0
  {
    hide Mul, Add, Xtime, Pick;
    MulIsLinear(Xtime(x), Xtime(z), y >> 1);
    XtimeIsLinear(x, z);
    PickIsLinear(y & 1, x, z);
    Unroll(x, y);
    Unroll(z, y);
    Unroll(Add(x, z), y);
    AddPairs(Pick(y & 1, x), Pick(y & 1, z), Mul(Xtime(x), y >> 1), Mul(Xtime(z), y >> 1));
  }

  // ---- xmul ----

  // x and y after i turns of the loop in xmul.
  function XtimeN(x: byte, i: nat): byte { if i == 0 then x else Xtime(XtimeN(x, i - 1)) }
  function HalveN(y: byte, i: nat): byte { if i == 0 then y else HalveN(y, i - 1) >> 1 }

  // m has gathered the part of the product total that x and y no longer hold.
  ghost predicate Partial(m: byte, x: byte, y: byte, total: byte) { Add(m, Mul(x, y)) == total }

  // xmul (crypto/aes128.c:84-95): only the low five bits of y take part, so the
  // result is the field product exactly when that drops nothing.
  method Xmul(x0: byte, y0: byte) returns (m: byte)
    ensures Partial(m, XtimeN(x0, 5), HalveN(y0, 5), Mul(x0, y0))
    ensures m == Mul(x0, y0) <==> x0 == 0 || y0 < 32
  {
    var x, y := x0, y0;
    m := 0;
    ghost var total := Mul(x0, y0);
    PartialStart(x, y);
    for i := 0 to 5
      invariant Partial(m, x, y, total)
      invariant x == XtimeN(x0, i) && y == HalveN(y0, i)
    {
      PartialTurn(m, x, y, total);
      if y & 1 != 0 { m := m ^ x; }
      y := y >> 1;
      x := Xtime(x);
    }
    PartialEnd(m, x0, y0);
  }

  lemma PartialStart(x: byte, y: byte)
    ensures Partial(0, x, y, Mul(x, y))
  {
  }

  lemma PartialTurn(m: byte, x: byte, y: byte, total: byte)
    requires Partial(m, x, y, total)
    ensures Partial(if y & 1 != 0 then m ^ x else m, Xtime(x), y >> 1, total)
  {
    AddPick(m, y & 1, x);
    PartialStep(m, x, y, total);
  }

  lemma AddPick(m: byte, b: byte, x: byte)
    ensures Add(m, Pick(b, x)) == if b != 0 then m ^ x else m
  {
  }

  lemma PartialStep(m: byte, x: byte, y: byte, total: byte)
    requires Partial(m, x, y, total)
    ensures Partial(Add(m, Pick(y & 1, x)), Xtime(x), y >> 1, total)
  {
    hide Mul, Add, Xtime, Pick;
    Unroll(x, y);
    AddAssoc(m, Pick(y & 1, x), Mul(Xtime(x), y >> 1));
  }

  lemma PartialEnd(m: byte, x: byte, y: byte)
    requires Partial(m, XtimeN(x, 5), HalveN(y, 5), Mul(x, y))
    ensures m == Mul(x, y) <==> x == 0 || y < 32
  {
    DroppedPart(x, y);
    AddCancels(m, Mul(XtimeN(x, 5), HalveN(y, 5)));
  }

  lemma AddCancels(m: byte, rest: byte)
    ensures Add(m, rest) == m <==> rest == 0
  {
  }

  // What the five steps leave out vanishes exactly when x is 0 or y has no high bit.
  lemma DroppedPart(x: byte, y: byte)
    ensures Mul(XtimeN(x, 5), HalveN(y, 5)) == 0 <==> x == 0 || y < 32
  {
    HalveFive(y);
    XtimeNIsInjective(x, 5);
    NoZeroDivisors(XtimeN(x, 5), HalveN(y, 5));
  }

  lemma HalveFive(y: byte)
    ensures HalveN(y, 5) < 8
    ensures HalveN(y, 5) == 0 <==> y < 32
  {
    assert HalveN(y, 1) == y >> 1;
    assert HalveN(y, 2) == y >> 2;
    assert HalveN(y, 3) == y >> 3;
    assert HalveN(y, 4) == y >> 4;
  }

  lemma XtimeIsInjective(x: byte)
    ensures Xtime(x) == 0 <==> x == 0
  {
  }

  lemma {:induction false} XtimeNIsInjective(x: byte, i: nat)
    ensures XtimeN(x, i) == 0 <==> x == 0
  {
    if i > 0 {
      XtimeNIsInjective(x, i - 1);
      XtimeIsInjective(XtimeN(x, i - 1));
    }
  }

  lemma NoZeroDivisors(x: byte, y: byte)
    requires y < 8
    ensures Mul(x, y) == 0 <==> x == 0 || y == 0
  {
    SmallProducts(x, y);
    SmallProductsAreNonzero(x, y);
  }

  // The product by a constant of three or four bits, without recursion.
  function ThreeBits(x: byte, y: byte): byte {
    Add(Pick(y & 1, x), Add(Pick((y >> 1) & 1, Xtime(x)), Pick((y >> 2) & 1, Xtime(Xtime(x)))))
  }

  function FourBits(x: byte, y: byte): byte {
    Add(Pick(y & 1, x), ThreeBits(Xtime(x), y >> 1))
  }

  lemma SmallProductsAreNonzero(x: byte, y: byte)
    requires y < 8
    ensures ThreeBits(x, y) == 0 <==> x == 0 || y == 0
  {
  }

  lemma SmallProducts(x: byte, y: byte)
    requires y < 8
    ensures Mul(x, y) == ThreeBits(x, y)
  {
    Unroll(x, y);
    Unroll(Xtime(x), y >> 1);
    Unroll(Xtime(Xtime(x)), (y >> 1) >> 1);
    assert (y >> 1) >> 1 == y >> 2 && (y >> 2) >> 1 == 0;
    AddZero(Pick((y >> 2) & 1, Xtime(Xtime(x))));
  }

  lemma NibbleProducts(x: byte, y: byte)
    requires y < 16
    ensures Mul(x, y) == FourBits(x, y)
  {
    Unroll(x, y);
    SmallProducts(Xtime(x), y >> 1);
  }

  // ---- The column matrices (sections 5.1.3 and 5.3.3 of FIPS 197) ----

  // One row of a matrix applied to a column.
  function Dot(b0: byte, b1: byte, b2: byte, b3: byte, a0: byte, a1: byte, a2: byte, a3: byte): byte {
    Add(Add(Mul(b0, a0), Mul(b1, a1)), Add(Mul(b2, a2), Mul(b3, a3)))
  }

  lemma DotIsLinear(b0: byte, b1: byte, b2: byte, b3: byte, c0: byte, c1: byte, c2: byte, c3: byte,
                    a0: byte, a1: byte, a2: byte, a3: byte)
    ensures Dot(Add(b0, c0), Add(b1, c1), Add(b2, c2), Add(b3, c3), a0, a1, a2, a3)
         == Add(Dot(b0, b1, b2, b3, a0, a1, a2, a3), Dot(c0, c1, c2, c3, a0, a1, a2, a3))
  {
    hide Mul, Add;
    MulIsLinear(b0, c0, a0);
    MulIsLinear(b1, c1, a1);
    MulIsLinear(b2, c2, a2);
    MulIsLinear(b3, c3, a3);
    AddPairs(Mul(b0, a0), Mul(c0, a0), Mul(b1, a1), Mul(c1, a1));
    AddPairs(Mul(b2, a2), Mul(c2, a2), Mul(b3, a3), Mul(c3, a3));
    AddPairs(Add(Mul(b0, a0), Mul(b1, a1)), Add(Mul(c0, a0), Mul(c1, a1)),
             Add(Mul(b2, a2), Mul(b3, a3)), Add(Mul(c2, a2), Mul(c3, a3)));
  }

  function Fwd(b0: byte, b1: byte, b2: byte, b3: byte): byte { Dot(b0, b1, b2, b3, 2, 3, 1, 1) }
  function Inv(b0: byte, b1: byte, b2: byte, b3: byte): byte { Dot(b0, b1, b2, b3, 14, 11, 13, 9) }

  // The constants of the matrices, as sums of doublings.
  function By3(x: byte): byte { x ^ Xtime(x) }
  function By9(x: byte): byte { x ^ Xtime(Xtime(Xtime(x))) }
  function ByB(x: byte): byte { x ^ Xtime(x) ^ Xtime(Xtime(Xtime(x))) }
  function ByD(x: byte): byte { x ^ Xtime(Xtime(x)) ^ Xtime(Xtime(Xtime(x))) }
  function ByE(x: byte): byte { Xtime(x) ^ Xtime(Xtime(x)) ^ Xtime(Xtime(Xtime(x))) }

  lemma FourBits1(x: byte) ensures FourBits(x, 1) == x {}
  lemma FourBits2(x: byte) ensures FourBits(x, 2) == Xtime(x) {}
  lemma FourBits3(x: byte) ensures FourBits(x, 3) == By3(x) {}
  lemma FourBits9(x: byte) ensures FourBits(x, 9) == By9(x) {}
  lemma FourBitsB(x: byte) ensures FourBits(x, 11) == ByB(x) {}
  lemma FourBitsD(x: byte) ensures FourBits(x, 13) == ByD(x) {}
  lemma FourBitsE(x: byte) ensures FourBits(x, 14) == ByE(x) {}

  lemma Constants(x: byte)
    ensures Mul(x, 1) == x && Mul(x, 2) == Xtime(x) && Mul(x, 3) == By3(x)
    ensures Mul(x, 9) == By9(x) && Mul(x, 11) == ByB(x) && Mul(x, 13) == ByD(x) && Mul(x, 14) == ByE(x)
  {
    hide Mul, FourBits, Xtime, By3, By9, ByB, ByD, ByE;
    NibbleProducts(x, 1);
    NibbleProducts(x, 2);
    NibbleProducts(x, 3);
    NibbleProducts(x, 9);
    NibbleProducts(x, 11);
    NibbleProducts(x, 13);
    NibbleProducts(x, 14);
    FourBits1(x); FourBits2(x); FourBits3(x); FourBits9(x); FourBitsB(x); FourBitsD(x); FourBitsE(x);
  }

  // The first row of each matrix against the columns of the other: 1, 0, 0, 0.
  lemma InverseRow0(x: byte) ensures Add(Add(ByE(Xtime(x)), ByB(x)), Add(ByD(x), By9(By3(x)))) == x {}
  lemma InverseRow1(x: byte) ensures Add(Add(ByE(By3(x)), ByB(Xtime(x))), Add(ByD(x), By9(x))) == 0 {}
  lemma InverseRow2(x: byte) ensures Add(Add(ByE(x), ByB(By3(x))), Add(ByD(Xtime(x)), By9(x))) == 0 {}
  lemma InverseRow3(x: byte) ensures Add(Add(ByE(x), ByB(x)), Add(ByD(By3(x)), By9(Xtime(x)))) == 0 {}
  lemma ForwardRow0(x: byte) ensures Add(Add(Xtime(ByE(x)), By3(By9(x))), Add(ByD(x), ByB(x))) == x {}
  lemma ForwardRow1(x: byte) ensures Add(Add(Xtime(ByB(x)), By3(ByE(x))), Add(By9(x), ByD(x))) == 0 {}
  lemma ForwardRow2(x: byte) ensures Add(Add(Xtime(ByD(x)), By3(ByB(x))), Add(ByE(x), By9(x))) == 0 {}
  lemma ForwardRow3(x: byte) ensures Add(Add(Xtime(By9(x)), By3(ByD(x))), Add(ByB(x), ByE(x))) == 0 {}

  lemma AddFour(a: byte, b: byte, c: byte, d: byte)
    ensures Add(Add(a, b), Add(c, d)) == a ^ b ^ c ^ d
  {
    assert Add(a, b) == a ^ b && Add(c, d) == c ^ d;
  }

  lemma InverseColumn(x: byte)
    ensures Inv(Mul(x, 2), Mul(x, 1), Mul(x, 1), Mul(x, 3)) == x
    ensures Inv(Mul(x, 3), Mul(x, 2), Mul(x, 1), Mul(x, 1)) == 0
    ensures Inv(Mul(x, 1), Mul(x, 3), Mul(x, 2), Mul(x, 1)) == 0
    ensures Inv(Mul(x, 1), Mul(x, 1), Mul(x, 3), Mul(x, 2)) == 0
  {
    hide Mul, Add, Xtime, By3, By9, ByB, ByD, ByE;
    Constants(x);
    Constants(Xtime(x));
    Constants(By3(x));
    InverseRow0(x);
    InverseRow1(x);
    InverseRow2(x);
    InverseRow3(x);
  }

  lemma ForwardColumn(x: byte)
    ensures Fwd(Mul(x, 14), Mul(x, 9), Mul(x, 13), Mul(x, 11)) == x
    ensures Fwd(Mul(x, 11), Mul(x, 14), Mul(x, 9), Mul(x, 13)) == 0
    ensures Fwd(Mul(x, 13), Mul(x, 11), Mul(x, 14), Mul(x, 9)) == 0
    ensures Fwd(Mul(x, 9), Mul(x, 13), Mul(x, 11), Mul(x, 14)) == 0
  {
    hide Mul, Add, Xtime, By3, By9, ByB, ByD, ByE;
    Constants(x);
    Constants(By9(x));
    Constants(ByB(x));
    Constants(ByD(x));
    Constants(ByE(x));
    ForwardRow0(x);
    ForwardRow1(x);
    ForwardRow2(x);
    ForwardRow3(x);
  }

  // A sum of four, cyclically shifted.
  lemma AddRotate(a: byte, b: byte, c: byte, d: byte)
    ensures Add(Add(a, b), Add(c, d)) == Add(Add(d, a), Add(b, c))
  {
    AddFour(a, b, c, d);
    AddFour(d, a, b, c);
  }

  // A matrix applied to a sum of four columns p, q, r, s.
  lemma DotOfFour(p0: byte, p1: byte, p2: byte, p3: byte, q0: byte, q1: byte, q2: byte, q3: byte,
                  r0: byte, r1: byte, r2: byte, r3: byte, s0: byte, s1: byte, s2: byte, s3: byte,
                  a0: byte, a1: byte, a2: byte, a3: byte)
    ensures Dot(Add(Add(p0, q0), Add(r0, s0)), Add(Add(p1, q1), Add(r1, s1)),
                Add(Add(p2, q2), Add(r2, s2)), Add(Add(p3, q3), Add(r3, s3)), a0, a1, a2, a3)
         == Add(Add(Dot(p0, p1, p2, p3, a0, a1, a2, a3), Dot(q0, q1, q2, q3, a0, a1, a2, a3)),
                Add(Dot(r0, r1, r2, r3, a0, a1, a2, a3), Dot(s0, s1, s2, s3, a0, a1, a2, a3)))
  {
    hide Mul, Add, Dot;
    DotIsLinear(p0, p1, p2, p3, q0, q1, q2, q3, a0, a1, a2, a3);
    DotIsLinear(r0, r1, r2, r3, s0, s1, s2, s3, a0, a1, a2, a3);
    DotIsLinear(Add(p0, q0), Add(p1, q1), Add(p2, q2), Add(p3, q3),
                Add(r0, s0), Add(r1, s1), Add(r2, s2), Add(r3, s3), a0, a1, a2, a3);
  }

  lemma OnlyFirst(x: byte)
    ensures Add(Add(x, 0), Add(0, 0)) == x
  {
  }

  // Each matrix undoes the other, on every column.
  lemma InverseAfterForward(b0: byte, b1: byte, b2: byte, b3: byte)
    ensures Inv(Fwd(b0, b1, b2, b3), Fwd(b1, b2, b3, b0), Fwd(b2, b3, b0, b1), Fwd(b3, b0, b1, b2)) == b0
  {
    hide Mul, Add;
    AddRotate(Mul(b1, 2), Mul(b2, 3), Mul(b3, 1), Mul(b0, 1));
    AddRotate(Mul(b2, 2), Mul(b3, 3), Mul(b0, 1), Mul(b1, 1));
    AddRotate(Mul(b1, 1), Mul(b2, 2), Mul(b3, 3), Mul(b0, 1));
    AddRotate(Mul(b3, 2), Mul(b0, 3), Mul(b1, 1), Mul(b2, 1));
    AddRotate(Mul(b2, 1), Mul(b3, 2), Mul(b0, 3), Mul(b1, 1));
    AddRotate(Mul(b1, 1), Mul(b2, 1), Mul(b3, 2), Mul(b0, 3));
    DotOfFour(Mul(b0, 2), Mul(b0, 1), Mul(b0, 1), Mul(b0, 3), Mul(b1, 3), Mul(b1, 2), Mul(b1, 1), Mul(b1, 1),
              Mul(b2, 1), Mul(b2, 3), Mul(b2, 2), Mul(b2, 1), Mul(b3, 1), Mul(b3, 1), Mul(b3, 3), Mul(b3, 2),
              14, 11, 13, 9);
    InverseColumn(b0);
    InverseColumn(b1);
    InverseColumn(b2);
    InverseColumn(b3);
    OnlyFirst(b0);
  }

  lemma ForwardAfterInverse(b0: byte, b1: byte, b2: byte, b3: byte)
    ensures Fwd(Inv(b0, b1, b2, b3), Inv(b1, b2, b3, b0), Inv(b2, b3, b0, b1), Inv(b3, b0, b1, b2)) == b0
  {
    hide Mul, Add;
    AddRotate(Mul(b1, 14), Mul(b2, 11), Mul(b3, 13), Mul(b0, 9));
    AddRotate(Mul(b2, 14), Mul(b3, 11), Mul(b0, 13), Mul(b1, 9));
    AddRotate(Mul(b1, 9), Mul(b2, 14), Mul(b3, 11), Mul(b0, 13));
    AddRotate(Mul(b3, 14), Mul(b0, 11), Mul(b1, 13), Mul(b2, 9));
    AddRotate(Mul(b2, 9), Mul(b3, 14), Mul(b0, 11), Mul(b1, 13));
    AddRotate(Mul(b1, 13), Mul(b2, 9), Mul(b3, 14), Mul(b0, 11));
    DotOfFour(Mul(b0, 14), Mul(b0, 9), Mul(b0, 13), Mul(b0, 11), Mul(b1, 11), Mul(b1, 14), Mul(b1, 9), Mul(b1, 13),
              Mul(b2, 13), Mul(b2, 11), Mul(b2, 14), Mul(b2, 9), Mul(b3, 9), Mul(b3, 13), Mul(b3, 11), Mul(b3, 14),
              2, 3, 1, 1);
    ForwardColumn(b0);
    ForwardColumn(b1);
    ForwardColumn(b2);
    ForwardColumn(b3);
    OnlyFirst(b0);
  }
}
