// The permuter as the code stores it: one word, the size in the lowest nibble and the slots above it. All shifts in the
// code are by whole nibbles, so a word is its nibbles, lowest first; additions carry and subtractions borrow.
module Permuter {
  import opened PermSpec

  type Nibble = b: nat | b < 16
  type Word = seq<Nibble>

  // ---------- a nibble's bits ----------
  function Pow2(n: nat): (r: nat)
    ensures r > 0
  { if n == 0 then 1 else 2 * Pow2(n - 1) }

  datatype BitOp = AND | OR | XOR

  function Bit(op: BitOp, a: bool, b: bool): nat {
    if (match op case AND => a && b case OR => a || b case XOR => a != b) then 1 else 0
  }

  function Bits(op: BitOp, a: nat, b: nat, n: nat): (r: nat)
    ensures r < Pow2(n)
  { if n == 0 then 0 else Bit(op, a % 2 == 1, b % 2 == 1) + 2 * Bits(op, a / 2, b / 2, n - 1) }

  function Nib(op: BitOp, a: Nibble, b: Nibble): Nibble {
    assert Pow2(4) == 16;
    Bits(op, a, b, 4)
  }

  lemma {:induction false} OnesBits(a: nat, n: nat)
    requires a < Pow2(n)
    ensures Bits(AND, a, Pow2(n) - 1, n) == a
  {
    if n > 0 {
      var p := Pow2(n - 1);
      assert (2 * p - 1) / 2 == p - 1 && (2 * p - 1) % 2 == 1;
      OnesBits(a / 2, n - 1);
    }
  }

  lemma {:induction false} ZeroBits(a: nat, n: nat)
    requires a < Pow2(n)
    ensures Bits(AND, a, 0, n) == 0 && Bits(OR, a, 0, n) == a && Bits(OR, 0, a, n) == a && Bits(XOR, a, 0, n) == a
  { if n > 0 { ZeroBits(a / 2, n - 1); } }

  lemma {:induction false} XorBits(a: nat, b: nat, n: nat)
    requires a < Pow2(n) && b < Pow2(n)
    ensures Bits(XOR, a, a, n) == 0 && Bits(XOR, a, Bits(XOR, a, b, n), n) == b
      && Bits(XOR, b, Bits(XOR, a, b, n), n) == a
  { if n > 0 { XorBits(a / 2, b / 2, n - 1); } }

  lemma NibFacts()
    ensures forall a: Nibble :: Nib(AND, a, 15) == a && Nib(AND, a, 0) == 0
    ensures forall a: Nibble :: Nib(OR, a, 0) == a && Nib(OR, 0, a) == a
  {
    assert Pow2(4) == 16;
    forall a: Nibble ensures Nib(AND, a, 15) == a && Nib(AND, a, 0) == 0 && Nib(OR, a, 0) == a && Nib(OR, 0, a) == a {
      OnesBits(a, 4);
      ZeroBits(a, 4);
    }
  }

  lemma XorFacts(a: Nibble, b: Nibble)
    ensures Nib(XOR, a, a) == 0 && Nib(XOR, a, 0) == a && Nib(XOR, a, Nib(XOR, a, b)) == b
      && Nib(XOR, b, Nib(XOR, a, b)) == a
  {
    assert Pow2(4) == 16;
    ZeroBits(a, 4);
    XorBits(a, b, 4);
  }

  // ---------- word arithmetic ----------
  function Zip(op: BitOp, a: Word, b: Word): (r: Word)
    requires |a| == |b|
    ensures |r| == |a|
  { seq(|a|, i requires 0 <= i < |a| => Nib(op, a[i], b[i])) }

  function And(a: Word, b: Word): (r: Word) requires |a| == |b| ensures |r| == |a| { Zip(AND, a, b) }
  function Or(a: Word, b: Word): (r: Word) requires |a| == |b| ensures |r| == |a| { Zip(OR, a, b) }
  function Xor(a: Word, b: Word): (r: Word) requires |a| == |b| ensures |r| == |a| { Zip(XOR, a, b) }

  function Not(a: Word): (r: Word)
    ensures |r| == |a|
  { seq(|a|, i requires 0 <= i < |a| => 15 - a[i]) }

  // a << 4k and a >> 4k
  function Up(a: Word, k: nat): (r: Word)
    ensures |r| == |a|
  { seq(|a|, i requires 0 <= i < |a| => if i < k then 0 else a[i - k]) }

  function Down(a: Word, k: nat): (r: Word)
    ensures |r| == |a|
  { seq(|a|, i requires 0 <= i < |a| => if i + k < |a| then a[i + k] else 0) }

  function Inc(a: Word): (r: Word)
    ensures |r| == |a|
  { if a == [] then [] else if a[0] != 15 then [a[0] + 1] + a[1..] else [0] + Inc(a[1..]) }

  function Dec(a: Word): (r: Word)
    ensures |r| == |a|
  { if a == [] then [] else if a[0] != 0 then [a[0] - 1] + a[1..] else [15] + Dec(a[1..]) }

  function Zero(n: nat): (r: Word)
    ensures |r| == n
  { seq(n, _ => 0) }

  // v << 4p in a word of n nibbles; past the top it is lost
  function Lit(n: nat, p: nat, v: Nibble): (r: Word)
    ensures |r| == n
  { seq(n, i => if i == p then v else 0) }

  // (1 << 4p) - 1
  function Low(n: nat, p: nat): (r: Word)
    ensures |r| == n
  { Dec(Lit(n, p, 1)) }

  lemma {:induction false} LowIs(n: nat, p: nat)
    ensures forall i :: 0 <= i < n ==> Low(n, p)[i] == if i < p then 15 else 0
  {
    if n > 0 && p > 0 {
      LowIs(n - 1, p - 1);
      var a := Lit(n, p, 1);
      assert a[1..] == Lit(n - 1, p - 1, 1);
      assert a[0] == 0 && Dec(a) == [15] + Dec(a[1..]);
      assert forall i :: 0 <= i < n ==> Low(n, p)[i] == if i == 0 then 15 else Low(n - 1, p - 1)[i - 1];
    } else if n > 0 {
      var a := Lit(n, p, 1);
      assert a[0] == 1 && Dec(a) == [0] + a[1..];
    }
  }

  lemma {:induction false} AllOnes(n: nat)
    ensures forall i :: 0 <= i < n ==> Dec(Zero(n))[i] == 15
  {
    if n > 0 {
      AllOnes(n - 1);
      assert Zero(n)[1..] == Zero(n - 1);
    }
  }

  // ---------- what a word stands for ----------
  function Unpack(x: Word): Perm
    requires |x| > 0
  { Perm(x[1..], x[0]) }

  ghost predicate Packed(w: nat, x: Word) { w <= 15 && |x| == w + 1 && PermOk(w, Unpack(x)) }

  // initial_value and full_value of a word that is filled by w + 1 nibbles
  function Initial(w: nat): (r: Word)
    requires w <= 15
    ensures |r| == w + 1
  { seq(w + 1, i requires 0 <= i <= w => if i == 0 then 0 else w - i) }

  function Full(w: nat): (r: Word)
    requires w <= 15
    ensures |r| == w + 1
  { seq(w + 1, i requires 0 <= i <= w => if i == 0 then 0 else i - 1) }

  // ---------- the expressions of the code ----------
  function Sorted(w: nat, n: nat): (r: Word)
    requires n <= w <= 15
    ensures |r| == w + 1
  {
    var empty := And(Initial(w), Not(Lit(w + 1, 0, 15)));
    var mask := if n == w then Dec(Zero(w + 1)) else Low(w + 1, n + 1);
    Or(Or(Up(empty, n), And(Full(w), mask)), Lit(w + 1, 0, n))
  }

  function Resized(x: Word, n: Nibble): (r: Word)
    ensures |r| == |x|
  { Or(And(x, Not(Lit(|x|, 0, 15))), Lit(|x|, 0, n)) }

  function Insertion(x: Word, i: nat): (r: Word)
    requires |x| > 0
    ensures |r| == |x|
  {
    var n := |x|;
    var value := x[n - 1];
    Or(Or(And(Inc(x), Low(n, i + 1)), Lit(n, i + 1, value)), And(Up(x, 1), Not(Low(n, i + 2))))
  }

  function Selection(x: Word, di: nat, si: nat): (r: Word)
    requires si + 1 < |x|
    ensures |r| == |x|
  {
    var n := |x|;
    var value := x[si + 1];
    var mask := Low(n, si + 2);
    Or(Or(Or(And(Inc(x), Low(n, di + 1)), Lit(n, di + 1, value)), And(And(Up(x, 1), mask), Not(Low(n, di + 2)))),
      And(x, Not(mask)))
  }

  function RotMask(n: nat, rot: nat, i: nat): (r: Word)
    ensures |r| == n
  { Up(Low(n, rot + 1), i + 1) }

  function KeepMask(n: nat, i: nat): (r: Word)
    ensures |r| == n
  { if i + 1 == n then Dec(Zero(n)) else Low(n, i + 1) }

  function Removal(x: Word, i: nat): (r: Word)
    requires |x| > 0 && i < x[0]
    ensures |r| == |x|
  {
    if x[0] == i + 1 then Dec(x)
    else
      var n := |x|;
      var rot := x[0] - i - 1;
      var mask := RotMask(n, rot, i);
      Or(Or(And(Dec(x), Not(mask)), And(Down(And(x, mask), 1), mask)), And(Up(And(x, mask), rot), mask))
  }

  function RemovalToBack(x: Word, i: nat): (r: Word)
    requires i + 1 < |x|
    ensures |r| == |x|
  {
    var n := |x|;
    var mask := Not(Low(n, i + 1));
    var y := And(x, Low(n, n));
    Or(Or(And(Dec(y), Not(mask)), And(Down(y, 1), mask)), Up(And(y, mask), n - 1 - i - 1))
  }

  function Rotation(x: Word, i: nat, j: nat): (r: Word)
    requires i <= j < |x|
    ensures |r| == |x|
  {
    var n := |x|;
    var w := n - 1;
    var mask := KeepMask(n, i);
    var y := And(x, Low(n, n));
    Or(Or(And(y, mask), And(Down(y, j - i), Not(mask))), Up(And(y, Not(mask)), w - j))
  }

  function Exchanged(x: Word, i: nat, j: nat): (r: Word)
    ensures |r| == |x|
  {
    var n := |x|;
    var diff := And(Xor(Down(x, i), Down(x, j)), Lit(n, 1, 15));
    Xor(x, Or(Up(diff, i), Up(diff, j)))
  }

  // ---------- nibble by nibble ----------
  lemma MaskAt(a: Word, mask: Word, k: nat)
    requires k < |a| == |mask| && (mask[k] == 0 || mask[k] == 15)
    ensures And(a, mask)[k] == (if mask[k] == 15 then a[k] else 0)
      && And(a, Not(mask))[k] == (if mask[k] == 15 then 0 else a[k])
  {
    NibFacts();
    hide Nib;
  }

  lemma OrAt(a: Word, b: Word, k: nat)
    requires k < |a| == |b|
    ensures (a[k] == 0 ==> Or(a, b)[k] == b[k]) && (b[k] == 0 ==> Or(a, b)[k] == a[k])
  {
    NibFacts();
    hide Nib;
  }

  lemma UpAt(a: Word, n: nat, k: nat)
    requires k < |a|
    ensures Up(a, n)[k] == if k < n then 0 else a[k - n]
  { }

  lemma DownAt(a: Word, n: nat, k: nat)
    requires k < |a|
    ensures Down(a, n)[k] == if k + n < |a| then a[k + n] else 0
  { }

  lemma LitAt(n: nat, p: nat, v: Nibble, k: nat)
    requires k < n
    ensures Lit(n, p, v)[k] == if k == p then v else 0
  { }

  lemma DecAt(a: Word, k: nat)
    requires k < |a| && a[0] != 0
    ensures Dec(a)[k] == if k == 0 then a[0] - 1 else a[k]
  { }

  lemma IncAt(a: Word, k: nat)
    requires k < |a| && a[0] != 15
    ensures Inc(a)[k] == if k == 0 then a[0] + 1 else a[k]
  { }

  lemma LowAt(n: nat, p: nat, k: nat)
    requires k < n
    ensures Low(n, p)[k] == if k < p then 15 else 0
  { LowIs(n, p); }

  lemma OnesAt(n: nat, k: nat)
    requires k < n
    ensures Dec(Zero(n))[k] == 15
  { AllOnes(n); }

  lemma InsertionAt(x: Word, i: nat, k: nat)
    requires k < |x| && i + 1 < |x| && x[0] != 15
    ensures Insertion(x, i)[k] == if k == 0 then x[0] + 1 else if k <= i then x[k] else if k == i + 1 then x[|x| - 1]
      else x[k - 1]
  {
    LowAt(|x|, i + 1, k);
    LowAt(|x|, i + 2, k);
    NibFacts();
    hide Nib; hide Low;
  }

  lemma SelectionAt(x: Word, di: nat, si: nat, k: nat)
    requires k < |x| && di <= si && si + 1 < |x| && x[0] != 15
    ensures Selection(x, di, si)[k] == if k == 0 then x[0] + 1 else if k <= di then x[k]
      else if k == di + 1 then x[si + 1] else if k <= si + 1 then x[k - 1] else x[k]
  {
    var n := |x|;
    var low, next, mask := Low(n, di + 1), Low(n, di + 2), Low(n, si + 2);
    LowAt(n, di + 1, k);
    LowAt(n, di + 2, k);
    LowAt(n, si + 2, k);
    IncAt(x, k);
    UpAt(x, 1, k);
    LitAt(n, di + 1, x[si + 1], k);
    hide Nib; hide Low; hide And; hide Or; hide Up; hide Not; hide Inc; hide Lit;
    var a, b, c, d := And(Inc(x), low), Lit(n, di + 1, x[si + 1]), And(And(Up(x, 1), mask), Not(next)),
      And(x, Not(mask));
    MaskAt(Inc(x), low, k);
    MaskAt(Up(x, 1), mask, k);
    MaskAt(And(Up(x, 1), mask), next, k);
    MaskAt(x, mask, k);
    OrAt(a, b, k);
    OrAt(Or(a, b), c, k);
    OrAt(Or(Or(a, b), c), d, k);
  }

  lemma RotMaskAt(n: nat, rot: nat, i: nat, k: nat)
    requires k < n
    ensures RotMask(n, rot, i)[k] == if i < k <= i + rot + 1 then 15 else 0
  { if k > i { LowAt(n, rot + 1, k - (i + 1)); } }

  lemma KeepMaskAt(n: nat, i: nat, k: nat)
    requires k < n && i < n
    ensures KeepMask(n, i)[k] == if k <= i then 15 else 0
  {
    OnesAt(n, k);
    LowAt(n, i + 1, k);
    hide Low; hide Dec; hide Zero;
  }

  lemma RemovalAt(x: Word, i: nat, k: nat)
    requires k < |x| && i + 1 < x[0] < |x|
    ensures Removal(x, i)[k] == if k == 0 then x[0] - 1 else if k <= i || k > x[0] then x[k]
      else if k < x[0] then x[k + 1] else x[i + 1]
  {
    hide RotMask; hide And; hide Or; hide Up; hide Down; hide Not; hide Dec;
    var rot := x[0] - i - 1;
    RotMaskAt(|x|, rot, i, k);
    if k + 1 < |x| { RotMaskAt(|x|, rot, i, k + 1); }
    if k >= rot { RotMaskAt(|x|, rot, i, k - rot); }
    MaskedRemoval(x, i, RotMask(|x|, rot, i), k);
  }

  lemma MaskedRemoval(x: Word, i: nat, mask: Word, k: nat)
    requires k < |x| == |mask| && i + 1 < x[0] < |x|
    requires mask[k] == if i < k <= x[0] then 15 else 0
    requires k + 1 < |x| ==> mask[k + 1] == if i < k + 1 <= x[0] then 15 else 0
    requires var rot := x[0] - i - 1; k >= rot ==> mask[k - rot] == if i < k - rot <= x[0] then 15 else 0
    ensures Or(Or(And(Dec(x), Not(mask)), And(Down(And(x, mask), 1), mask)),
      And(Up(And(x, mask), x[0] - i - 1), mask))[k]
      == if k == 0 then x[0] - 1 else if k <= i || k > x[0] then x[k] else if k < x[0] then x[k + 1] else x[i + 1]
  {
    hide And; hide Or; hide Up; hide Down; hide Not; hide Dec;
    var rot, part := x[0] - i - 1, And(x, mask);
    var a, b, c := And(Dec(x), Not(mask)), And(Down(part, 1), mask), And(Up(part, rot), mask);
    DecAt(x, k);
    MaskAt(Dec(x), mask, k);
    DownAt(part, 1, k);
    if k + 1 < |x| { MaskAt(x, mask, k + 1); }
    MaskAt(Down(part, 1), mask, k);
    UpAt(part, rot, k);
    if k >= rot { MaskAt(x, mask, k - rot); }
    MaskAt(Up(part, rot), mask, k);
    OrAt(a, b, k);
    OrAt(Or(a, b), c, k);
  }

  lemma RemovalToBackAt(x: Word, i: nat, k: nat)
    requires k < |x| && i + 1 < |x| && x[0] != 0
    ensures RemovalToBack(x, i)[k] == if k == 0 then x[0] - 1 else if k <= i then x[k]
      else if k < |x| - 1 then x[k + 1] else x[i + 1]
  {
    var n := |x|;
    Whole(x);
    LowAt(n, i + 1, k);
    if k >= n - 2 - i { LowAt(n, i + 1, k - (n - 2 - i)); }
    MaskedToBack(x, i, Low(n, i + 1), k);
    hide Low; hide And; hide Or; hide Up; hide Down; hide Not; hide Dec;
  }

  lemma MaskedToBack(x: Word, i: nat, low: Word, k: nat)
    requires k < |x| == |low| && i + 1 < |x| && x[0] != 0
    requires low[k] == if k <= i then 15 else 0
    requires var d := |x| - 2 - i; k >= d ==> low[k - d] == if k - d <= i then 15 else 0
    ensures Or(Or(And(Dec(x), Not(Not(low))), And(Down(x, 1), Not(low))), Up(And(x, Not(low)), |x| - 1 - i - 1))[k]
      == if k == 0 then x[0] - 1 else if k <= i then x[k] else if k < |x| - 1 then x[k + 1] else x[i + 1]
  {
    hide And; hide Or; hide Up; hide Down; hide Dec;
    var d, not := |x| - 2 - i, Not(low);
    assert not[k] == 15 - low[k] && Not(not)[k] == low[k];
    assert k >= d ==> not[k - d] == 15 - low[k - d];
    hide Not;
    var a, b, c := And(Dec(x), Not(not)), And(Down(x, 1), not), Up(And(x, not), d);
    DecAt(x, k);
    MaskAt(Dec(x), not, k);
    DownAt(x, 1, k);
    MaskAt(Down(x, 1), not, k);
    UpAt(And(x, not), d, k);
    if k >= d { MaskAt(x, not, k - d); }
    OrAt(a, b, k);
    OrAt(Or(a, b), c, k);
  }

  lemma Whole(x: Word)
    ensures And(x, Low(|x|, |x|)) == x
  {
    LowIs(|x|, |x|);
    NibFacts();
  }

  lemma RotationAt(x: Word, i: nat, j: nat, k: nat)
    requires k < |x| && i <= j < |x|
    ensures var w := |x| - 1;
      Rotation(x, i, j)[k] == if k <= i then x[k] else if k <= i + (w - j) then x[k + (j - i)] else x[k - (w - j)]
  {
    var n, w := |x|, |x| - 1;
    Whole(x);
    KeepMaskAt(n, i, k);
    if k >= w - j { KeepMaskAt(n, i, k - (w - j)); }
    MaskedRotation(x, i, j, KeepMask(n, i), k);
    hide KeepMask; hide Low; hide And; hide Or; hide Up; hide Down; hide Not;
  }

  lemma MaskedRotation(x: Word, i: nat, j: nat, mask: Word, k: nat)
    requires k < |x| == |mask| && i <= j < |x|
    requires mask[k] == if k <= i then 15 else 0
    requires var d := |x| - 1 - j; k >= d ==> mask[k - d] == if k - d <= i then 15 else 0
    ensures var w := |x| - 1;
      Or(Or(And(x, mask), And(Down(x, j - i), Not(mask))), Up(And(x, Not(mask)), w - j))[k]
        == if k <= i then x[k] else if k <= i + (w - j) then x[k + (j - i)] else x[k - (w - j)]
  {
    hide And; hide Or; hide Up; hide Down; hide Not;
    var d := |x| - 1 - j;
    var a, b, c := And(x, mask), And(Down(x, j - i), Not(mask)), Up(And(x, Not(mask)), d);
    MaskAt(x, mask, k);
    DownAt(x, j - i, k);
    MaskAt(Down(x, j - i), mask, k);
    UpAt(And(x, Not(mask)), d, k);
    if k >= d { MaskAt(x, mask, k - d); }
    OrAt(a, b, k);
    OrAt(Or(a, b), c, k);
  }

  lemma ExchangedAt(x: Word, i: nat, j: nat, k: nat)
    requires k < |x| && i + 1 < |x| && j + 1 < |x|
    ensures Exchanged(x, i, j)[k] == if k == i + 1 then x[j + 1] else if k == j + 1 then x[i + 1] else x[k]
  {
    NibFacts();
    XorFacts(x[i + 1], x[j + 1]);
    XorFacts(x[j + 1], x[i + 1]);
    XorFacts(x[k], 0);
    XorFacts(0, 0);
    hide Nib;
    var diff := And(Xor(Down(x, i), Down(x, j)), Lit(|x|, 1, 15));
    assert forall m :: 0 <= m < |x| ==> diff[m] == if m == 1 then Nib(XOR, x[i + 1], x[j + 1]) else 0;
    DiffAt(x, diff, i, j, k);
  }

  lemma DiffAt(x: Word, diff: Word, i: nat, j: nat, k: nat)
    requires k < |x| == |diff| && i + 1 < |x| && j + 1 < |x|
    requires forall m :: 0 <= m < |x| ==> diff[m] == if m == 1 then Nib(XOR, x[i + 1], x[j + 1]) else 0
    ensures Xor(x, Or(Up(diff, i), Up(diff, j)))[k] == if k == i + 1 then x[j + 1] else if k == j + 1 then x[i + 1]
      else x[k]
  {
    NibFacts();
    XorFacts(x[i + 1], x[j + 1]);
    XorFacts(x[j + 1], x[i + 1]);
    XorFacts(x[k], 0);
    hide Nib;
    assert Up(diff, i)[k] == if k == i + 1 then Nib(XOR, x[i + 1], x[j + 1]) else 0;
    assert Up(diff, j)[k] == if k == j + 1 then Nib(XOR, x[i + 1], x[j + 1]) else 0;
    if i == j { OrSame(Nib(XOR, x[i + 1], x[j + 1])); }
  }

  lemma OrSame(a: Nibble)
    ensures Nib(OR, a, a) == a
  {
    assert Pow2(4) == 16;
    OrBits(a, 4);
  }

  lemma {:induction false} OrBits(a: nat, n: nat)
    requires a < Pow2(n)
    ensures Bits(OR, a, a, n) == a
  { if n > 0 { OrBits(a / 2, n - 1); } }

  // ---------- each word expression is the operation on permutations ----------
  lemma UnpackIs(r: Word, p: Perm)
    requires |r| > 0 && |p.order| == |r| - 1 && p.size == r[0]
    requires forall k {:trigger p.order[k]} :: 0 <= k < |p.order| ==> r[k + 1] == p.order[k]
    ensures Unpack(r) == p
  { assert Unpack(r).order == p.order; }

  lemma InsertionUnpacks(w: nat, x: Word, i: nat)
    requires Packed(w, x) && i < w && Unpack(x).size < w
    ensures Packed(w, Insertion(x, i)) && Unpack(Insertion(x, i)) == PermSpec.InsertFromBack(Unpack(x), i)
  {
    assert x[0] <= w;
    hide Insertion; hide PermSpec.InsertFromBack; hide PermOk;
    InsertFromBackOk(w, Unpack(x), i);
    var r, p := Insertion(x, i), PermSpec.InsertFromBack(Unpack(x), i);
    InsertFromBackSize(Unpack(x), i);
    InsertionAt(x, i, 0);
    forall k: nat {:trigger p.order[k]} | k < w ensures r[k + 1] == p.order[k] {
      InsertionAt(x, i, k + 1);
      InsertFromBackAt(w, Unpack(x), i, k);
    }
    UnpackIs(r, p);
  }

  lemma SelectionPlace(w: nat, x: Word, di: nat, si: nat, k: nat)
    requires |x| == w + 1 && k < w <= 15 && di <= si < w && x[0] < w
    ensures |PermSpec.InsertSelected(Unpack(x), di, si).order| == w
      && Selection(x, di, si)[k + 1] == PermSpec.InsertSelected(Unpack(x), di, si).order[k]
  {
    hide Selection; hide PermSpec.InsertSelected;
    InsertSelectedSize(Unpack(x), di, si);
    SelectionAt(x, di, si, k + 1);
    InsertSelectedAt(w, Unpack(x), di, si, k);
  }

  lemma SelectionUnpacks(w: nat, x: Word, di: nat, si: nat)
    requires Packed(w, x) && di <= si < w && Unpack(x).size < w
    ensures Packed(w, Selection(x, di, si))
      && Unpack(Selection(x, di, si)) == PermSpec.InsertSelected(Unpack(x), di, si)
  {
    assert x[0] <= w;
    hide Selection; hide PermSpec.InsertSelected; hide PermOk;
    InsertSelectedOk(w, Unpack(x), di, si);
    var r, p := Selection(x, di, si), PermSpec.InsertSelected(Unpack(x), di, si);
    InsertSelectedSize(Unpack(x), di, si);
    SelectionAt(x, di, si, 0);
    forall k: nat {:trigger p.order[k]} | k < w ensures r[k + 1] == p.order[k] { SelectionPlace(w, x, di, si, k); }
    UnpackIs(r, p);
  }

  lemma RemovalPlace(w: nat, x: Word, i: nat, k: nat)
    requires |x| == w + 1 && k < w && i + 1 < x[0] <= w
    ensures |PermSpec.Remove(Unpack(x), i).order| == w && Removal(x, i)[k + 1] == PermSpec.Remove(Unpack(x), i).order[k]
  {
    hide Removal; hide PermSpec.Remove;
    RemoveSize(Unpack(x), i);
    RemovalAt(x, i, k + 1);
    RemoveAt(w, Unpack(x), i, k);
  }

  lemma RemovalUnpacksWide(w: nat, x: Word, i: nat)
    requires Packed(w, x) && i + 1 < Unpack(x).size
    ensures Unpack(Removal(x, i)) == PermSpec.Remove(Unpack(x), i)
  {
    assert x[0] <= w;
    hide Removal; hide PermSpec.Remove; hide PermOk;
    var r, p := Removal(x, i), PermSpec.Remove(Unpack(x), i);
    RemoveSize(Unpack(x), i);
    RemovalAt(x, i, 0);
    forall k: nat {:trigger p.order[k]} | k < w ensures r[k + 1] == p.order[k] {
      RemovalPlace(w, x, i, k);
    }
    UnpackIs(r, p);
  }

  lemma DecIs(x: Word)
    requires |x| > 0 && x[0] != 0
    ensures Dec(x) == x[0 := x[0] - 1]
  { }

  lemma RemovalUnpacks(w: nat, x: Word, i: nat)
    requires Packed(w, x) && i < Unpack(x).size
    ensures Packed(w, Removal(x, i)) && Unpack(Removal(x, i)) == PermSpec.Remove(Unpack(x), i)
  {
    assert x[0] <= w;
    RemoveOk(w, Unpack(x), i);
    if i + 1 == x[0] {
      DecIs(x);
      assert Unpack(Removal(x, i)).order == PermSpec.Remove(Unpack(x), i).order;
    } else {
      RemovalUnpacksWide(w, x, i);
    }
  }

  lemma ToBackPlace(w: nat, x: Word, i: nat, k: nat)
    requires |x| == w + 1 && k < w && i < x[0] <= w
    ensures |PermSpec.RemoveToBack(Unpack(x), i).order| == w
      && RemovalToBack(x, i)[k + 1] == PermSpec.RemoveToBack(Unpack(x), i).order[k]
  {
    hide RemovalToBack; hide PermSpec.RemoveToBack;
    RemoveToBackSize(Unpack(x), i);
    RemovalToBackAt(x, i, k + 1);
    RemoveToBackAt(w, Unpack(x), i, k);
  }

  lemma RemovalToBackUnpacks(w: nat, x: Word, i: nat)
    requires Packed(w, x) && i < Unpack(x).size
    ensures Packed(w, RemovalToBack(x, i)) && Unpack(RemovalToBack(x, i)) == PermSpec.RemoveToBack(Unpack(x), i)
  {
    assert x[0] <= w;
    hide RemovalToBack; hide PermSpec.RemoveToBack; hide PermOk;
    RemoveToBackOk(w, Unpack(x), i);
    var r, p := RemovalToBack(x, i), PermSpec.RemoveToBack(Unpack(x), i);
    RemoveToBackSize(Unpack(x), i);
    RemovalToBackAt(x, i, 0);
    forall k: nat {:trigger p.order[k]} | k < w ensures r[k + 1] == p.order[k] { ToBackPlace(w, x, i, k); }
    UnpackIs(r, p);
  }

  lemma RotationPlace(w: nat, x: Word, i: nat, j: nat, k: nat)
    requires |x| == w + 1 && k < w && i <= j <= w
    ensures |PermSpec.Rotate(Unpack(x), i, j).order| == w
      && Rotation(x, i, j)[k + 1] == PermSpec.Rotate(Unpack(x), i, j).order[k]
  {
    hide Rotation; hide PermSpec.Rotate;
    RotateSize(Unpack(x), i, j);
    RotationAt(x, i, j, k + 1);
    RotateAt(w, Unpack(x), i, j, k);
  }

  lemma RotationUnpacks(w: nat, x: Word, i: nat, j: nat)
    requires Packed(w, x) && i <= j <= w
    ensures Packed(w, Rotation(x, i, j)) && Unpack(Rotation(x, i, j)) == PermSpec.Rotate(Unpack(x), i, j)
  {
    assert x[0] <= w;
    hide Rotation; hide PermSpec.Rotate; hide PermOk;
    RotateOk(w, Unpack(x), i, j);
    var r, p := Rotation(x, i, j), PermSpec.Rotate(Unpack(x), i, j);
    RotateSize(Unpack(x), i, j);
    RotationAt(x, i, j, 0);
    forall k: nat {:trigger p.order[k]} | k < w ensures r[k + 1] == p.order[k] {
      RotationPlace(w, x, i, j, k);
    }
    UnpackIs(r, p);
  }

  lemma ExchangedPlace(w: nat, x: Word, i: nat, j: nat, k: nat)
    requires |x| == w + 1 && k < w && i < w && j < w
    ensures |PermSpec.Exchange(Unpack(x), i, j).order| == w
      && Exchanged(x, i, j)[k + 1] == PermSpec.Exchange(Unpack(x), i, j).order[k]
  {
    hide Exchanged; hide PermSpec.Exchange;
    ExchangeSize(Unpack(x), i, j);
    ExchangedAt(x, i, j, k + 1);
    ExchangeAt(w, Unpack(x), i, j, k);
  }

  lemma ExchangedUnpacks(w: nat, x: Word, i: nat, j: nat)
    requires Packed(w, x) && i < w && j < w
    ensures Packed(w, Exchanged(x, i, j)) && Unpack(Exchanged(x, i, j)) == PermSpec.Exchange(Unpack(x), i, j)
  {
    assert x[0] <= w;
    hide Exchanged; hide PermSpec.Exchange; hide PermOk;
    ExchangeOk(w, Unpack(x), i, j);
    var r, p := Exchanged(x, i, j), PermSpec.Exchange(Unpack(x), i, j);
    ExchangeSize(Unpack(x), i, j);
    ExchangedAt(x, i, j, 0);
    forall k: nat {:trigger p.order[k]} | k < w ensures r[k + 1] == p.order[k] {
      ExchangedPlace(w, x, i, j, k);
    }
    UnpackIs(r, p);
  }

  lemma SortedAt(w: nat, n: nat, k: nat)
    requires n <= w <= 15 && k <= w
    ensures Sorted(w, n)[k] == if k == 0 then n else if k <= n then k - 1 else w - (k - n)
  {
    OnesAt(w + 1, k);
    LowAt(w + 1, n + 1, k);
    NibFacts();
    hide Nib; hide Low; hide Dec; hide Zero;
  }

  lemma SortedUnpacks(w: nat, n: nat)
    requires n <= w <= 15
    ensures Packed(w, Sorted(w, n)) && Unpack(Sorted(w, n)) == MakeSorted(w, n)
  {
    MakeSortedOk(w, n);
    var r, p := Sorted(w, n), MakeSorted(w, n);
    hide Sorted; hide PermOk;
    SortedAt(w, n, 0);
    forall k: nat {:trigger p.order[k]} | k < w ensures r[k + 1] == p.order[k] { SortedAt(w, n, k + 1); }
    UnpackIs(r, p);
  }

  lemma ResizedUnpacks(w: nat, x: Word, n: nat)
    requires Packed(w, x) && n <= w
    ensures Packed(w, Resized(x, n)) && Unpack(Resized(x, n)) == PermSpec.SetSize(Unpack(x), n)
  {
    NibFacts();
    hide Nib;
    var r := Resized(x, n);
    assert forall k :: 0 <= k <= w ==> r[k] == if k == 0 then n else x[k];
    assert Unpack(r).order == Unpack(x).order;
  }

  // the difference word of exchange_values
  ghost predicate Differs(x: Word, diff: Word, a: Nibble, b: Nibble) {
    |diff| == |x| > 0 && diff[0] == 0
      && forall k :: 1 <= k < |x| ==> diff[k] == if x[k] == a || x[k] == b then Nib(XOR, a, b) else 0
  }

  lemma ValuesUnpack(w: nat, x: Word, diff: Word, a: Nibble, b: Nibble)
    requires Packed(w, x) && Differs(x, diff, a, b) && a < w && b < w
    ensures Packed(w, Xor(x, diff)) && Unpack(Xor(x, diff)) == PermSpec.ExchangeValues(Unpack(x), a, b)
  {
    var r, p := Xor(x, diff), PermSpec.ExchangeValues(Unpack(x), a, b);
    ExchangeValuesOk(w, Unpack(x), a, b);
    XorFacts(x[0], 0);
    XorFacts(a, b);
    hide PermOk; hide Nib;
    forall k: nat {:trigger p.order[k]} | k < w ensures r[k + 1] == p.order[k] { XorFacts(x[k + 1], 0); }
    UnpackIs(r, p);
  }

  class Packed16 {
    const w: nat
    var x: Word

    ghost predicate Valid() reads this { Packed(w, x) }

    ghost function Perm(): PermSpec.Perm reads this requires |x| > 0 { Unpack(x) }

    // make_sorted; make_empty is the case n == 0
    constructor MakeSorted(width: nat, n: nat)
      requires n <= width <= 15
      ensures Valid() && w == width && Perm() == PermSpec.MakeSorted(width, n)
    {
      w, x := width, Sorted(width, n);
      new;
      SortedUnpacks(width, n);
    }

    method SetSize(n: nat)
      requires Valid() && n <= w
      modifies this
      ensures Valid() && Perm() == PermSpec.SetSize(old(Perm()), n)
    {
      ResizedUnpacks(w, x, n);
      x := Resized(x, n);
    }

    method InsertFromBack(i: nat) returns (value: nat)
      requires Valid() && i < w && Perm().size < w
      modifies this
      ensures Valid() && Perm() == PermSpec.InsertFromBack(old(Perm()), i) && value == Back(old(Perm()))
    {
      hide Insertion;
      InsertionUnpacks(w, x, i);
      value := x[w];
      x := Insertion(x, i);
    }

    method InsertSelected(di: nat, si: nat)
      requires Valid() && di <= si < w && Perm().size < w
      modifies this
      ensures Valid() && Perm() == PermSpec.InsertSelected(old(Perm()), di, si)
    {
      hide Selection;
      SelectionUnpacks(w, x, di, si);
      x := Selection(x, di, si);
    }

    method Remove(i: nat)
      requires Valid() && i < Perm().size
      modifies this
      ensures Valid() && Perm() == PermSpec.Remove(old(Perm()), i)
    {
      hide Removal;
      RemovalUnpacks(w, x, i);
      x := Removal(x, i);
    }

    method RemoveToBack(i: nat)
      requires Valid() && i < Perm().size
      modifies this
      ensures Valid() && Perm() == PermSpec.RemoveToBack(old(Perm()), i)
    {
      hide RemovalToBack;
      RemovalToBackUnpacks(w, x, i);
      x := RemovalToBack(x, i);
    }

    method Rotate(i: nat, j: nat)
      requires Valid() && i <= j <= w
      modifies this
      ensures Valid() && Perm() == PermSpec.Rotate(old(Perm()), i, j)
    {
      hide Rotation;
      RotationUnpacks(w, x, i, j);
      x := Rotation(x, i, j);
    }

    method Exchange(i: nat, j: nat)
      requires Valid() && i < w && j < w
      modifies this
      ensures Valid() && Perm() == PermSpec.Exchange(old(Perm()), i, j)
    {
      hide Exchanged;
      ExchangedUnpacks(w, x, i, j);
      x := Exchanged(x, i, j);
    }

    // exchange_values: every nibble is looked at from the top, the difference word growing along
    method ExchangeValues(a: Nibble, b: Nibble)
      requires Valid() && a < w && b < w
      modifies this
      ensures Valid() && Perm() == PermSpec.ExchangeValues(old(Perm()), a, b)
    {
      var diff := Difference(x, a, b);
      ValuesUnpack(w, x, diff, a, b);
      x := Xor(x, diff);
    }
  }

  // after i nibbles from the top: p is x moved up, diff holds their differences
  ghost predicate SoFar(x: Word, diff: Word, p: Word, i: nat, a: Nibble, b: Nibble) {
    && |diff| == |p| == |x| > i
    && (forall k :: 0 <= k < |x| ==> p[k] == if k < i then 0 else x[k - i])
    && (forall k :: 0 <= k < |x| ==>
      diff[k] == if 1 <= k <= i && (x[|x| - 1 - i + k] == a || x[|x| - 1 - i + k] == b) then Nib(XOR, a, b) else 0)
  }

  method Difference(x: Word, a: Nibble, b: Nibble) returns (diff: Word)
    requires |x| > 0
    ensures Differs(x, diff, a, b)
  {
    var w := |x| - 1;
    var p := x;
    diff := Zero(w + 1);
    assert SoFar(x, diff, p, 0, a, b);
    for i := 0 to w
      invariant SoFar(x, diff, p, i, a, b)
    {
      hide SoFar;
      diff, p := NextDifference(x, diff, p, i, a, b);
    }
    hide Nib;
  }

  method NextDifference(x: Word, diff: Word, p: Word, i: nat, a: Nibble, b: Nibble) returns (d: Word, q: Word)
    requires SoFar(x, diff, p, i, a, b) && i + 1 < |x|
    ensures SoFar(x, d, q, i + 1, a, b)
  {
    var n := |x|;
    var v := p[n - 1];
    var mark := if v == a || v == b then Nib(XOR, a, b) else 0;
    var low := Xor(diff, Lit(n, 0, mark));
    forall k | 0 <= k < n ensures low[k] == if k == 0 then mark else diff[k] {
      XorFacts(diff[k], 0);
      XorZero(mark);
    }
    hide Nib;
    d, q := Up(low, 1), Up(p, 1);
  }

  lemma XorZero(a: Nibble)
    ensures Nib(XOR, 0, a) == a
  { XorFacts(0, a); XorFacts(a, 0); }
}
