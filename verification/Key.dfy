// Keys: strings cut into eight-byte slices, each compared as one big-endian number.
module Key {
  import opened Options

  type Byte = b: nat | b < 256
  type Str = seq<Byte>

  const SLICE: nat := 8

  // ---------- lexicographic order ----------
  predicate Less(s: Str, t: Str) {
    t != [] && (s == [] || s[0] < t[0] || (s[0] == t[0] && Less(s[1..], t[1..])))
  }

  lemma {:induction false} LessTrans(s: Str, t: Str, u: Str)
    requires Less(s, t) && Less(t, u)
    ensures Less(s, u)
  { if s != [] && s[0] == t[0] == u[0] { LessTrans(s[1..], t[1..], u[1..]); } }

  lemma {:induction false} LessTotal(s: Str, t: Str)
    ensures (Less(s, t) || Less(t, s) <==> s != t) && !(Less(s, t) && Less(t, s))
  {
    if s != [] && t != [] && s[0] == t[0] {
      LessTotal(s[1..], t[1..]);
      assert s == [s[0]] + s[1..] && t == [t[0]] + t[1..];
    }
  }

  // ---------- slices ----------
  function Pow(n: nat): (r: nat)
    ensures r > 0
  { if n == 0 then 1 else 256 * Pow(n - 1) }

  function Head(s: Str): Byte { if s == [] then 0 else s[0] }
  function Tail(s: Str): Str { if s == [] then [] else s[1..] }

  // the first n bytes, zero-padded, as a big-endian number
  function Num(s: Str, n: nat): (r: nat)
    ensures r < Pow(n)
  {
    if n == 0 then 0
    else
      var r := Num(Tail(s), n - 1);
      MulLe(Head(s), 255, Pow(n - 1));
      Head(s) * Pow(n - 1) + r
  }

  lemma MulLe(a: nat, b: nat, p: nat)
    requires a <= b
    ensures a * p <= b * p
  { }

  lemma Distribute(a: nat, p: nat)
    ensures (a + 1) * p == a * p + p
  { }

  // key::ikey()
  function Slice(s: Str): nat { Num(s, SLICE) }

  lemma {:induction false} NumLess(s: Str, t: Str, n: nat)
    requires Num(s, n) < Num(t, n)
    ensures Less(s, t)
  {
    if n > 0 {
      HeadsOrder(s, t, n);
      if Head(s) == Head(t) {
        NumLess(Tail(s), Tail(t), n - 1);
        if t == [] { ZeroNum(n); }
      }
    }
  }

  lemma HeadsOrder(s: Str, t: Str, n: nat)
    requires n > 0 && Num(s, n) <= Num(t, n)
    ensures Head(s) <= Head(t)
  {
    var p := Pow(n - 1);
    assert Num(t, n) == Head(t) * p + Num(Tail(t), n - 1);
    assert Num(s, n) == Head(s) * p + Num(Tail(s), n - 1);
    Distribute(Head(t), p);
    hide Num; hide Pow;
    if Head(s) > Head(t) {
      MulLe(Head(t) + 1, Head(s), p);
    }
  }

  lemma {:induction false} ZeroNum(n: nat)
    ensures Num([], n) == 0
  { if n > 0 { ZeroNum(n - 1); } }

  // the same number, and s fits in: then s is the smaller string exactly when it is shorter
  lemma {:induction false} NumShorter(s: Str, t: Str, n: nat)
    requires Num(s, n) == Num(t, n) && |s| <= n && |s| < |t|
    ensures Less(s, t)
  {
    if s != [] {
      HeadsOrder(s, t, n);
      HeadsOrder(t, s, n);
      NumShorter(s[1..], t[1..], n - 1);
    }
  }

  lemma {:induction false} NumSame(s: Str, t: Str, n: nat)
    requires Num(s, n) == Num(t, n) && |s| >= n && |t| >= n
    ensures s[..n] == t[..n] && (Less(s, t) <==> Less(s[n..], t[n..]))
  {
    if n > 0 {
      HeadsOrder(s, t, n);
      HeadsOrder(t, s, n);
      NumSame(s[1..], t[1..], n - 1);
      assert s[..n] == [s[0]] + s[1..][..n-1] && t[..n] == [t[0]] + t[1..][..n-1];
      assert s[1..][n-1..] == s[n..] && t[1..][n-1..] == t[n..];
    }
  }

  lemma {:induction false} NumEqual(s: Str, t: Str, n: nat)
    requires Num(s, n) == Num(t, n) && |s| == |t| <= n
    ensures s == t
  {
    if s != [] {
      HeadsOrder(s, t, n);
      HeadsOrder(t, s, n);
      NumEqual(s[1..], t[1..], n - 1);
      assert s == [s[0]] + s[1..] && t == [t[0]] + t[1..];
    }
  }

  // ---------- numbers as bytes ----------
  // the first n bytes, zero-padded
  function Pad(s: Str, n: nat): (r: Str)
    ensures |r| == n
  { if n == 0 then [] else [Head(s)] + Pad(Tail(s), n - 1) }

  lemma {:induction false} PadPrefix(s: Str, n: nat, k: nat)
    requires k <= n && k <= |s|
    ensures Pad(s, n)[..k] == s[..k]
  {
    if k > 0 {
      PadPrefix(s[1..], n - 1, k - 1);
      assert s[..k] == [s[0]] + s[1..][..k-1];
    }
  }

  // host_to_net_order: a number as n bytes, most significant first
  function Bytes(x: nat, n: nat): (r: Str)
    requires x < Pow(n)
    ensures |r| == n
    decreases n
  {
    if n == 0 then []
    else
      TopByte(x, n);
      [x / Pow(n - 1)] + Bytes(x % Pow(n - 1), n - 1)
  }

  lemma TopByte(x: nat, n: nat)
    requires n > 0 && x < Pow(n)
    ensures 0 <= x / Pow(n - 1) < 256 && 0 <= x % Pow(n - 1) < Pow(n - 1)
  {
    assert Pow(n) == 256 * Pow(n - 1);
    DivBound(x, 256, Pow(n - 1));
  }

  lemma DivBound(x: nat, b: nat, p: nat)
    requires p > 0 && x < b * p
    ensures 0 <= x / p < b && 0 <= x % p < p
  {
    var q := x / p;
    assert x == q * p + x % p;
    if q >= b { MulLe(b, q, p); }
  }

  lemma DivUnique(h: nat, p: nat, r: nat)
    requires r < p
    ensures (h * p + r) / p == h && (h * p + r) % p == r
  {
    var x := h * p + r;
    var q := x / p;
    assert x == q * p + x % p;
    if q < h { MulLe(q + 1, h, p); Distribute(q, p); }
    if q > h { MulLe(h + 1, q, p); Distribute(h, p); }
  }

  // storing a slice's number puts back the slice
  lemma {:induction false} BytesOfNum(s: Str, n: nat)
    ensures Bytes(Num(s, n), n) == Pad(s, n)
  {
    if n > 0 {
      DivUnique(Head(s), Pow(n - 1), Num(Tail(s), n - 1));
      BytesOfNum(Tail(s), n - 1);
    }
  }

  lemma {:induction false} NumOfBytes(x: nat, n: nat)
    requires x < Pow(n)
    ensures Num(Bytes(x, n), n) == x
  {
    if n > 0 {
      TopByte(x, n);
      var q, r := x / Pow(n - 1), x % Pow(n - 1);
      NumOfBytes(r, n - 1);
      assert Bytes(x, n) == [q] + Bytes(r, n - 1);
    }
  }

  // ---------- key::compare ----------
  // lb is a stored key length: 0 to 8, or more for a key that does not end in its slice
  function Compare(a: nat, la: nat, b: nat, lb: nat): int {
    if a != b then (if a < b then -1 else 1)
    else if la > SLICE then (if lb <= SLICE then 1 else 0)
    else la - lb
  }

  // slice by slice, shifting while both keys go on
  function CompareAll(s: Str, t: Str): int
    decreases |s|
  {
    var c := Compare(Slice(s), |s|, Slice(t), |t|);
    if c == 0 && |s| > SLICE && |t| > SLICE then CompareAll(s[SLICE..], t[SLICE..]) else c
  }

  // For strings of any length this is lexicographic order.
  lemma {:induction false} CompareIsLess(s: Str, t: Str)
    ensures (CompareAll(s, t) < 0 <==> Less(s, t)) && (CompareAll(s, t) == 0 <==> s == t)
      && (CompareAll(s, t) > 0 <==> Less(t, s))
    decreases |s|
  {
    LessTotal(s, t);
    if Slice(s) < Slice(t) { NumLess(s, t, SLICE); }
    else if Slice(t) < Slice(s) { NumLess(t, s, SLICE); }
    else if |s| <= SLICE || |t| <= SLICE {
      if |s| < |t| { NumShorter(s, t, SLICE); }
      else if |t| < |s| { NumShorter(t, s, SLICE); }
      else { NumEqual(s, t, SLICE); }
    } else {
      CompareIsLess(s[SLICE..], t[SLICE..]);
      NumSame(s, t, SLICE);
      NumSame(t, s, SLICE);
      assert s == s[..SLICE] + s[SLICE..] && t == t[..SLICE] + t[SLICE..];
    }
  }
}
