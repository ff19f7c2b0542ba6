module LayerLeaf {
  import opened Options
  import opened PermSpec
  import opened LayerModel
  import Key

  predicate KeyLess(a: LKey, b: LKey) { a.ikey < b.ikey || (a.ikey == b.ikey && a.len < b.len) }

  // the low n bytes of x are zero
  predicate Zeros(x: nat, n: nat) { n == 0 || (x % 256 == 0 && Zeros(x / 256, n - 1)) }

  // What a key can be: its first eight bytes as a number, and its length, or 9 if it is longer than eight. A key
  // shorter than eight bytes is padded with zeros.
  predicate Proper(k: LKey) { k.ikey < TOP && k.len <= 9 && (k.len < 8 ==> Zeros(k.ikey, 8 - k.len)) }

  lemma {:induction false} NumZeros(s: Key.Str, n: nat)
    requires |s| <= n
    ensures Zeros(Key.Num(s, n), n - |s|)
  {
    if s == [] {
      Key.ZeroNum(n);
      ZeroZeros(n);
    } else {
      NumZeros(s[1..], n - 1);
      HighByte(s[0], Key.Num(s[1..], n - 1), n - 1, n - |s|);
    }
  }

  lemma {:induction false} ZeroZeros(n: nat)
    ensures Zeros(0, n)
  { if n > 0 { ZeroZeros(n - 1); } }

  // a byte put on top of n bytes leaves the low m of them as they are
  lemma {:induction false} HighByte(b: nat, x: nat, n: nat, m: nat)
    requires m <= n && Zeros(x, m)
    ensures Zeros(b * Key.Pow(n) + x, m)
  {
    if m > 0 {
      var p := Key.Pow(n - 1);
      assert b * Key.Pow(n) == 256 * (b * p);
      assert (256 * (b * p) + x) % 256 == 0 && (256 * (b * p) + x) / 256 == b * p + x / 256;
      HighByte(b, x / 256, n - 1, m - 1);
    }
  }

  // Every string gives such a key.
  lemma SliceIsProper(s: Key.Str)
    ensures Proper(LKey(Key.Slice(s), if |s| > 8 then 9 else |s|))
  {
    if |s| < 8 { NumZeros(s, 8); }
    PowEight();
  }

  lemma PowEight()
    ensures Key.Pow(8) == TOP
  {
    assert Key.Pow(2) == 65536;
    assert Key.Pow(4) == 0x1_0000_0000;
    assert Key.Pow(6) == 0x1_0000_0000_0000;
  }

  ghost predicate Arrays(lw: nat, n: Node) {
    n.Leaf? && PermOk(lw, n.perm) && |n.ikey| == lw && |n.len| == lw && |n.lv| == lw
  }

  function KeyAt(n: Node, slot: nat): LKey
    requires n.Leaf? && slot < |n.ikey| && slot < |n.len|
  { LKey(n.ikey[slot], n.len[slot]) }

  function Entries(lw: nat, n: Node): (r: seq<(LKey, Word)>)
    requires Arrays(lw, n)
  {
    seq(n.perm.size, i requires 0 <= i < n.perm.size => (KeyAt(n, n.perm.order[i]), n.lv[n.perm.order[i]]))
  }

  ghost predicate Sorted(es: seq<(LKey, Word)>) {
    forall i, j :: 0 <= i < j < |es| ==> KeyLess(es[i].0, es[j].0)
  }

  ghost predicate InRange(es: seq<(LKey, Word)>, lo: nat, hi: nat) {
    forall i :: 0 <= i < |es| ==> Proper(es[i].0) && lo <= es[i].0.ikey < hi
  }

  ghost predicate LeafOk(lw: nat, n: Node, lo: nat, hi: nat) {
    && Arrays(lw, n)
    && Sorted(Entries(lw, n)) && InRange(Entries(lw, n), lo, hi)
    && (n.prev.Some? ==> lw > 0 && n.ikey[0] == lo)
  }

  function Ins<T>(s: seq<T>, i: nat, x: T): seq<T>
    requires i <= |s|
  { s[..i] + [x] + s[i..] }

  function Assign(n: Node, slot: nat, k: LKey, v: Word): Node
    requires n.Leaf? && slot < |n.ikey| && slot < |n.len| && slot < |n.lv|
  {
    n.(ikey := n.ikey[slot := k.ikey], len := n.len[slot := k.len], lv := n.lv[slot := v])
  }

  // the rank of k among sorted entries
  ghost predicate Rank(es: seq<(LKey, Word)>, k: LKey, i: nat) {
    && i <= |es|
    && (forall j :: 0 <= j < i ==> KeyLess(es[j].0, k))
    && (forall j :: i <= j < |es| ==> KeyLess(k, es[j].0))
  }

  lemma InsSorted(es: seq<(LKey, Word)>, k: LKey, v: Word, i: nat)
    requires Sorted(es) && Rank(es, k, i)
    ensures Sorted(Ins(es, i, (k, v)))
  { }

  lemma AssignEntries(lw: nat, n: Node, slot: nat, k: LKey, v: Word)
    requires Arrays(lw, n) && slot < lw
    requires forall j :: 0 <= j < n.perm.size ==> n.perm.order[j] != slot
    ensures Arrays(lw, Assign(n, slot, k, v)) && Entries(lw, Assign(n, slot, k, v)) == Entries(lw, n)
  { }

  // a free slot is filled, then published at rank i
  lemma Publish(lw: nat, n: Node, k: LKey, v: Word, i: nat)
    requires Arrays(lw, n) && n.perm.size < lw && i <= n.perm.size
    requires KeyAt(n, Back(n.perm)) == k && n.lv[Back(n.perm)] == v
    ensures Arrays(lw, n.(perm := InsertFromBack(n.perm, i)))
    ensures Entries(lw, n.(perm := InsertFromBack(n.perm, i))) == Ins(Entries(lw, n), i, (k, v))
  {
    InsertFromBackOk(lw, n.perm, i);
    var q := InsertFromBack(n.perm, i).order;
    assert forall j :: 0 <= j < lw ==>
      q[j] == (if j < i then n.perm.order[j] else if j == i then n.perm.order[lw-1] else n.perm.order[j-1]);
  }

  // ---------- where to cut a leaf ----------
  function Apart(a: int, b: int): (d: nat)
    ensures d == a - b || d == b - a
  { if a < b then b - a else a - b }

  predicate Boundary(ikeys: seq<nat>, i: int) { 0 < i < |ikeys| && ikeys[i - 1] < ikeys[i] }

  // the boundary next to mid0, the one on the right if two are as near
  ghost predicate Nearest(ikeys: seq<nat>, mid0: nat, mid: nat) {
    && Boundary(ikeys, mid)
    && forall j :: Boundary(ikeys, j) ==>
         Apart(mid, mid0) < Apart(j, mid0) || (Apart(mid, mid0) == Apart(j, mid0) && j <= mid)
  }

  // ikeys[] are the ikeys of the leaf with the new key already at its rank
  method FindMid(ikeys: seq<nat>, mid0: nat) returns (mid: nat)
    requires 1 <= mid0 < |ikeys|
    requires exists i :: 0 <= i < |ikeys| && ikeys[i] != ikeys[0]
    requires forall i, j :: 0 <= i < j < |ikeys| ==> ikeys[i] <= ikeys[j]
    ensures Nearest(ikeys, mid0, mid)
  {
    ghost var w :| 0 <= w < |ikeys| && ikeys[w] != ikeys[0];
    mid := mid0;
    var midIkey := ikeys[mid];
    if midIkey == ikeys[mid - 1] {
      var midl: int, midr: nat := mid - 2, mid + 1;
      while true
        invariant midl < mid0 <= midr && midr - mid0 == mid0 - 1 - midl
        invariant forall i :: 0 <= i < |ikeys| && midl < i < midr ==> ikeys[i] == midIkey
        decreases |ikeys| + mid0 - midr
      {
        if midr < |ikeys| && midIkey != ikeys[midr] {
          mid := midr;
          break;
        } else if midl >= 0 && midIkey != ikeys[midl] {
          mid := midl + 1;
          break;
        }
        midl, midr := midl - 1, midr + 1;
      }
    }
  }

  function Keys(es: seq<(LKey, Word)>): (r: seq<nat>)
    ensures |r| == |es| && forall i :: 0 <= i < |es| ==> r[i] == es[i].0.ikey
  { seq(|es|, i requires 0 <= i < |es| => es[i].0.ikey) }

  // At most ten keys of a layer share an ikey, one for each length class.
  lemma AtMostTen(es: seq<(LKey, Word)>, x: nat)
    requires Sorted(es) && forall i :: 0 <= i < |es| ==> es[i].0.ikey == x && Proper(es[i].0)
    ensures |es| <= 10
  {
    if |es| > 0 { LengthsRise(es, x, 0, |es| - 1); }
  }

  // And at most nine if the ikey is not zero: then none of them is the empty key.
  lemma AtMostNine(es: seq<(LKey, Word)>, x: nat)
    requires Sorted(es) && x > 0 && forall i :: 0 <= i < |es| ==> es[i].0.ikey == x && Proper(es[i].0)
    ensures |es| <= 9
  {
    if |es| > 0 {
      assert Proper(es[0].0);
      AllZeros(x);
      LengthsRise(es, x, 1, |es| - 1);
    }
  }

  lemma AllZeros(x: nat)
    requires 0 < x < TOP
    ensures !Zeros(x, 8)
  {
    ZerosDivide(x, 8);
    PowEight();
  }

  lemma {:induction false} ZerosDivide(x: nat, n: nat)
    ensures Zeros(x, n) ==> x == 0 || x >= Key.Pow(n)
  { if n > 0 { ZerosDivide(x / 256, n - 1); } }

  lemma {:induction false} LengthsRise(es: seq<(LKey, Word)>, x: nat, from: nat, i: nat)
    requires Sorted(es) && (forall i :: 0 <= i < |es| ==> es[i].0.ikey == x) && i < |es| && es[0].0.len >= from
    ensures es[i].0.len >= from + i
  {
    if i > 0 {
      LengthsRise(es, x, from, i - 1);
      assert KeyLess(es[i-1].0, es[i].0);
    }
  }

  // ---------- the right half ----------
  function Full(lw: nat, n: Node, k: LKey, p: nat): seq<(LKey, Word)>
    requires Arrays(lw, n) && p <= n.perm.size
  { Ins(Entries(lw, n), p, (k, 0)) }

  ghost predicate RightHalf(lw: nat, n: Node, k: LKey, p: nat, mid: nat, nr: Node)
    requires Arrays(lw, n) && p <= n.perm.size && mid <= n.perm.size
  {
    var full := Full(lw, n, k, p);
    && Arrays(lw, nr) && nr.perm.size == n.perm.size + 1 - mid - (if p >= mid then 1 else 0)
    && lw > 0 && nr.ikey[0] == full[mid].0.ikey
    && (p < mid ==> Entries(lw, nr) == full[mid..])
    && (p >= mid ==>
      Entries(lw, nr) == full[mid..p] + full[p+1..] && Back(nr.perm) == p - mid && KeyAt(nr, p - mid) == k)
  }

  ghost predicate Filled(full: seq<(LKey, Word)>, mid: nat, x: nat, ikey: seq<nat>, len: seq<nat>, lv: seq<Word>) {
    && mid <= x <= |full| && x - mid <= |ikey| && |ikey| == |len| == |lv|
    && forall y :: 0 <= y < x - mid ==> (LKey(ikey[y], len[y]), lv[y]) == full[mid + y]
  }

  method BuildRight(lw: nat, n: Node, k: LKey, p: nat, mid: nat) returns (nr: Node)
    requires Arrays(lw, n) && n.perm.size + 1 >= lw && lw >= 3
    requires p <= n.perm.size && 0 < mid <= n.perm.size
    ensures RightHalf(lw, n, k, p, mid, nr)
    ensures nr.prev == None && nr.next == None && nr.parent == None
  {
    var width := n.perm.size;
    var ikey: seq<nat>, len: seq<nat>, lv: seq<Word> := seq(lw, _ => 0), seq(lw, _ => 0), seq(lw, _ => 0);
    var pv := mid - (if p < mid then 1 else 0);   // the permutation is read from here on
    for x := mid to width + 1
      invariant |ikey| == lw
      invariant pv == x - (if p < x then 1 else 0)
      invariant Filled(Full(lw, n, k, p), mid, x, ikey, len, lv)
    {
      FullAt(lw, n, k, p, x);
      if x == p {
        ikey, len, lv := ikey[x - mid := k.ikey], len[x - mid := k.len], lv[x - mid := 0];
      } else {
        var from := n.perm.order[pv];
        ikey, len, lv := ikey[x - mid := n.ikey[from]], len[x - mid := n.len[from]], lv[x - mid := n.lv[from]];
        pv := pv + 1;
      }
    }
    var permr := MakeSorted(lw, width + 1 - mid);
    nr := Leaf(permr, ikey, len, lv, None, None, None);
    FilledEntries(lw, Full(lw, n, k, p), mid, nr);
    if p >= mid {
      RemoveToBackEntries(lw, nr, p - mid);
      DropNew(Full(lw, n, k, p), mid, p);
      nr := nr.(perm := RemoveToBack(permr, p - mid));
    }
  }

  lemma FullAt(lw: nat, n: Node, k: LKey, p: nat, x: nat)
    requires Arrays(lw, n) && p <= n.perm.size && x <= n.perm.size
    ensures Full(lw, n, k, p)[x] ==
      if x == p then (k, 0) else var o := n.perm.order[if x < p then x else x - 1]; (KeyAt(n, o), n.lv[o])
  { }

  lemma FilledEntries(lw: nat, full: seq<(LKey, Word)>, mid: nat, nr: Node)
    requires nr.Leaf? && mid <= |full| && |full| - mid <= lw && |nr.ikey| == lw
    requires Filled(full, mid, |full|, nr.ikey, nr.len, nr.lv) && nr.perm == MakeSorted(lw, |full| - mid)
    ensures Arrays(lw, nr) && Entries(lw, nr) == full[mid..]
  {
    MakeSortedOk(lw, |full| - mid);
  }

  lemma DropNew<T>(s: seq<T>, mid: nat, p: nat)
    requires mid <= p < |s|
    ensures s[mid..][..p - mid] + s[mid..][p - mid + 1..] == s[mid..p] + s[p+1..]
  { }

  lemma RemoveToBackEntries(lw: nat, n: Node, i: nat)
    requires Arrays(lw, n) && i < n.perm.size
    ensures var m := n.(perm := RemoveToBack(n.perm, i));
      Arrays(lw, m) && Entries(lw, m) == Entries(lw, n)[..i] + Entries(lw, n)[i+1..] && Back(m.perm) == n.perm.order[i]
  {
    var o, q := n.perm.order, RemoveToBack(n.perm, i).order;
    assert forall j :: 0 <= j < lw ==> q[j] == (if j < i then o[j] else if j < lw - 1 then o[j+1] else o[i]);
  }

  lemma RemoveEntries(lw: nat, n: Node, i: nat)
    requires Arrays(lw, n) && i < n.perm.size
    ensures var m := n.(perm := Remove(n.perm, i));
      Arrays(lw, m) && Entries(lw, m) == Entries(lw, n)[..i] + Entries(lw, n)[i+1..]
  {
    var o, q, z := n.perm.order, Remove(n.perm, i).order, n.perm.size;
    assert forall j :: 0 <= j < lw ==>
      q[j] == (if j < i then o[j] else if j < z - 1 then o[j+1] else if j == z - 1 then o[i] else o[j]);
  }

  // free slots may trade places without anyone noticing
  lemma ExchangeEntries(lw: nat, n: Node, i: nat, j: nat)
    requires Arrays(lw, n) && n.perm.size <= i < lw && n.perm.size <= j < lw
    ensures var m := n.(perm := Exchange(n.perm, i, j)); Arrays(lw, m) && Entries(lw, m) == Entries(lw, n)
  { }

  // ---------- the left half ----------
  function Strip(lw: nat, n: Node, size: nat): Node
    requires n.Leaf? && |n.perm.order| == lw && size <= n.perm.size <= lw
  {
    var perml := SetSize(n.perm, size);
    n.(perm := if n.perm.size != lw then Exchange(perml, perml.size, lw - 1) else perml)
  }

  lemma StripEntries(lw: nat, n: Node, size: nat)
    requires Arrays(lw, n) && size <= n.perm.size && n.perm.size + 1 >= lw
    ensures Arrays(lw, Strip(lw, n, size)) && Strip(lw, n, size).perm.size == size
    ensures Entries(lw, Strip(lw, n, size)) == Entries(lw, n)[..size]
  { }

  // Slot 0 of a leaf that has a predecessor holds its lower bound: the slot the left half offers
  // to the new key is another one.
  lemma StripKeepsBound(lw: nat, n: Node, lo: nat, hi: nat, k: LKey, p: nat, mid: nat)
    requires LeafOk(lw, n, lo, hi) && n.prev.Some? && lo <= k.ikey && lw >= 3 && n.perm.size + 1 >= lw
    requires Rank(Entries(lw, n), k, p) && p < mid <= n.perm.size
    requires var f := Keys(Full(lw, n, k, p)); f[mid-1] < f[mid]
    requires n.perm.size < lw ==> Back(n.perm) == 0
    ensures Back(Strip(lw, n, mid - 1).perm) != 0
  {
    if n.perm.size == lw && Back(n.perm) == 0 { AllAtBound(lw, n, lo, hi, k, p); }
  }

  lemma AllAtBound(lw: nat, n: Node, lo: nat, hi: nat, k: LKey, p: nat)
    requires LeafOk(lw, n, lo, hi) && n.prev.Some? && lo <= k.ikey && n.perm.size == lw && Back(n.perm) == 0
    requires Rank(Entries(lw, n), k, p)
    ensures forall i :: 0 <= i < |Entries(lw, n)| ==> Entries(lw, n)[i].0.ikey == lo
    ensures p < lw ==> k.ikey == lo
  {
    var es := Entries(lw, n);
    assert es[lw-1].0.ikey == lo;
    forall i | 0 <= i < lw ensures es[i].0.ikey == lo {
      if i < lw - 1 { assert KeyLess(es[i].0, es[lw-1].0); }
    }
    if p < lw { assert KeyLess(k, es[p].0); }
  }

  // where the cut falls among the old entries
  function CutOf(p: nat, mid: nat): nat
    requires mid > 0
  { if p < mid then mid - 1 else mid }

  lemma HalvesEntries(lw: nat, n: Node, k: LKey, p: nat, mid: nat)
    requires Arrays(lw, n) && p <= n.perm.size && 0 < mid <= n.perm.size
    ensures var es, full := Entries(lw, n), Full(lw, n, k, p);
      && |full| == |es| + 1
      && (p < mid ==> full[mid..] == es[mid-1..])
      && (p >= mid ==> full[mid..p] + full[p+1..] == es[mid..])
      && full[p] == (k, 0)
      && (forall i :: 0 <= i < p ==> full[i] == es[i]) && (forall i :: p < i < |full| ==> full[i] == es[i-1])
  { }

  // every ikey left of the cut is strictly below the split ikey, every other one is not
  lemma CutOrder(full: seq<(LKey, Word)>, mid: nat)
    requires Sorted(full) && 0 < mid < |full| && full[mid-1].0.ikey < full[mid].0.ikey
    ensures forall i :: 0 <= i < mid ==> full[i].0.ikey < full[mid].0.ikey
    ensures forall i :: mid <= i < |full| ==> full[mid].0.ikey <= full[i].0.ikey
  {
    forall i | 0 <= i < mid ensures full[i].0.ikey < full[mid].0.ikey {
      if i < mid - 1 { assert KeyLess(full[i].0, full[mid-1].0); }
    }
    forall i | mid <= i < |full| ensures full[mid].0.ikey <= full[i].0.ikey {
      if i > mid { assert KeyLess(full[mid].0, full[i].0); }
    }
  }

  ghost predicate SplitPre(lw: nat, n: Node, lo: nat, hi: nat, k: LKey, p: nat, mid: nat, nr: Node) {
    && LeafOk(lw, n, lo, hi) && lw >= 3 && n.perm.size + 1 >= lw
    && Rank(Entries(lw, n), k, p) && Proper(k) && lo <= k.ikey < hi && 0 < mid <= n.perm.size
    && (var f := Keys(Full(lw, n, k, p)); f[mid-1] < f[mid])
    && RightHalf(lw, n, k, p, mid, nr)
  }

  lemma SplitSeq(es: seq<(LKey, Word)>, k: LKey, p: nat, mid: nat, lo: nat, hi: nat)
    requires Sorted(es) && InRange(es, lo, hi) && Rank(es, k, p) && lo <= k.ikey < hi && 0 < mid <= |es|
    requires var full := Ins(es, p, (k, 0)); full[mid-1].0.ikey < full[mid].0.ikey
    ensures var split := Ins(es, p, (k, 0))[mid].0.ikey;
      && lo < split < hi
      && (forall i :: 0 <= i < CutOf(p, mid) ==> es[i].0.ikey < split)
      && (forall i :: CutOf(p, mid) <= i < |es| ==> split <= es[i].0.ikey)
      && (k.ikey < split <==> p < mid)
  {
    var full := Ins(es, p, (k, 0));
    InsSorted(es, k, 0, p);
    CutOrder(full, mid);
    assert forall i :: 0 <= i < |es| ==> es[i] == full[if i < p then i else i + 1];
    assert full[p].0 == k;
    forall i | 0 <= i < |es|
      ensures if i < CutOf(p, mid) then es[i].0.ikey < full[mid].0.ikey else full[mid].0.ikey <= es[i].0.ikey {
      assert es[i] == full[if i < p then i else i + 1];
    }
  }

  lemma SplitEntries(lw: nat, n: Node, lo: nat, hi: nat, k: LKey, p: nat, mid: nat, nr: Node)
    requires SplitPre(lw, n, lo, hi, k, p, mid, nr)
    ensures var es, split, cut := Entries(lw, n), nr.ikey[0], CutOf(p, mid);
      && lo < split < hi && Entries(lw, nr) == es[cut..]
      && (forall i :: 0 <= i < cut ==> es[i].0.ikey < split) && (forall i :: cut <= i < |es| ==> split <= es[i].0.ikey)
      && (k.ikey < split <==> p < mid)
  {
    var es, full := Entries(lw, n), Full(lw, n, k, p);
    HalvesEntries(lw, n, k, p, mid);
    assert full[mid-1].0.ikey == Keys(full)[mid-1] && full[mid].0.ikey == Keys(full)[mid];
    SplitSeq(es, k, p, mid, lo, hi);
  }

  // Everything leaf::split_into promises about one leaf: the halves are sorted, lie on their side of
  // the split ikey, hold the old entries in order, and k's rank in its half is known.
  lemma SplitContent(lw: nat, n: Node, lo: nat, hi: nat, k: LKey, p: nat, mid: nat, nr: Node)
    requires SplitPre(lw, n, lo, hi, k, p, mid, nr)
    ensures var es, split, cut := Entries(lw, n), nr.ikey[0], CutOf(p, mid);
      var nl := Strip(lw, n, cut);
      && lo < split < hi && cut <= |es|
      && Arrays(lw, nl) && Entries(lw, nl) == es[..cut] && LeafOk(lw, nl, lo, split)
      && Entries(lw, nr) == es[cut..] && LeafOk(lw, nr.(prev := Some(0)), split, hi)
      && (p < mid ==> k.ikey < split && Rank(es[..cut], k, p))
      && (p >= mid ==> split <= k.ikey && Rank(es[cut..], k, p - mid))
      && nl.perm.size == cut && cut + nr.perm.size == n.perm.size
  {
    var es, split, cut := Entries(lw, n), nr.ikey[0], CutOf(p, mid);
    var nr' := nr.(prev := Some(0));
    SplitEntries(lw, n, lo, hi, k, p, mid, nr);
    StripEntries(lw, n, cut);
    assert Entries(lw, nr') == Entries(lw, nr);
    assert |Entries(lw, nr)| == nr.perm.size;
  }
}
