// Layers stacked as a trie: a key that does not end in its slice is either stored with its suffix or goes on below.
module Trie {
  import opened Options
  import opened Key

  type Value = nat

  // bytes is the slice as stored: the ikey is its number, and its length is the stored length of a Short
  datatype Entry =
    | Short(bytes: Str, value: Value)
    | Long(bytes: Str, suffix: Str, value: Value)
    | Sub(bytes: Str, layer: Tree)

  // A layer: its entries in order, where its leaves begin among them, and the leaves' lower bounds.
  datatype Tree = Tree(entries: seq<Entry>, starts: seq<nat>, bounds: seq<nat>)

  function Ikey(e: Entry): nat { Slice(e.bytes) }

  // keylenx_, with 64 for a suffix and 128 for a layer
  function Keylenx(e: Entry): nat { match e case Short(b, _) => |b| case Long(_, _, _) => 64 case Sub(_, _) => 128 }
  function Class(e: Entry): nat { if e.Short? then |e.bytes| else 9 }

  predicate Before(a: Entry, b: Entry) { Ikey(a) < Ikey(b) || (Ikey(a) == Ikey(b) && Class(a) < Class(b)) }

  ghost predicate InOrder(es: seq<Entry>) { forall i, j :: 0 <= i < j < |es| ==> Before(es[i], es[j]) }

  function End(t: Tree, n: nat): nat { if n + 1 < |t.starts| then t.starts[n + 1] else |t.entries| }

  ghost predicate Leaves(t: Tree) {
    && |t.starts| == |t.bounds| >= 1 && t.starts[0] == 0 && t.bounds[0] == 0
    && (forall m, n :: 0 <= m < n < |t.starts| ==> t.starts[m] <= t.starts[n] && t.bounds[m] < t.bounds[n])
    && (forall m :: 0 <= m < |t.starts| ==> t.starts[m] <= |t.entries|)
    && (forall i, m :: 0 <= m < |t.starts| && 0 <= i < |t.entries| ==>
          (i < t.starts[m] ==> Ikey(t.entries[i]) < t.bounds[m])
            && (i >= t.starts[m] ==> t.bounds[m] <= Ikey(t.entries[i])))
  }

  predicate HasEmpty(t: Tree) { t.entries != [] && t.entries[0].Short? && t.entries[0].bytes == [] }

  ghost predicate WF(t: Tree) {
    && InOrder(t.entries) && Leaves(t)
    && forall i :: 0 <= i < |t.entries| ==>
         var e := t.entries[i];
         match e
         case Short(b, _) => |b| <= SLICE
         case Long(b, s, _) => |b| == SLICE && s != []
         case Sub(b, u) => |b| == SLICE && !HasEmpty(u) && WF(u)
  }

  // ---------- what a layer stands for ----------
  ghost function Items(t: Tree, i: nat, prefix: Str): seq<(Str, Value)>
    decreases t, if i < |t.entries| then |t.entries| - i else 0
  {
    if i >= |t.entries| then [] else ItemsAt(t, i, prefix) + Items(t, i + 1, prefix)
  }

  ghost function ItemsAt(t: Tree, i: nat, prefix: Str): seq<(Str, Value)>
    requires i < |t.entries|
    decreases t, 0
  {
    match t.entries[i]
    case Short(b, v) => [(prefix + b, v)]
    case Long(b, s, v) => [(prefix + b + s, v)]
    case Sub(b, u) => Items(u, 0, prefix + b)
  }

  // ---------- the keys come in lexicographic order ----------
  lemma {:induction false} LessPrefix(p: Str, s: Str, t: Str)
    ensures Less(p + s, p + t) <==> Less(s, t)
  {
    if p == [] { assert p + s == s && p + t == t; }
    else {
      assert (p + s)[1..] == p[1..] + s && (p + t)[1..] == p[1..] + t;
      LessPrefix(p[1..], s, t);
    }
  }

  // every key in the items of entry i is prefix, the entry's slice, and a rest that is there exactly for class 9
  ghost predicate Under(k: Str, prefix: Str, e: Entry, rest: Str) {
    k == prefix + (e.bytes + rest) && (rest != [] <==> !e.Short?)
  }

  lemma ItemsUnder(t: Tree, i: nat, prefix: Str, x: nat) returns (rest: Str)
    requires WF(t) && i < |t.entries| && x < |ItemsAt(t, i, prefix)|
    ensures Under(ItemsAt(t, i, prefix)[x].0, prefix, t.entries[i], rest)
    decreases t, 0
  {
    match t.entries[i]
    case Short(b, v) =>
      rest := [];
      assert b + [] == b;
    case Long(b, s, v) =>
      rest := s;
      Assoc(prefix, b, s);
    case Sub(b, u) =>
      var j, y := Locate(u, 0, prefix + b, x);
      var r := ItemsUnder(u, j, prefix + b, y);
      rest := u.entries[j].bytes + r;
      Assoc(prefix, b, rest);
      hide InOrder; hide Leaves;
      if rest == [] { EmptyFirst(u, j); }
  }

  lemma Assoc(a: Str, b: Str, c: Str)
    ensures a + b + c == a + (b + c)
  { }

  lemma EmptyFirst(u: Tree, j: nat)
    requires WF(u) && j < |u.entries| && u.entries[j].Short? && u.entries[j].bytes == []
    ensures HasEmpty(u)
  {
    if j > 0 { assert Before(u.entries[0], u.entries[j]); ZeroNum(SLICE); }
  }

  // the x-th item of entries i.. is the y-th item of entry j
  lemma {:induction false} Locate(t: Tree, i: nat, prefix: Str, x: nat) returns (j: nat, y: nat)
    requires x < |Items(t, i, prefix)|
    ensures i <= j < |t.entries| && y < |ItemsAt(t, j, prefix)| && ItemsAt(t, j, prefix)[y] == Items(t, i, prefix)[x]
    ensures y == x - |ItemsBetween(t, i, j, prefix)|
    decreases t, |t.entries| - i
  {
    if x < |ItemsAt(t, i, prefix)| { j, y := i, x; }
    else { j, y := Locate(t, i + 1, prefix, x - |ItemsAt(t, i, prefix)|); }
  }

  ghost function ItemsBetween(t: Tree, i: nat, j: nat, prefix: Str): seq<(Str, Value)>
    requires j <= |t.entries|
    decreases j - i
  { if i >= j then [] else ItemsAt(t, i, prefix) + ItemsBetween(t, i + 1, j, prefix) }

  lemma {:induction false} NumPrefix(s: Str, r: Str, n: nat)
    requires |s| >= n
    ensures Num(s + r, n) == Num(s, n)
  {
    if n > 0 {
      assert (s + r)[1..] == s[1..] + r;
      NumPrefix(s[1..], r, n - 1);
    }
  }

  lemma EntryKeysLess(prefix: Str, a: Entry, ra: Str, b: Entry, rb: Str)
    requires Before(a, b) && (ra != [] <==> !a.Short?) && (rb != [] <==> !b.Short?)
    requires |a.bytes| <= SLICE && |b.bytes| <= SLICE && (!a.Short? ==> |a.bytes| == SLICE)
      && (!b.Short? ==> |b.bytes| == SLICE)
    ensures Less(prefix + (a.bytes + ra), prefix + (b.bytes + rb))
  {
    if !a.Short? { NumPrefix(a.bytes, ra, SLICE); } else { assert a.bytes + ra == a.bytes; }
    if !b.Short? { NumPrefix(b.bytes, rb, SLICE); } else { assert b.bytes + rb == b.bytes; }
    if Ikey(a) < Ikey(b) { NumLess(a.bytes + ra, b.bytes + rb, SLICE); }
    else { NumShorter(a.bytes + ra, b.bytes + rb, SLICE); }
    LessPrefix(prefix, a.bytes + ra, b.bytes + rb);
  }

  ghost predicate Ascending(q: seq<(Str, Value)>) { forall x, y :: 0 <= x < y < |q| ==> Less(q[x].0, q[y].0) }

  // The items of a layer, and of all layers below it, come in strictly ascending lexicographic order of their keys.
  lemma {:induction false} ItemsAscend(t: Tree, i: nat, prefix: Str)
    requires WF(t)
    ensures Ascending(Items(t, i, prefix))
    decreases t, if i < |t.entries| then |t.entries| - i else 0
  {
    var q := Items(t, i, prefix);
    forall x, y | 0 <= x < y < |q| ensures Less(q[x].0, q[y].0) { ItemsPair(t, i, prefix, x, y); }
  }

  // items of different entries
  lemma ItemsApart(t: Tree, i: nat, j: nat, prefix: Str, x: nat, z: nat)
    requires WF(t) && i < j < |t.entries| && x < |ItemsAt(t, i, prefix)| && z < |ItemsAt(t, j, prefix)|
    ensures Less(ItemsAt(t, i, prefix)[x].0, ItemsAt(t, j, prefix)[z].0)
  {
    hide Less; hide Items; hide ItemsAt;
    var ra := ItemsUnder(t, i, prefix, x);
    var rb := ItemsUnder(t, j, prefix, z);
    assert Before(t.entries[i], t.entries[j]);
    hide InOrder; hide Leaves;
    EntryKeysLess(prefix, t.entries[i], ra, t.entries[j], rb);
  }

  lemma {:induction false} ItemsPair(t: Tree, i: nat, prefix: Str, x: nat, y: nat)
    requires WF(t) && x < y < |Items(t, i, prefix)|
    ensures Less(Items(t, i, prefix)[x].0, Items(t, i, prefix)[y].0)
    decreases t, if i < |t.entries| then |t.entries| - i else 0
  {
    hide Less; hide InOrder; hide Leaves; hide HasEmpty;
    var n := |ItemsAt(t, i, prefix)|;
    if y < n {
      match t.entries[i]
      case Short(_, _) =>
      case Long(_, _, _) =>
      case Sub(b, u) => ItemsPair(u, 0, prefix + b, x, y);
    } else if x >= n {
      ItemsPair(t, i + 1, prefix, x - n, y - n);
    } else {
      var j, z := Locate(t, i + 1, prefix, y - n);
      assert Items(t, i, prefix)[y] == Items(t, i + 1, prefix)[y - n];
      ItemsApart(t, i, j, prefix, x, z);
    }
  }

  // ---------- lookup ----------
  // bound_type::lower: the first entry that ka does not come after
  function Lower(t: Tree, ikey: nat, len: nat, i: nat): (r: nat)
    requires i <= |t.entries|
    ensures i <= r <= |t.entries|
    ensures forall j :: i <= j < r ==> Compare(ikey, len, Ikey(t.entries[j]), Keylenx(t.entries[j])) > 0
    ensures r < |t.entries| ==> Compare(ikey, len, Ikey(t.entries[r]), Keylenx(t.entries[r])) <= 0
    decreases |t.entries| - i
  {
    if i < |t.entries| && Compare(ikey, len, Ikey(t.entries[i]), Keylenx(t.entries[i])) > 0
    then Lower(t, ikey, len, i + 1) else i
  }

  // find_unlocked without concurrency
  function Get(t: Tree, k: Str): Option<Value>
    decreases t
  {
    var i := Lower(t, Slice(k), |k|, 0);
    if i < |t.entries| && Compare(Slice(k), |k|, Ikey(t.entries[i]), Keylenx(t.entries[i])) == 0
    then
      match t.entries[i]
      case Short(_, v) => Some(v)
      case Long(_, s, v) => if |k| > SLICE && s == k[SLICE..] then Some(v) else None
      case Sub(_, u) => if |k| > SLICE then Get(u, k[SLICE..]) else None
    else None
  }

  // what Compare says about a key and an entry
  lemma CompareMeans(k: Str, e: Entry)
    requires match e case Short(b, _) => |b| <= SLICE case _ => |e.bytes| == SLICE
    ensures var c := Compare(Slice(k), |k|, Ikey(e), Keylenx(e));
      && (c == 0 <==> if e.Short? then k == e.bytes else |k| > SLICE && k[..SLICE] == e.bytes)
      && (c > 0 ==> Ikey(e) < Slice(k) || (Ikey(e) == Slice(k) && Class(e) < (if |k| > SLICE then 9 else |k|)))
      && (c < 0 ==> Slice(k) < Ikey(e) || (Ikey(e) == Slice(k) && (if |k| > SLICE then 9 else |k|) < Class(e)))
  {
    var c := Compare(Slice(k), |k|, Ikey(e), Keylenx(e));
    if e.Short? {
      if c == 0 { NumEqual(k, e.bytes, SLICE); }
    } else if |k| > SLICE {
      assert k == k[..SLICE] + k[SLICE..];
      NumPrefix(k[..SLICE], k[SLICE..], SLICE);
      if c == 0 { NumEqual(k[..SLICE], e.bytes, SLICE); }
    }
  }

  ghost predicate Has(t: Tree, prefix: Str, k: Str, v: Value) {
    exists x :: 0 <= x < |Items(t, 0, prefix)| && Items(t, 0, prefix)[x] == (prefix + k, v)
  }

  lemma {:induction false} AtIn(t: Tree, i: nat, j: nat, prefix: Str, y: nat) returns (x: nat)
    requires i <= j < |t.entries| && y < |ItemsAt(t, j, prefix)|
    ensures x < |Items(t, i, prefix)| && Items(t, i, prefix)[x] == ItemsAt(t, j, prefix)[y]
    decreases j - i
  {
    if i == j { x := y; }
    else {
      var z := AtIn(t, i + 1, j, prefix, y);
      x := |ItemsAt(t, i, prefix)| + z;
    }
  }

  lemma Cancel(p: Str, a: Str, b: Str)
    requires p + a == p + b
    ensures a == b
  { assert a == (p + a)[|p|..] && b == (p + b)[|p|..]; }

  // the entry that k belongs to is the one Lower finds
  lemma LowerFinds(t: Tree, k: Str, j: nat)
    requires WF(t) && j < |t.entries| && Compare(Slice(k), |k|, Ikey(t.entries[j]), Keylenx(t.entries[j])) == 0
    ensures Lower(t, Slice(k), |k|, 0) == j
  {
    var i := Lower(t, Slice(k), |k|, 0);
    CompareMeans(k, t.entries[j]);
    CompareMeans(k, t.entries[i]);
  }

  // Get finds exactly the items.
  lemma {:induction false} GetFinds(t: Tree, prefix: Str, k: Str, v: Value)
    requires WF(t)
    ensures Get(t, k) == Some(v) <==> Has(t, prefix, k, v)
    decreases t
  {
    if Get(t, k) == Some(v) { GetHas(t, prefix, k, v); }
    if Has(t, prefix, k, v) { HasGets(t, prefix, k, v); }
  }

  lemma GetHas(t: Tree, prefix: Str, k: Str, v: Value)
    requires WF(t) && Get(t, k) == Some(v)
    ensures Has(t, prefix, k, v)
    decreases t, 0
  {
    var i := Lower(t, Slice(k), |k|, 0);
    var e := t.entries[i];
    CompareMeans(k, e);
    hide InOrder; hide Leaves;
    var y := 0;
    match e {
      case Short(b, _) =>
      case Long(b, s, _) =>
        assert k == b + s;
        Assoc(prefix, b, s);
      case Sub(b, u) =>
        GetFinds(u, prefix + b, k[SLICE..], v);
        y :| 0 <= y < |Items(u, 0, prefix + b)| && Items(u, 0, prefix + b)[y] == (prefix + b + k[SLICE..], v);
        assert k == b + k[SLICE..];
        Assoc(prefix, b, k[SLICE..]);
    }
    assert ItemsAt(t, i, prefix)[y] == (prefix + k, v);
    var x := AtIn(t, 0, i, prefix, y);
  }

  lemma HasGets(t: Tree, prefix: Str, k: Str, v: Value)
    requires WF(t) && Has(t, prefix, k, v)
    ensures Get(t, k) == Some(v)
    decreases t, 0
  {
    var x :| 0 <= x < |Items(t, 0, prefix)| && Items(t, 0, prefix)[x] == (prefix + k, v);
    var j, y := Locate(t, 0, prefix, x);
    var rest := ItemsUnder(t, j, prefix, y);
    var e := t.entries[j];
    Cancel(prefix, k, e.bytes + rest);
    UnderMeans(k, e, rest);
    LowerFinds(t, k, j);
    hide InOrder; hide Leaves;
    match e
    case Short(b, _) =>
    case Long(b, s, _) =>
      Assoc(prefix, b, s);
      Cancel(prefix, b + s, b + rest);
      Cancel(b, s, rest);
    case Sub(b, u) =>
      Assoc(prefix, b, rest);
      GetFinds(u, prefix + b, rest, v);
  }

  lemma UnderMeans(k: Str, e: Entry, rest: Str)
    requires k == e.bytes + rest && (rest != [] <==> !e.Short?)
      && (match e case Short(b, _) => |b| <= SLICE case _ => |e.bytes| == SLICE)
    ensures Compare(Slice(k), |k|, Ikey(e), Keylenx(e)) == 0 && (!e.Short? ==> |k| > SLICE && k[SLICE..] == rest)
  {
    CompareMeans(k, e);
    assert e.Short? ==> k == e.bytes;
    assert !e.Short? ==> k[..SLICE] == e.bytes && k[SLICE..] == rest;
  }

  // ---------- make_new_layer ----------
  function EntryFor(s: Str, v: Value): Entry {
    if |s| <= SLICE then Short(s, v) else Long(s[..SLICE], s[SLICE..], v)
  }

  // a layer that is one leaf
  function OneLeaf(es: seq<Entry>): Tree { Tree(es, [0], [0]) }

  function Wrap(twig: seq<Str>, t: Tree): Tree {
    if twig == [] then t else OneLeaf([Sub(twig[0], Wrap(twig[1..], t))])
  }

  function Join(twig: seq<Str>): Str { if twig == [] then [] else twig[0] + Join(twig[1..]) }

  lemma Agree(o: Str, n: Str)
    requires Compare(Slice(o), |o|, Slice(n), |n|) == 0 && o != n
    ensures |o| > SLICE && |n| > SLICE && o[..SLICE] == n[..SLICE] && o[SLICE..] != n[SLICE..]
  {
    if |o| <= SLICE { NumEqual(o, n, SLICE); }
    else {
      NumSame(o, n, SLICE);
      assert o == o[..SLICE] + o[SLICE..] && n == n[..SLICE] + n[SLICE..];
    }
  }

  lemma {:induction false} JoinSnoc(twig: seq<Str>, x: Str)
    ensures Join(twig + [x]) == Join(twig) + x
  {
    if twig == [] { assert [x][1..] == []; }
    else {
      assert (twig + [x])[1..] == twig[1..] + [x];
      JoinSnoc(twig[1..], x);
    }
  }

  lemma EntryForFacts(x: Str, v: Value)
    requires x != []
    ensures var e := EntryFor(x, v);
      && Ikey(e) == Slice(x) && Class(e) == (if |x| > SLICE then 9 else |x|) && |e.bytes| <= SLICE && e.bytes != []
      && (e.Long? ==> |e.bytes| == SLICE && e.suffix != [])
  {
    if |x| > SLICE {
      assert x == x[..SLICE] + x[SLICE..];
      NumPrefix(x[..SLICE], x[SLICE..], SLICE);
    }
  }

  lemma EntryForItem(es: seq<Entry>, i: nat, x: Str, v: Value, prefix: Str)
    requires i < |es| && es[i] == EntryFor(x, v)
    ensures ItemsAt(OneLeaf(es), i, prefix) == [(prefix + x, v)]
  {
    if |x| > SLICE {
      assert x == x[..SLICE] + x[SLICE..];
      Assoc(prefix, x[..SLICE], x[SLICE..]);
    }
  }

  lemma OneEntry(x: Str, v: Value)
    requires x != []
    ensures var t := OneLeaf([EntryFor(x, v)]);
      WF(t) && !HasEmpty(t) && forall prefix: Str :: Items(t, 0, prefix) == [(prefix + x, v)]
  {
    EntryForFacts(x, v);
    var t := OneLeaf([EntryFor(x, v)]);
    forall prefix: Str ensures Items(t, 0, prefix) == [(prefix + x, v)] {
      EntryForItem(t.entries, 0, x, v, prefix);
      assert Items(t, 1, prefix) == [];
    }
  }

  lemma TwoEntries(x: Str, v: Value, y: Str, w: Value)
    requires x != [] && y != [] && Compare(Slice(x), |x|, Slice(y), |y|) < 0
    ensures var t := OneLeaf([EntryFor(x, v), EntryFor(y, w)]);
      WF(t) && !HasEmpty(t) && forall prefix: Str :: Items(t, 0, prefix) == [(prefix + x, v), (prefix + y, w)]
  {
    EntryForFacts(x, v);
    EntryForFacts(y, w);
    var t := OneLeaf([EntryFor(x, v), EntryFor(y, w)]);
    forall prefix: Str ensures Items(t, 0, prefix) == [(prefix + x, v), (prefix + y, w)] {
      EntryForItem(t.entries, 0, x, v, prefix);
      EntryForItem(t.entries, 1, y, w, prefix);
      assert Items(t, 2, prefix) == [];
      assert Items(t, 1, prefix) == ItemsAt(t, 1, prefix) + Items(t, 2, prefix);
    }
  }

  lemma OneSub(b: Str, u: Tree)
    requires |b| == SLICE && WF(u) && !HasEmpty(u)
    ensures var w := OneLeaf([Sub(b, u)]);
      WF(w) && !HasEmpty(w) && forall prefix: Str :: Items(w, 0, prefix) == Items(u, 0, prefix + b)
  {
    var w := OneLeaf([Sub(b, u)]);
    forall prefix: Str ensures Items(w, 0, prefix) == Items(u, 0, prefix + b) { assert Items(w, 1, prefix) == []; }
  }

  lemma {:induction false} WrapItems(twig: seq<Str>, t: Tree)
    requires WF(t) && !HasEmpty(t) && forall i :: 0 <= i < |twig| ==> |twig[i]| == SLICE
    ensures WF(Wrap(twig, t)) && !HasEmpty(Wrap(twig, t))
    ensures forall prefix: Str :: Items(Wrap(twig, t), 0, prefix) == Items(t, 0, prefix + Join(twig))
    decreases |twig|
  {
    if twig == [] {
      forall prefix: Str ensures Items(t, 0, prefix) == Items(t, 0, prefix + Join(twig))
      { assert prefix + [] == prefix; }
    } else {
      var u := Wrap(twig[1..], t);
      WrapItems(twig[1..], t);
      OneSub(twig[0], u);
      var w := OneLeaf([Sub(twig[0], u)]);
      hide WF; hide HasEmpty;
      forall prefix: Str ensures Items(w, 0, prefix) == Items(t, 0, prefix + Join(twig)) {
        assert Items(w, 0, prefix) == Items(u, 0, prefix + twig[0]);
        Assoc(prefix, twig[0], Join(twig[1..]));
      }
    }
  }

  // where two keys part, Compare and lexicographic order agree
  lemma Parted(o: Str, n: Str)
    requires Compare(Slice(o), |o|, Slice(n), |n|) != 0
    ensures Compare(Slice(o), |o|, Slice(n), |n|) < 0 <==> Less(o, n)
    ensures Compare(Slice(o), |o|, Slice(n), |n|) > 0 ==> Compare(Slice(n), |n|, Slice(o), |o|) < 0
  { CompareIsLess(o, n); }

  // a layer with exactly these items, in this order, whatever stands before it
  ghost predicate HoldsOne(t: Tree, k: Str, v: Value) {
    WF(t) && !HasEmpty(t) && forall prefix: Str :: Items(t, 0, prefix) == [(prefix + k, v)]
  }

  ghost predicate HoldsTwo(t: Tree, k: Str, v: Value, l: Str, w: Value) {
    WF(t) && !HasEmpty(t) && forall prefix: Str :: Items(t, 0, prefix) == [(prefix + k, v), (prefix + l, w)]
  }

  lemma NewLayerItems(twig: seq<Str>, x: Str, v: Value, y: Str, w: Value, t: Tree)
    requires t == OneLeaf([EntryFor(x, v), EntryFor(y, w)]) && x != [] && y != []
      && Compare(Slice(x), |x|, Slice(y), |y|) < 0
    requires forall i :: 0 <= i < |twig| ==> |twig[i]| == SLICE
    ensures var u := Wrap(twig, t);
      HoldsTwo(u, Join(twig) + x, v, Join(twig) + y, w)
  {
    TwoEntries(x, v, y, w);
    WrapItems(twig, t);
    var u := Wrap(twig, t);
    forall prefix: Str ensures Items(u, 0, prefix) == [(prefix + (Join(twig) + x), v), (prefix + (Join(twig) + y), w)] {
      Assoc(prefix, Join(twig), x);
      Assoc(prefix, Join(twig), y);
      assert Items(u, 0, prefix) == Items(t, 0, prefix + Join(twig));
    }
  }

  lemma OldOnlyItems(twig: seq<Str>, x: Str, v: Value)
    requires x != [] && forall i :: 0 <= i < |twig| ==> |twig[i]| == SLICE
    ensures var u := Wrap(twig, OneLeaf([EntryFor(x, v)]));
      HoldsOne(u, Join(twig) + x, v)
  {
    OneEntry(x, v);
    var t := OneLeaf([EntryFor(x, v)]);
    WrapItems(twig, t);
    var u := Wrap(twig, t);
    forall prefix: Str ensures Items(u, 0, prefix) == [(prefix + (Join(twig) + x), v)] {
      Assoc(prefix, Join(twig), x);
      assert Items(u, 0, prefix) == Items(t, 0, prefix + Join(twig));
    }
  }

  // the same layers but for one slot of the last one
  ghost predicate OneSlotMore(before: Tree, after: Tree) {
    exists twig, e, f :: before == Wrap(twig, OneLeaf([e]))
      && (after == Wrap(twig, OneLeaf([e, f])) || after == Wrap(twig, OneLeaf([f, e])))
  }

  // The old key's suffix and the new key's, cut off slice by slice while they agree; where they part, one leaf holds
  // both. before is what readers see first: the new key's slot is not in the permutation yet. after is finish_insert.
  method MakeNewLayer(old_: Str, ov: Value, new_: Str, nv: Value) returns (before: Tree, after: Tree)
    requires old_ != [] && new_ != [] && old_ != new_
    ensures HoldsOne(before, old_, ov)
    ensures if Less(old_, new_) then HoldsTwo(after, old_, ov, new_, nv) else HoldsTwo(after, new_, nv, old_, ov)
    ensures OneSlotMore(before, after)
  {
    hide HoldsOne; hide HoldsTwo; hide Compare; hide Slice;
    var o, n := old_, new_;
    var twig: seq<Str> := [];
    var kcmp := Compare(Slice(o), |o|, Slice(n), |n|);
    while kcmp == 0
      invariant old_ == Join(twig) + o && new_ == Join(twig) + n && o != [] && n != [] && o != n
      invariant kcmp == Compare(Slice(o), |o|, Slice(n), |n|)
      invariant forall i :: 0 <= i < |twig| ==> |twig[i]| == SLICE
      decreases |o|
    {
      Agree(o, n);
      JoinSnoc(twig, o[..SLICE]);
      assert o == o[..SLICE] + o[SLICE..] && n == o[..SLICE] + n[SLICE..];
      twig := twig + [o[..SLICE]];
      o, n := o[SLICE..], n[SLICE..];
      kcmp := Compare(Slice(o), |o|, Slice(n), |n|);
    }
    Parted(o, n);
    LessPrefix(Join(twig), o, n);
    OldOnlyItems(twig, o, ov);
    before := Wrap(twig, OneLeaf([EntryFor(o, ov)]));
    if kcmp < 0 {
      NewLayerItems(twig, o, ov, n, nv, OneLeaf([EntryFor(o, ov), EntryFor(n, nv)]));
      after := Wrap(twig, OneLeaf([EntryFor(o, ov), EntryFor(n, nv)]));
    } else {
      NewLayerItems(twig, n, nv, o, ov, OneLeaf([EntryFor(n, nv), EntryFor(o, ov)]));
      after := Wrap(twig, OneLeaf([EntryFor(n, nv), EntryFor(o, ov)]));
    }
  }

  lemma HasOne(t: Tree, k: Str, v: Value, q: Str, u: Value)
    requires HoldsOne(t, k, v)
    ensures Has(t, [], q, u) <==> q == k && u == v
  {
    var items := Items(t, 0, []);
    assert [] + q == q && [] + k == k;
    assert items == [(k, v)];
    if q == k && u == v { assert items[0] == ([] + q, u); }
  }

  lemma HasTwo(t: Tree, k: Str, v: Value, l: Str, w: Value, q: Str, u: Value)
    requires HoldsTwo(t, k, v, l, w)
    ensures Has(t, [], q, u) <==> (q == k && u == v) || (q == l && u == w)
  {
    var items := Items(t, 0, []);
    assert [] + q == q && [] + k == k && [] + l == l;
    assert items == [(k, v), (l, w)];
    if q == k && u == v { assert items[0] == ([] + q, u); }
    if q == l && u == w { assert items[1] == ([] + q, u); }
  }

  lemma GetOfOne(t: Tree, k: Str, v: Value, q: Str)
    requires HoldsOne(t, k, v)
    ensures Get(t, q) == if q == k then Some(v) else None
  {
    assert WF(t);
    hide HoldsOne; hide Get; hide Has; hide WF;
    HasOne(t, k, v, q, v);
    GetFinds(t, [], q, v);
    if Get(t, q).Some? {
      HasOne(t, k, v, q, Get(t, q).value);
      GetFinds(t, [], q, Get(t, q).value);
    }
  }

  lemma GetOfTwo(t: Tree, k: Str, v: Value, l: Str, w: Value, q: Str)
    requires HoldsTwo(t, k, v, l, w) && k != l
    ensures Get(t, q) == if q == k then Some(v) else if q == l then Some(w) else None
  {
    assert WF(t);
    hide HoldsTwo; hide Get; hide Has; hide WF;
    HasTwo(t, k, v, l, w, q, v);
    HasTwo(t, k, v, l, w, q, w);
    GetFinds(t, [], q, v);
    GetFinds(t, [], q, w);
    if Get(t, q).Some? {
      HasTwo(t, k, v, l, w, q, Get(t, q).value);
      GetFinds(t, [], q, Get(t, q).value);
    }
  }

  // entry i gives way to a layer
  function WithLayer(t: Tree, i: nat, u: Tree): Tree
    requires i < |t.entries|
  { t.(entries := t.entries[i := Sub(t.entries[i].bytes, u)]) }

  lemma WithLayerOk(t: Tree, i: nat, u: Tree)
    requires WF(t) && i < |t.entries| && !t.entries[i].Short? && WF(u) && !HasEmpty(u)
    ensures WF(WithLayer(t, i, u)) && HasEmpty(WithLayer(t, i, u)) == HasEmpty(t)
  {
    SameOrder(t.entries, WithLayer(t, i, u).entries);
    SameLeaves(t, WithLayer(t, i, u));
    hide InOrder; hide Leaves;
  }

  lemma SameOrder(es: seq<Entry>, fs: seq<Entry>)
    requires InOrder(es) && |fs| == |es|
      && forall j :: 0 <= j < |es| ==> Ikey(fs[j]) == Ikey(es[j]) && Class(fs[j]) == Class(es[j])
    ensures InOrder(fs)
  {
    forall j, k | 0 <= j < k < |fs| ensures Before(fs[j], fs[k]) { assert Before(es[j], es[k]); }
  }

  lemma SameLeaves(t: Tree, u: Tree)
    requires Leaves(t) && u.starts == t.starts && u.bounds == t.bounds && |u.entries| == |t.entries|
    requires forall j :: 0 <= j < |t.entries| ==> Ikey(u.entries[j]) == Ikey(t.entries[j])
    ensures Leaves(u)
  { }

  lemma {:induction false} LowerSame(t: Tree, i: nat, u: Tree, ikey: nat, len: nat, j: nat)
    requires i < |t.entries| && !t.entries[i].Short? && j <= |t.entries|
    ensures Lower(WithLayer(t, i, u), ikey, len, j) == Lower(t, ikey, len, j)
    decreases |t.entries| - j
  { if j < |t.entries| { LowerSame(t, i, u, ikey, len, j + 1); } }

  lemma GetWithLayer(t: Tree, i: nat, u: Tree, q: Str)
    requires i < |t.entries| && !t.entries[i].Short?
    ensures var c := Compare(Slice(q), |q|, Ikey(t.entries[i]), Keylenx(t.entries[i]));
      Get(WithLayer(t, i, u), q) == if Lower(t, Slice(q), |q|, 0) == i && c == 0
        then (if |q| > SLICE then Get(u, q[SLICE..]) else None) else Get(t, q)
  { LowerSame(t, i, u, Slice(q), |q|, 0); }

  lemma SliceThenRest(q: Str, b: Str, r: Str)
    requires |b| == SLICE && r != []
    ensures q == b + r <==> |q| > SLICE && q[..SLICE] == b && q[SLICE..] == r
  {
    if |q| > SLICE { assert q == q[..SLICE] + q[SLICE..]; }
  }

  // the entry is responsible for exactly the keys that go on after its slice
  lemma AtEntry(t: Tree, i: nat, u: Tree, q: Str)
    requires WF(t) && i < |t.entries| && !t.entries[i].Short?
    ensures var e := t.entries[i];
      if |q| > SLICE && q[..SLICE] == e.bytes
      then Get(WithLayer(t, i, u), q) == Get(u, q[SLICE..]) && Get(t, q) == GoesOn(e, q[SLICE..])
      else Get(WithLayer(t, i, u), q) == Get(t, q)
  {
    var e := t.entries[i];
    assert |e.bytes| == SLICE;
    CompareMeans(q, e);
    if |q| > SLICE && q[..SLICE] == e.bytes { LowerFinds(t, q, i); }
    hide WF; hide Compare;
    GetWithLayer(t, i, u, q);
  }

  // what an entry has for the rest of a key after its slice
  function GoesOn(e: Entry, rest: Str): Option<Value> {
    match e
    case Short(_, _) => None
    case Long(_, s, v) => if rest == s then Some(v) else None
    case Sub(_, u) => Get(u, rest)
  }

  // A key that collides with a stored suffix: while readers see the new layer without the new key no lookup changes,
  // and then exactly the new key's does.
  lemma NewLayerLookups(t: Tree, i: nat, new_: Str, nv: Value, before: Tree, after: Tree, q: Str)
    requires WF(t) && i < |t.entries| && t.entries[i].Long? && new_ != [] && new_ != t.entries[i].suffix
    requires var e := t.entries[i];
      HoldsOne(before, e.suffix, e.value)
      && (if Less(e.suffix, new_) then HoldsTwo(after, e.suffix, e.value, new_, nv)
        else HoldsTwo(after, new_, nv, e.suffix, e.value))
    ensures WF(WithLayer(t, i, before)) && Get(WithLayer(t, i, before), q) == Get(t, q)
    ensures WF(WithLayer(t, i, after)) && Get(WithLayer(t, i, after), q) == if q == t.entries[i].bytes + new_
      then Some(nv) else Get(t, q)
  {
    var e := t.entries[i];
    WithLayerOk(t, i, before);
    WithLayerOk(t, i, after);
    AtEntry(t, i, before, q);
    AtEntry(t, i, after, q);
    assert |e.bytes| == SLICE;
    SliceThenRest(q, e.bytes, new_);
    hide HoldsOne; hide HoldsTwo; hide WF; hide Get; hide WithLayer;
    if |q| > SLICE && q[..SLICE] == e.bytes {
      GetOfOne(before, e.suffix, e.value, q[SLICE..]);
      if Less(e.suffix, new_) { GetOfTwo(after, e.suffix, e.value, new_, nv, q[SLICE..]); }
      else { GetOfTwo(after, new_, nv, e.suffix, e.value, q[SLICE..]); }
    }
  }

  // ---------- deep in the trie ----------
  // from layer to layer, by the positions of their entries
  ghost predicate OnPath(t: Tree, path: seq<nat>) {
    path == [] || (path[0] < |t.entries| && t.entries[path[0]].Sub? && OnPath(t.entries[path[0]].layer, path[1..]))
  }

  ghost function At(t: Tree, path: seq<nat>): Tree
    requires OnPath(t, path)
  { if path == [] then t else At(t.entries[path[0]].layer, path[1..]) }

  ghost function Prefix(t: Tree, path: seq<nat>): Str
    requires OnPath(t, path)
  { if path == [] then [] else t.entries[path[0]].bytes + Prefix(t.entries[path[0]].layer, path[1..]) }

  // the whole trie, with another layer at the end of the path
  ghost function Put(t: Tree, path: seq<nat>, u: Tree): Tree
    requires OnPath(t, path)
  { if path == [] then u else WithLayer(t, path[0], Put(t.entries[path[0]].layer, path[1..], u)) }

  lemma {:induction false} AtOk(t: Tree, path: seq<nat>)
    requires WF(t) && OnPath(t, path)
    ensures WF(At(t, path))
    decreases |path|
  { if path != [] { AtOk(t.entries[path[0]].layer, path[1..]); } }

  lemma {:induction false} PutOk(t: Tree, path: seq<nat>, u: Tree)
    requires WF(t) && OnPath(t, path) && WF(u) && HasEmpty(u) == HasEmpty(At(t, path))
    ensures WF(Put(t, path, u)) && HasEmpty(Put(t, path, u)) == HasEmpty(t)
    decreases |path|
  {
    if path != [] {
      var below := t.entries[path[0]].layer;
      PutOk(below, path[1..], u);
      WithLayerOk(t, path[0], Put(below, path[1..], u));
    }
  }

  // a layer that differs for one key of its own makes the trie differ for that key after the path's slices
  lemma {:induction false} PutLookups(t: Tree, path: seq<nat>, u: Tree, k: Str, v: Option<Value>, q: Str)
    requires WF(t) && OnPath(t, path) && WF(u) && HasEmpty(u) == HasEmpty(At(t, path)) && k != []
    requires forall r :: Get(u, r) == if r == k then v else Get(At(t, path), r)
    ensures Get(Put(t, path, u), q) == if q == Prefix(t, path) + k then v else Get(t, q)
    decreases |path|
  {
    if path == [] {
      assert [] + k == k;
    } else {
      var e := t.entries[path[0]];
      var rest := Prefix(e.layer, path[1..]) + k;
      assert |e.bytes| == SLICE && WF(e.layer);
      Assoc(e.bytes, Prefix(e.layer, path[1..]), k);
      SliceThenRest(q, e.bytes, rest);
      AtEntry(t, path[0], Put(e.layer, path[1..], u), q);
      if |q| > SLICE && q[..SLICE] == e.bytes { PutLookups(e.layer, path[1..], u, k, v, q[SLICE..]); }
    }
  }

  // A collision in a layer however deep: exactly one lookup of the whole trie changes, and only when the slot is
  // published.
  lemma DeepLayerLookups(t: Tree, path: seq<nat>, i: nat, new_: Str, nv: Value, before: Tree, after: Tree, q: Str)
    requires WF(t) && OnPath(t, path) && new_ != []
    requires var u := At(t, path); i < |u.entries| && u.entries[i].Long? && new_ != u.entries[i].suffix
    requires var e := At(t, path).entries[i];
      HoldsOne(before, e.suffix, e.value)
      && (if Less(e.suffix, new_) then HoldsTwo(after, e.suffix, e.value, new_, nv)
        else HoldsTwo(after, new_, nv, e.suffix, e.value))
    ensures var u := At(t, path);
      var reading, published := Put(t, path, WithLayer(u, i, before)), Put(t, path, WithLayer(u, i, after));
      && WF(reading) && Get(reading, q) == Get(t, q)
      && WF(published) && Get(published, q) == if q == Prefix(t, path) + (u.entries[i].bytes + new_) then Some(nv)
        else Get(t, q)
  {
    var u := At(t, path);
    var e := u.entries[i];
    var k := e.bytes + new_;
    AtOk(t, path);
    WithLayerOk(u, i, before);
    WithLayerOk(u, i, after);
    forall r ensures Get(WithLayer(u, i, before), r) == Get(u, r) { NewLayerLookups(u, i, new_, nv, before, after, r); }
    forall r ensures Get(WithLayer(u, i, after), r) == if r == k then Some(nv) else Get(u, r) {
      NewLayerLookups(u, i, new_, nv, before, after, r);
    }
    hide WF; hide Get; hide HoldsOne; hide HoldsTwo; hide WithLayer; hide HasEmpty;
    PutOk(t, path, WithLayer(u, i, before));
    PutOk(t, path, WithLayer(u, i, after));
    PutLookups(t, path, WithLayer(u, i, before), k, Get(u, k), q);
    PutLookups(t, path, WithLayer(u, i, after), k, Some(nv), q);
    PutLookups(t, path, u, k, Get(u, k), q);
    PutSame(t, path);
  }

  lemma {:induction false} PutSame(t: Tree, path: seq<nat>)
    requires OnPath(t, path)
    ensures Put(t, path, At(t, path)) == t
    decreases |path|
  { if path != [] { PutSame(t.entries[path[0]].layer, path[1..]); } }
}
