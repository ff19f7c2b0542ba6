module LayerShrink {
  import opened Options
  import opened LayerModel
  import opened LayerGrow

  // ---------- ancestors ----------
  // These hold while a leaf or a chain of internodes is being taken out (mode Hole(n, None)).
  ghost predicate NoOrphan(m: Mode) { m.Normal? || (m.Hole? && m.r.None?) }

  lemma ParentFacts(s: Shape, m: Mode, x: Id) returns (p: Id, j: nat)
    requires Struct(s, m) && NoOrphan(m) && x in s.nodes && x != s.root
    ensures s.nodes[x].parent == Some(p) && p in s.nodes && s.nodes[p].Inner? && !Dead(m, p)
    ensures InnerOk(s, m, p) && j < |s.nodes[p].child| && s.nodes[p].child[j] == Some(x) && ChildOk(s, m, p, j)
    ensures Height(s.nodes[x]) < Height(s.nodes[p])
    ensures s.lo[p] <= s.lo[x] && s.hi[x] <= s.hi[p]
  {
    assert ParentOk(s, m, x);
    p := s.nodes[x].parent.value;
    j :| 0 <= j < |s.nodes[p].child| && s.nodes[p].child[j] == Some(x);
    assert InnerOk(s, m, p) && ChildOk(s, m, p, j);
    var q := s.nodes[p];
    if j > 0 { assert s.lo[p] <= q.keys[0] <= q.keys[j-1]; }
    if j < |q.keys| { assert q.keys[j] <= q.keys[|q.keys|-1]; }
  }

  lemma Up(s: Shape, m: Mode, x: Id)
    requires Struct(s, m) && NoOrphan(m) && x in s.nodes && x != s.root
    ensures s.nodes[x].parent.Some? && s.nodes[x].parent.value in s.nodes
    ensures Height(s.nodes[x]) < Height(s.nodes[s.nodes[x].parent.value]) <= Height(s.nodes[s.root])
  {
    var p, j := ParentFacts(s, m, x);
  }

  // a is x or an ancestor of x
  ghost predicate Above(s: Shape, m: Mode, a: Id, x: Id)
    requires Struct(s, m) && NoOrphan(m) && x in s.nodes
    decreases Height(s.nodes[s.root]) - Height(s.nodes[x])
  {
    x == a || (x != s.root && (Up(s, m, x); Above(s, m, a, s.nodes[x].parent.value)))
  }

  lemma {:induction false} AboveFacts(s: Shape, m: Mode, a: Id, x: Id)
    requires Struct(s, m) && NoOrphan(m) && x in s.nodes && Above(s, m, a, x)
    ensures a in s.nodes && s.lo[a] <= s.lo[x] && s.hi[x] <= s.hi[a]
    ensures Dead(m, a) ==> x == a
    decreases Height(s.nodes[s.root]) - Height(s.nodes[x])
  {
    if x != a {
      var p, j := ParentFacts(s, m, x);
      AboveFacts(s, m, a, p);
    }
  }

  lemma {:induction false} RootAbove(s: Shape, m: Mode, x: Id)
    requires Struct(s, m) && NoOrphan(m) && x in s.nodes
    ensures Above(s, m, s.root, x)
    decreases Height(s.nodes[s.root]) - Height(s.nodes[x])
  {
    if x != s.root {
      var p, j := ParentFacts(s, m, x);
      RootAbove(s, m, p);
    }
  }

  // two children of a that both hold v are the same
  lemma SameChild(s: Shape, m: Mode, a: Id, i: nat, j: nat, v: nat)
    requires Struct(s, m) && NoOrphan(m) && a in s.nodes && s.nodes[a].Inner? && InnerOk(s, m, a)
    requires i < |s.nodes[a].child| && j < |s.nodes[a].child| && s.nodes[a].child[i].Some? && s.nodes[a].child[j].Some?
    requires s.nodes[a].child[i].value in s.nodes && s.nodes[a].child[j].value in s.nodes
    requires s.lo[s.nodes[a].child[i].value] <= v < s.hi[s.nodes[a].child[i].value]
    requires s.lo[s.nodes[a].child[j].value] <= v < s.hi[s.nodes[a].child[j].value]
    ensures i == j
  {
    assert ChildOk(s, m, a, i) && ChildOk(s, m, a, j);
    UpperIs(s.nodes[a].keys, v, i);
    UpperIs(s.nodes[a].keys, v, j);
  }

  lemma {:induction false} ChildAbove(s: Shape, m: Mode, a: Id, x: Id, y: Id, v: nat)
    requires Struct(s, m) && NoOrphan(m) && x in s.nodes && y in s.nodes
    requires x != s.root && s.nodes[x].parent == Some(a) && Above(s, m, a, y) && y != a
    requires s.lo[x] <= v < s.hi[x] && s.lo[y] <= v < s.hi[y]
    ensures Above(s, m, x, y)
    decreases Height(s.nodes[s.root]) - Height(s.nodes[y])
  {
    if y != x {
      var p, j := ParentFacts(s, m, y);
      if p == a {
        var a', i := ParentFacts(s, m, x);
        SameChild(s, m, a, i, j, v);
      } else {
        ChildAbove(s, m, a, x, p, v);
      }
    }
  }

  // two nodes whose ranges share a point lie on one path
  lemma {:induction false} Comparable(s: Shape, m: Mode, x: Id, y: Id, v: nat)
    requires Struct(s, m) && NoOrphan(m) && x in s.nodes && y in s.nodes
    requires s.lo[x] <= v < s.hi[x] && s.lo[y] <= v < s.hi[y]
    ensures Above(s, m, x, y) || Above(s, m, y, x)
    decreases Height(s.nodes[s.root]) - Height(s.nodes[x])
  {
    if x == s.root { RootAbove(s, m, y); }
    else {
      var p, j := ParentFacts(s, m, x);
      Comparable(s, m, p, y, v);
      if Above(s, m, p, y) && y != p { ChildAbove(s, m, p, x, y, v); }
    }
  }

  // Every node other than the dead n either misses [B, B') altogether or spans more than it.
  lemma NothingInside(s: Shape, n: Id, p: Id, kp: nat, y: Id)
    requires Struct(s, Hole(n, None)) && ParentAt(s, n, p, kp) && p != n && y in s.nodes && y != n
    ensures !(s.lo[n] < s.lo[y] < s.hi[n])
    ensures s.lo[y] == s.lo[n] ==> s.lo[p] == s.lo[n] && s.hi[y] >= s.hi[p]
  {
    var m := Hole(n, None);
    if s.lo[n] <= s.lo[y] < s.hi[n] {
      Comparable(s, m, n, y, s.lo[y]);
      if Above(s, m, n, y) { AboveFacts(s, m, n, y); }
      var p', j := ParentFacts(s, m, n);
      assert InnerOk(s, m, p) && ChildOk(s, m, p, kp);
      AboveFacts(s, m, y, n);
      AboveFacts(s, m, y, p);
    }
  }

  // ---------- closing the gap ----------
  function Ren(v: nat, b: nat, b': nat): nat { if v == b then b' else v }

  function RenKeys(keys: seq<nat>, b: nat, b': nat): (r: seq<nat>)
    ensures |r| == |keys| && forall i :: 0 <= i < |keys| ==> r[i] == Ren(keys[i], b, b')
  {
    seq(|keys|, i requires 0 <= i < |keys| => Ren(keys[i], b, b'))
  }

  function RenNode(n: Node, b: nat, b': nat): Node {
    if n.Inner? then n.(keys := RenKeys(n.keys, b, b')) else n
  }

  function Without(q: Node, kp: nat): Node
    requires q.Inner? && kp < |q.child| == |q.keys| + 1
  {
    if kp == 0 then q.(child := q.child[0 := None])
    else q.(keys := q.keys[..kp-1] + q.keys[kp..], child := q.child[..kp] + q.child[kp+1..])
  }

  ghost function Closed(s: Shape, n: Id, p: Id, kp: nat): Shape
    requires n in s.lo && n in s.hi && p in s.nodes && s.nodes[p].Inner?
      && kp < |s.nodes[p].child| == |s.nodes[p].keys| + 1
  {
    var b, b' := s.lo[n], s.hi[n];
    Shape(map x | x in s.nodes && x != n :: RenNode(if x == p then Without(s.nodes[p], kp) else s.nodes[x], b, b'),
          s.root,
          map x | x in s.lo && x != n :: Ren(s.lo[x], b, b'),
          map x | x in s.hi && x != n :: Ren(s.hi[x], b, b'))
  }

  ghost predicate CanClose(s: Shape, n: Id, p: Id, kp: nat) {
    && Struct(s, Hole(n, None)) && ParentAt(s, n, p, kp) && p != n
    && |s.nodes[p].child| == |s.nodes[p].keys| + 1
    && (|Without(s.nodes[p], kp).keys| > 0 || Without(s.nodes[p], kp).child[0].Some?)
  }

  lemma AtParent(s: Shape, n: Id, p: Id, kp: nat)
    requires CanClose(s, n, p, kp)
    ensures InnerOk(s, Hole(n, None), p) && ChildOk(s, Hole(n, None), p, kp)
    ensures s.lo[n] == Lb(s.nodes[p], s.lo[p], kp) && s.hi[n] == Ub(s.nodes[p], s.hi[p], kp)
    ensures s.lo[p] == s.lo[n] ==> s.hi[n] < s.hi[p]
    ensures s.lo[p] == s.lo[n] <==> kp == 0 || (kp == 1 && s.nodes[p].child[0].None?)
  {
    var m, q := Hole(n, None), s.nodes[p];
    assert InnerOk(s, m, p);
    assert ChildOk(s, m, p, kp);
    assert kp > 1 ==> q.keys[0] < q.keys[kp-1];
  }

  // what every surviving node keeps: its range stays non-empty
  lemma Survivor(s: Shape, n: Id, p: Id, kp: nat, y: Id)
    requires CanClose(s, n, p, kp) && y in s.nodes && y != n
    ensures Ren(s.lo[y], s.lo[n], s.hi[n]) < Ren(s.hi[y], s.lo[n], s.hi[n])
    ensures s.lo[y] == s.lo[n] ==> s.hi[n] < s.hi[y]
  {
    NothingInside(s, n, p, kp, y);
    AtParent(s, n, p, kp);
  }

  lemma CloseBase(s: Shape, n: Id, p: Id, kp: nat)
    requires CanClose(s, n, p, kp)
    ensures Base(Closed(s, n, p, kp), Normal)
  {
    var t := Closed(s, n, p, kp);
    assert t.nodes.Keys == s.nodes.Keys - {n};
    forall x | x in t.nodes ensures t.lo[x] < t.hi[x] && Height(t.nodes[x]) <= Height(t.nodes[t.root]) {
      Survivor(s, n, p, kp, x);
    }
    RootAbove(s, Hole(n, None), n);
    AboveFacts(s, Hole(n, None), s.root, n);
  }

  lemma CloseKeys(s: Shape, n: Id, p: Id, kp: nat, x: Id)
    requires CanClose(s, n, p, kp) && x in s.nodes && s.nodes[x].Inner? && x != n && x != p
    ensures InnerOk(s, Hole(n, None), x)
    ensures var q, keys := s.nodes[x], RenKeys(s.nodes[x].keys, s.lo[n], s.hi[n]);
      && Ascending(keys)
      && (|keys| > 0 ==>
          && keys[|keys| - 1] < Ren(s.hi[x], s.lo[n], s.hi[n])
          && (if q.child[0].None? then keys[0] == Ren(s.lo[x], s.lo[n], s.hi[n])
            else Ren(s.lo[x], s.lo[n], s.hi[n]) < keys[0]))
  {
    var m, q, b, b' := Hole(n, None), s.nodes[x], s.lo[n], s.hi[n];
    assert InnerOk(s, m, x);
    // the child to the right of a separator equal to B reaches beyond B'
    forall i | 0 <= i < |q.keys| && q.keys[i] == b ensures b' < Ub(q, s.hi[x], i + 1) {
      assert ChildOk(s, m, x, i + 1);
      OnlyParent(s, n, p, kp, x, i + 1);
      Survivor(s, n, p, kp, q.child[i+1].value);
    }
    var keys := RenKeys(q.keys, b, b');
    forall i, j | 0 <= i < j < |keys| ensures keys[i] < keys[j] {
      assert q.keys[i+1] <= q.keys[j];
      assert Ub(q, s.hi[x], i + 1) == q.keys[i+1];
    }
    if q.child[0].Some? {
      assert ChildOk(s, m, x, 0);
      OnlyParent(s, n, p, kp, x, 0);
      Survivor(s, n, p, kp, q.child[0].value);
    }
  }

  lemma OnlyParent(s: Shape, n: Id, p: Id, kp: nat, x: Id, j: nat)
    requires CanClose(s, n, p, kp) && x in s.nodes && s.nodes[x].Inner? && x != n && x != p && j < |s.nodes[x].child|
    requires s.nodes[x].child[j].Some? && |s.nodes[x].child| == |s.nodes[x].keys| + 1
    requires ChildOk(s, Hole(n, None), x, j)
    ensures s.nodes[x].child[j].value != n
  {
    AtParent(s, n, p, kp);
  }

  lemma CloseInner(s: Shape, n: Id, p: Id, kp: nat, x: Id)
    requires CanClose(s, n, p, kp) && x in s.nodes && s.nodes[x].Inner? && x != n && x != p
    requires Domains(Closed(s, n, p, kp), Normal)
    ensures InnerOk(Closed(s, n, p, kp), Normal, x)
  {
    var t, m, q := Closed(s, n, p, kp), Hole(n, None), s.nodes[x];
    CloseKeys(s, n, p, kp, x);
    forall j | 0 <= j < |q.child| && q.child[j].Some? ensures ChildOk(t, Normal, x, j) {
      assert ChildOk(s, m, x, j);
      OnlyParent(s, n, p, kp, x, j);
    }
  }

  lemma CloseAtKeys(s: Shape, n: Id, p: Id, kp: nat)
    requires CanClose(s, n, p, kp)
    ensures var q, b, b' := Without(s.nodes[p], kp), s.lo[n], s.hi[n];
      && RenKeys(q.keys, b, b') == q.keys
      && |q.child| == |q.keys| + 1
      && Ascending(q.keys)
      && (|q.keys| > 0 ==>
          && q.keys[|q.keys| - 1] < Ren(s.hi[p], b, b')
          && (if q.child[0].None? then q.keys[0] == Ren(s.lo[p], b, b') else Ren(s.lo[p], b, b') < q.keys[0]))
      && (forall j :: 1 <= j < |q.child| ==> q.child[j].Some?)
      && s.hi[p] != b
  {
    AtParent(s, n, p, kp);
    var q0, q := s.nodes[p], Without(s.nodes[p], kp);
    forall i | 0 <= i < |q.keys| ensures q.keys[i] != s.lo[n] {
      if kp > 0 { assert q.keys[i] == q0.keys[if i < kp - 1 then i else i + 1]; }
      else { assert q0.keys[0] <= q0.keys[i]; }
    }
    assert RenKeys(q.keys, s.lo[n], s.hi[n]) == q.keys;
  }

  lemma CloseAt(s: Shape, n: Id, p: Id, kp: nat)
    requires CanClose(s, n, p, kp) && Domains(Closed(s, n, p, kp), Normal)
    ensures InnerOk(Closed(s, n, p, kp), Normal, p)
  {
    var t, m, q0, q := Closed(s, n, p, kp), Hole(n, None), s.nodes[p], Without(s.nodes[p], kp);
    AtParent(s, n, p, kp);
    CloseAtKeys(s, n, p, kp);
    assert t.nodes[p] == q;
    forall j | 0 <= j < |q.child| && q.child[j].Some? ensures ChildOk(t, Normal, p, j) {
      CloseAtChild(s, n, p, kp, j);
    }
  }

  // bounds of the child that stands at i before and at j after child kp is gone
  lemma CloseBounds(q: Node, lop: nat, hip: nat, kp: nat, b: nat, b': nat, j: nat, i: nat)
    requires q.Inner? && kp < |q.child| == |q.keys| + 1 && Ascending(q.keys)
    requires b == Lb(q, lop, kp) && b' == Ub(q, hip, kp) && b < hip
    requires |q.keys| > 0 ==> lop <= q.keys[0] && (kp == 0 ==> lop < q.keys[0])
    requires j < |Without(q, kp).child| && i == (if kp > 0 && j >= kp then j + 1 else j) && i != kp
    ensures i < |q.child| && Without(q, kp).child[j] == q.child[i]
    ensures |Without(q, kp).child| == |Without(q, kp).keys| + 1
    ensures Ren(Lb(q, lop, i), b, b') == Lb(Without(q, kp), Ren(lop, b, b'), j)
    ensures Ren(Ub(q, hip, i), b, b') == Ub(Without(q, kp), Ren(hip, b, b'), j)
  {
    var r := Without(q, kp);
    if kp > 0 {
      assert |r.keys| == |q.keys| - 1;
      assert forall k :: 0 <= k < |r.keys| ==> r.keys[k] == q.keys[if k < kp - 1 then k else k + 1];
    }
  }

  lemma CloseAtChild(s: Shape, n: Id, p: Id, kp: nat, j: nat)
    requires CanClose(s, n, p, kp) && Domains(Closed(s, n, p, kp), Normal)
    requires Closed(s, n, p, kp).nodes[p] == Without(s.nodes[p], kp)
    requires var q := Without(s.nodes[p], kp); |q.child| == |q.keys| + 1 && j < |q.child| && q.child[j].Some?
    ensures ChildOk(Closed(s, n, p, kp), Normal, p, j)
  {
    var m, q0, q := Hole(n, None), s.nodes[p], Without(s.nodes[p], kp);
    AtParent(s, n, p, kp);
    var i := if kp > 0 && j >= kp then j + 1 else j;
    CloseBounds(q0, s.lo[p], s.hi[p], kp, s.lo[n], s.hi[n], j, i);
    assert ChildOk(s, m, p, i);
    if q0.child[i] == Some(n) { OnlyAt(s, m, p, kp, i); }
  }

  lemma CloseParent(s: Shape, n: Id, p: Id, kp: nat, y: Id)
    requires CanClose(s, n, p, kp) && y in s.nodes && y != n && y != s.root && ParentOk(s, Hole(n, None), y)
    requires Domains(Closed(s, n, p, kp), Normal)
    ensures ParentOk(Closed(s, n, p, kp), Normal, y)
  {
    var t := Closed(s, n, p, kp);
    var z := s.nodes[y].parent.value;
    assert z in t.nodes;
    if z == p {
      var i :| 0 <= i < |s.nodes[p].child| && s.nodes[p].child[i] == Some(y);
      assert t.nodes[p].child[if kp > 0 && i > kp then i - 1 else i] == Some(y);
    }
  }

  lemma CloseList(s: Shape, n: Id, p: Id, kp: nat, l: Id)
    requires CanClose(s, n, p, kp) && l in s.nodes && l != n && s.nodes[l].Leaf? && ListOk(s, Hole(n, None), l)
    requires forall x :: x in s.nodes && x != n ==> s.lo[x] != s.lo[n] || s.hi[n] < s.hi[x]
    requires Domains(Closed(s, n, p, kp), Normal)
    ensures ListOk(Closed(s, n, p, kp), Normal, l)
  {
  }

  // The dead node goes; the range it had now belongs to whatever stands left of it.
  lemma Close(s: Shape, n: Id, p: Id, kp: nat)
    requires CanClose(s, n, p, kp)
    ensures Struct(Closed(s, n, p, kp), Normal)
  {
    CloseBase(s, n, p, kp);
    CloseAll(s, n, p, kp);
  }

  lemma CloseAll(s: Shape, n: Id, p: Id, kp: nat)
    requires CanClose(s, n, p, kp) && Domains(Closed(s, n, p, kp), Normal)
    ensures InnersOk(Closed(s, n, p, kp), Normal)
    ensures ParentsOk(Closed(s, n, p, kp), Normal)
    ensures ListsOk(Closed(s, n, p, kp), Normal)
  {
    var t, m := Closed(s, n, p, kp), Hole(n, None);
    CloseAt(s, n, p, kp);
    forall x | x in t.nodes && t.nodes[x].Inner? && x != p ensures InnerOk(t, Normal, x) {
      CloseInner(s, n, p, kp, x);
    }
    forall y | y in t.nodes && y != t.root ensures ParentOk(t, Normal, y) {
      assert ParentOk(s, m, y);
      CloseParent(s, n, p, kp, y);
    }
    forall x | x in s.nodes && x != n ensures s.lo[x] != s.lo[n] || s.hi[n] < s.hi[x] {
      Survivor(s, n, p, kp, x);
    }
    forall l | l in t.nodes && t.nodes[l].Leaf? ensures ListOk(t, Normal, l) {
      assert ListOk(s, m, l);
      CloseList(s, n, p, kp, l);
    }
  }

  // ---------- a leaf leaves the list ----------
  // btree_leaflink<N, false>::unlink
  function Unlink(nodes: Nodes, n: Id): Nodes
    requires n in nodes && nodes[n].Leaf? && nodes[n].prev.Some?
    requires nodes[n].prev.value in nodes && nodes[nodes[n].prev.value].Leaf?
    requires nodes[n].next.Some? ==> nodes[n].next.value in nodes && nodes[nodes[n].next.value].Leaf?
  {
    var a := if nodes[n].next.None? then nodes
             else nodes[nodes[n].next.value := nodes[nodes[n].next.value].(prev := nodes[n].prev)];
    a[nodes[n].prev.value := a[nodes[n].prev.value].(next := nodes[n].next)]
  }

  lemma SameLo(s: Shape, x: Id, y: Id)
    requires Struct(s, Normal) && x in s.nodes && y in s.nodes && s.nodes[x].Leaf? && s.nodes[y].Leaf?
      && s.lo[x] == s.lo[y]
    ensures x == y
  {
    RouteUnique(s, x, s.lo[x]);
    RouteUnique(s, y, s.lo[x]);
  }

  lemma Neighbours(s: Shape, n: Id)
    requires Struct(s, Normal) && n in s.nodes && s.nodes[n].Leaf? && s.nodes[n].prev.Some?
    ensures Unlink.requires(s.nodes, n) && n != s.root && s.lo[n] > 0 && s.nodes[n].prev.value != n
    ensures ListOk(s, Normal, n) && ListOk(s, Normal, s.nodes[n].prev.value) && s.hi[s.nodes[n].prev.value] == s.lo[n]
    ensures s.nodes[n].next.Some? ==>
      ListOk(s, Normal, s.nodes[n].next.value) && s.nodes[n].next.value != n && s.nodes[n].next != s.nodes[n].prev
  {
    assert ListOk(s, Normal, n);
    assert ListOk(s, Normal, s.nodes[n].prev.value);
    if s.nodes[n].next.Some? { assert ListOk(s, Normal, s.nodes[n].next.value); }
  }

  lemma UnlinkList(s: Shape, n: Id, l: Id)
    requires Struct(s, Normal) && n in s.nodes && s.nodes[n].Leaf? && s.nodes[n].prev.Some?
      && Unlink.requires(s.nodes, n)
    requires l in s.nodes && s.nodes[l].Leaf? && l != n
    ensures Domains(s.(nodes := Unlink(s.nodes, n)), Hole(n, None))
    ensures ListOk(s.(nodes := Unlink(s.nodes, n)), Hole(n, None), l)
  {
    Neighbours(s, n);
    Climb(s, n, s.hi[n] - 1);
    assert ListOk(s, Normal, l);
    if s.nodes[l].next.Some? {
      var o := s.nodes[l].next.value;
      assert ListOk(s, Normal, o);
      if s.hi[l] == s.lo[n] { SameLo(s, o, n); }
    }
    if s.nodes[l].prev.Some? { assert ListOk(s, Normal, s.nodes[l].prev.value); }
  }

  lemma UnlinkInner(s: Shape, n: Id, x: Id)
    requires Domains(s, Normal) && n in s.nodes && s.nodes[n].Leaf? && s.nodes[n].prev.Some?
      && Unlink.requires(s.nodes, n)
    requires x in s.nodes && s.nodes[x].Inner? && InnerOk(s, Normal, x)
    requires Domains(s.(nodes := Unlink(s.nodes, n)), Hole(n, None))
    ensures InnerOk(s.(nodes := Unlink(s.nodes, n)), Hole(n, None), x)
  {
    forall c | Some(c) in s.nodes[x].child ensures c in s.nodes && c != s.root && s.nodes[c].parent == Some(x) {
      ChildFacts(s, Normal, x, c);
    }
    InnerFrame(s, Normal, s.(nodes := Unlink(s.nodes, n)), Hole(n, None), x);
  }

  lemma UnlinkLeaf(s: Shape, n: Id)
    requires Struct(s, Normal) && n in s.nodes && s.nodes[n].Leaf? && s.nodes[n].prev.Some?
    ensures Unlink.requires(s.nodes, n)
    ensures Struct(s.(nodes := Unlink(s.nodes, n)), Hole(n, None))
  {
    Neighbours(s, n);
    assert Unlink(s.nodes, n).Keys == s.nodes.Keys;
    UnlinkTree(s, n);
    UnlinkLists(s, n);
  }

  lemma UnlinkTree(s: Shape, n: Id)
    requires Domains(s, Normal) && InnersOk(s, Normal) && ParentsOk(s, Normal)
    requires n in s.nodes && s.nodes[n].Leaf? && s.nodes[n].prev.Some? && Unlink.requires(s.nodes, n)
    requires Domains(s.(nodes := Unlink(s.nodes, n)), Hole(n, None))
    ensures InnersOk(s.(nodes := Unlink(s.nodes, n)), Hole(n, None))
    ensures ParentsOk(s.(nodes := Unlink(s.nodes, n)), Hole(n, None))
  {
    var t, m := s.(nodes := Unlink(s.nodes, n)), Hole(n, None);
    forall x | x in t.nodes && t.nodes[x].Inner? ensures InnerOk(t, m, x) {
      assert InnerOk(s, Normal, x);
      UnlinkInner(s, n, x);
    }
    forall y | y in t.nodes && y != t.root ensures ParentOk(t, m, y) {
      assert ParentOk(s, Normal, y);
    }
  }

  lemma UnlinkLists(s: Shape, n: Id)
    requires Struct(s, Normal) && n in s.nodes && s.nodes[n].Leaf? && s.nodes[n].prev.Some?
      && Unlink.requires(s.nodes, n)
    requires Domains(s.(nodes := Unlink(s.nodes, n)), Hole(n, None))
    ensures ListsOk(s.(nodes := Unlink(s.nodes, n)), Hole(n, None))
  {
    var t, m := s.(nodes := Unlink(s.nodes, n)), Hole(n, None);
    forall l | l in t.nodes && t.nodes[l].Leaf? && l != n ensures ListOk(t, m, l) {
      UnlinkList(s, n, l);
    }
  }

  // ---------- an internode left with nothing goes too ----------
  ghost function Drop(s: Shape, n: Id): Shape {
    Shape(map x | x in s.nodes && x != n :: s.nodes[x], s.root,
          map x | x in s.lo && x != n :: s.lo[x],
          map x | x in s.hi && x != n :: s.hi[x])
  }

  // n was the only child p had: p is the hole now
  lemma Cascade(s: Shape, n: Id, p: Id, kp: nat)
    requires Struct(s, Hole(n, None)) && ParentAt(s, n, p, kp) && p != n
    requires |s.nodes[p].child| == |s.nodes[p].keys| + 1
    requires Without(s.nodes[p], kp).keys == [] && Without(s.nodes[p], kp).child[0].None?
    ensures p != s.root && s.lo[p] == s.lo[n] && s.hi[p] == s.hi[n]
    ensures var t := Drop(s, n); Struct(t.(nodes := t.nodes[p := Without(s.nodes[p], kp)]), Hole(p, None))
  {
    var m, m' := Hole(n, None), Hole(p, None);
    var d := Drop(s, n);
    var t := d.(nodes := d.nodes[p := Without(s.nodes[p], kp)]);
    assert InnerOk(s, m, p) && ChildOk(s, m, p, kp);
    assert s.lo[p] == s.lo[n] && s.hi[p] == s.hi[n];
    assert t.nodes.Keys == s.nodes.Keys - {n};
    assert Base(t, m');
    CascadeInner(s, n, p, kp, t);
    assert forall c :: Some(c) in s.nodes[p].child ==> c == n;
    CascadeParents(s, n, p, kp, t);
    CascadeLists(s, n, p, kp, t);
  }

  lemma CascadeParents(s: Shape, n: Id, p: Id, kp: nat, t: Shape)
    requires ParentAt(s, n, p, kp) && p != n && Domains(s, Hole(n, None))
    requires |s.nodes[p].child| == |s.nodes[p].keys| + 1
    requires var d := Drop(s, n); t == d.(nodes := d.nodes[p := Without(s.nodes[p], kp)])
    requires Domains(t, Hole(p, None))
    requires ParentsOk(s, Hole(n, None)) && (forall c :: Some(c) in s.nodes[p].child ==> c == n)
    ensures ParentsOk(t, Hole(p, None))
  {
    forall y | y in t.nodes && y != t.root ensures ParentOk(t, Hole(p, None), y) {
      assert ParentOk(s, Hole(n, None), y);
    }
  }

  lemma CascadeLists(s: Shape, n: Id, p: Id, kp: nat, t: Shape)
    requires ParentAt(s, n, p, kp) && p != n && Domains(s, Hole(n, None))
    requires |s.nodes[p].child| == |s.nodes[p].keys| + 1
    requires var d := Drop(s, n); t == d.(nodes := d.nodes[p := Without(s.nodes[p], kp)])
    requires Domains(t, Hole(p, None))
    requires ListsOk(s, Hole(n, None)) && s.lo[p] == s.lo[n] && s.hi[p] == s.hi[n]
    ensures ListsOk(t, Hole(p, None))
  {
    forall l | l in t.nodes && t.nodes[l].Leaf? ensures ListOk(t, Hole(p, None), l) {
      assert ListOk(s, Hole(n, None), l);
    }
  }

  lemma CascadeInner(s: Shape, n: Id, p: Id, kp: nat, t: Shape)
    requires Domains(s, Hole(n, None)) && InnersOk(s, Hole(n, None)) && ParentAt(s, n, p, kp) && p != n
    requires InnerOk(s, Hole(n, None), p) && ChildOk(s, Hole(n, None), p, kp)
    requires var d := Drop(s, n); t == d.(nodes := d.nodes[p := Without(s.nodes[p], kp)])
    requires Domains(t, Hole(p, None))
    ensures InnersOk(t, Hole(p, None))
  {
    forall x | x in t.nodes && t.nodes[x].Inner? && x != p ensures InnerOk(t, Hole(p, None), x) {
      assert InnerOk(s, Hole(n, None), x);
      forall c | Some(c) in s.nodes[x].child
        ensures c in s.nodes && c != s.root && s.nodes[c].parent == Some(x) && c != n {
        ChildFacts(s, Hole(n, None), x, c);
      }
      InnerFrame(s, Hole(n, None), t, Hole(p, None), x);
    }
  }

  // ---------- a one-child internode gives way to its child ----------
  lemma Collapse(s: Shape, p: Id)
    requires Struct(s, Normal) && p in s.nodes && s.nodes[p].Inner? && p != s.root && s.nodes[p].keys == []
    ensures |s.nodes[p].child| == 1 && s.nodes[p].child[0].Some?
    ensures Struct(s, Hole(p, s.nodes[p].child[0]))
  {
    assert InnerOk(s, Normal, p);
    assert ChildOk(s, Normal, p, 0);
    var m := Hole(p, s.nodes[p].child[0]);
    assert Domains(s, m) && ModeOk(s, m);
    forall x | x in s.nodes && s.nodes[x].Inner? && x != p ensures InnerOk(s, m, x) {
      assert InnerOk(s, Normal, x);
      forall c | Some(c) in s.nodes[x].child
        ensures c in s.nodes && c != s.root && s.nodes[c].parent == Some(x) && Some(c) != s.nodes[p].child[0] {
        ChildFacts(s, Normal, x, c);
      }
      InnerFrame(s, Normal, s, m, x);
    }
    forall y | y in s.nodes && y != s.root && !Orphan(m, y) ensures ParentOk(s, m, y) {
      assert ParentOk(s, Normal, y);
    }
    forall l | l in s.nodes && s.nodes[l].Leaf? ensures ListOk(s, m, l) {
      assert ListOk(s, Normal, l);
    }
  }

  ghost function Replaced(s: Shape, n: Id, r: Id, p: Id, kp: nat): Shape
    requires p in s.nodes && s.nodes[p].Inner? && kp < |s.nodes[p].child| && r in s.nodes
  {
    var a := s.nodes[p := s.nodes[p].(child := s.nodes[p].child[kp := Some(r)])];
    Drop(s.(nodes := a[r := s.nodes[r].(parent := Some(p))]), n)
  }

  lemma Replace(s: Shape, n: Id, r: Id, p: Id, kp: nat)
    requires Struct(s, Hole(n, Some(r))) && ParentAt(s, n, p, kp) && p != n
    ensures r != p && Struct(Replaced(s, n, r, p, kp), Normal)
  {
    var m, t := Hole(n, Some(r)), Replaced(s, n, r, p, kp);
    assert InnerOk(s, m, p) && ChildOk(s, m, p, kp);
    assert t.nodes.Keys == s.nodes.Keys - {n};
    assert Base(t, Normal);
    ReplaceInner(s, n, r, p, kp);
    ReplaceParents(s, n, r, p, kp);
    ReplaceLists(s, n, r, p, kp);
  }

  lemma ReplaceParents(s: Shape, n: Id, r: Id, p: Id, kp: nat)
    requires Domains(s, Hole(n, Some(r))) && ParentsOk(s, Hole(n, Some(r))) && ParentAt(s, n, p, kp) && p != n && r != p
    requires Domains(Replaced(s, n, r, p, kp), Normal)
    ensures ParentsOk(Replaced(s, n, r, p, kp), Normal)
  {
    var t := Replaced(s, n, r, p, kp);
    forall y | y in t.nodes && y != t.root ensures ParentOk(t, Normal, y) {
      if y == r { assert t.nodes[p].child[kp] == Some(r); }
      else {
        assert ParentOk(s, Hole(n, Some(r)), y);
        var z := s.nodes[y].parent.value;
        var j :| 0 <= j < |s.nodes[z].child| && s.nodes[z].child[j] == Some(y);
        assert t.nodes[z].child[j] == Some(y);
      }
    }
  }

  lemma ReplaceLists(s: Shape, n: Id, r: Id, p: Id, kp: nat)
    requires Domains(s, Hole(n, Some(r))) && ListsOk(s, Hole(n, Some(r))) && ParentAt(s, n, p, kp) && p != n && r != p
      && n != r
    requires Domains(Replaced(s, n, r, p, kp), Normal)
    ensures ListsOk(Replaced(s, n, r, p, kp), Normal)
  {
    var t := Replaced(s, n, r, p, kp);
    forall l | l in t.nodes && t.nodes[l].Leaf? ensures ListOk(t, Normal, l) {
      assert ListOk(s, Hole(n, Some(r)), l);
    }
  }

  lemma ReplaceInner(s: Shape, n: Id, r: Id, p: Id, kp: nat)
    requires Domains(s, Hole(n, Some(r))) && ModeOk(s, Hole(n, Some(r))) && InnersOk(s, Hole(n, Some(r)))
      && ParentAt(s, n, p, kp) && p != n && r != p
    requires InnerOk(s, Hole(n, Some(r)), p) && ChildOk(s, Hole(n, Some(r)), p, kp)
    requires Domains(Replaced(s, n, r, p, kp), Normal)
    ensures InnersOk(Replaced(s, n, r, p, kp), Normal)
  {
    var m, t := Hole(n, Some(r)), Replaced(s, n, r, p, kp);
    forall x | x in t.nodes && t.nodes[x].Inner? && x != p ensures InnerOk(t, Normal, x) {
      assert InnerOk(s, m, x);
      forall c | Some(c) in s.nodes[x].child
        ensures c in s.nodes && c != s.root && s.nodes[c].parent == Some(x) && c != n && c != r {
        ChildFacts(s, m, x, c);
      }
      InnerFrame(s, m, t, Normal, x);
    }
    forall j | 0 <= j < |t.nodes[p].child| && t.nodes[p].child[j].Some? ensures ChildOk(t, Normal, p, j) {
      assert ChildOk(s, m, p, j);
      if j != kp && s.nodes[p].child[j] == Some(n) { OnlyAt(s, m, p, kp, j); }
    }
  }

  // what a dead internode holds is of no account
  lemma DeadIsFree(s: Shape, d: Id, r: Option<Id>, node: Node)
    requires Struct(s, Hole(d, r)) && s.nodes[d].Inner? && node.Inner?
    requires node.parent == s.nodes[d].parent && node.height == s.nodes[d].height
    ensures Struct(s.(nodes := s.nodes[d := node]), Hole(d, r))
  {
    var t, m := s.(nodes := s.nodes[d := node]), Hole(d, r);
    assert t.nodes.Keys == s.nodes.Keys;
    DeadIsFreeTree(s, d, r, node);
    forall l | l in t.nodes && t.nodes[l].Leaf? && !Dead(m, l) ensures ListOk(t, m, l) { assert ListOk(s, m, l); }
  }

  lemma DeadIsFreeTree(s: Shape, d: Id, r: Option<Id>, node: Node)
    requires var m := Hole(d, r); Domains(s, m) && InnersOk(s, m) && ParentsOk(s, m)
    requires s.nodes[d].Inner? && node.Inner? && node.parent == s.nodes[d].parent && node.height == s.nodes[d].height
    requires Domains(s.(nodes := s.nodes[d := node]), Hole(d, r))
    ensures var t, m := s.(nodes := s.nodes[d := node]), Hole(d, r); InnersOk(t, m) && ParentsOk(t, m)
  {
    var t, m := s.(nodes := s.nodes[d := node]), Hole(d, r);
    forall p | p in t.nodes && t.nodes[p].Inner? && p != d ensures InnerOk(t, m, p) {
      assert InnerOk(s, m, p);
      forall c | Some(c) in s.nodes[p].child
        ensures c in s.nodes && c != s.root && !Orphan(m, c) && s.nodes[c].parent == Some(p) {
        ChildFacts(s, m, p, c);
      }
      InnerFrame(s, m, t, m, p);
    }
    forall y | y in t.nodes && y != t.root && !Orphan(m, y) ensures ParentOk(t, m, y) { assert ParentOk(s, m, y); }
  }

  // ---------- redirect ----------
  // one round: q is the parent of x, which starts at b; the rename of b at q touches at most one separator
  lemma RedirectRound(s: Shape, m: Mode, x: Id, ikey: nat, v: nat)
    requires Struct(s, m) && NoOrphan(m) && x in s.nodes && x != s.root && s.lo[x] <= ikey < s.hi[x]
    ensures s.nodes[x].parent.Some? && s.nodes[x].parent.value in s.nodes && !Dead(m, s.nodes[x].parent.value)
    ensures var q, b := s.nodes[x].parent.value, s.lo[x];
      && s.nodes[q].Inner? && Height(s.nodes[x]) < Height(s.nodes[q]) && s.lo[q] <= ikey < s.hi[q] && s.lo[q] <= s.lo[x]
      && var n := s.nodes[q];
         var kp := Upper(n.keys, ikey);
         && kp < |n.child| && n.child[kp] == Some(x) && |n.child| == |n.keys| + 1
         && RenNode(n, b, v) == (if kp > 0 then n.(keys := n.keys[kp - 1 := v]) else n)
         && (s.lo[q] == b <==> kp == 0 || (kp == 1 && n.child[0].None?))
  {
    var b := s.lo[x];
    var q, j := ParentFacts(s, m, x);
    var n := s.nodes[q];
    UpperIs(n.keys, ikey, j);
    var keys := if j > 0 then n.keys[j - 1 := v] else n.keys;
    assert j > 1 ==> n.keys[0] < n.keys[j-1];
    assert RenKeys(n.keys, b, v) == keys;
  }

  // nothing else had a separator at B: those that had are the parents of p's ancestors that start at B
  lemma RedirectAll(s: Shape, n: Id, p: Id, kp: nat, q: Id)
    requires CanClose(s, n, p, kp) && q in s.nodes && s.nodes[q].Inner? && q != p && q != n
      && s.lo[n] in s.nodes[q].keys
    ensures s.lo[p] == s.lo[n]
    ensures exists y ::
      y in s.nodes && s.nodes[y].parent == Some(q) && s.lo[y] == s.lo[n] && Above(s, Hole(n, None), y, p)
  {
    var m, b := Hole(n, None), s.lo[n];
    assert InnerOk(s, m, q);
    var i :| 0 <= i < |s.nodes[q].keys| && s.nodes[q].keys[i] == b;
    assert ChildOk(s, m, q, i + 1);
    OnlyParent(s, n, p, kp, q, i + 1);
    var y := s.nodes[q].child[i+1].value;
    NothingInside(s, n, p, kp, y);
    AtParent(s, n, p, kp);
    if y != p {
      Comparable(s, m, y, p, b);
      if Above(s, m, p, y) {
        ChildAbove(s, m, p, n, y, b);
        AboveFacts(s, m, n, y);
      }
    }
  }
}
