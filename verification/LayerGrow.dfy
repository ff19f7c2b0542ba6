module LayerGrow {
  import opened Options
  import opened LayerModel

  // InnerOk of p carries over when p and its children look the same.
  lemma InnerFrame(s: Shape, m: Mode, t: Shape, m': Mode, p: Id)
    requires Domains(s, m) && Domains(t, m')
    requires p in s.nodes && s.nodes[p].Inner? && InnerOk(s, m, p)
    requires p in t.nodes && t.nodes[p].Inner?
    requires t.nodes[p].height == s.nodes[p].height && t.nodes[p].keys == s.nodes[p].keys
      && t.nodes[p].child == s.nodes[p].child
    requires t.lo[p] == s.lo[p] && t.hi[p] == s.hi[p]
    requires forall c :: Some(c) in s.nodes[p].child ==>
      c in s.nodes && c in t.nodes && c != t.root && !Orphan(m', c) && t.nodes[c].parent == Some(p)
      && Height(t.nodes[c]) == Height(s.nodes[c])
      && t.lo[c] == s.lo[c] && PHi(t, m', c) == PHi(s, m, c)
    ensures InnerOk(t, m', p)
  {
    forall j | 0 <= j < |s.nodes[p].child| && s.nodes[p].child[j].Some?
      ensures ChildOk(t, m', p, j)
    {
      assert ChildOk(s, m, p, j);
      assert Some(s.nodes[p].child[j].value) in s.nodes[p].child;
    }
  }

  // btree_leaflink<N, false>::link_split
  function LinkSplit(nodes: Nodes, n: Id, nr: Id, leaf: Node): (r: Nodes)
    requires n in nodes && nodes[n].Leaf? && leaf.Leaf? && nr !in nodes
    requires nodes[n].next.Some? ==>
      nodes[n].next.value in nodes && nodes[n].next.value != n && nodes[nodes[n].next.value].Leaf?
  {
    var a := nodes[nr := leaf.(prev := Some(n), next := nodes[n].next)][n := nodes[n].(next := Some(nr))];
    if nodes[n].next.None? then a
    else a[nodes[n].next.value := a[nodes[n].next.value].(prev := Some(nr))]
  }

  ghost function SplitLeafShape(s: Shape, n: Id, nr: Id, leaf: Node, x: nat): Shape
    requires LinkSplit.requires(s.nodes, n, nr, leaf) && n in s.hi
  {
    Shape(LinkSplit(s.nodes, n, nr, leaf), s.root, s.lo[nr := x], s.hi[nr := s.hi[n]][n := x])
  }

  lemma ChildFacts(s: Shape, m: Mode, p: Id, c: Id)
    requires Domains(s, m) && p in s.nodes && s.nodes[p].Inner? && InnerOk(s, m, p) && Some(c) in s.nodes[p].child
    ensures c in s.nodes && c != s.root && !Orphan(m, c) && s.nodes[c].parent == Some(p)
      && Height(s.nodes[c]) < s.nodes[p].height
  {
    var j :| 0 <= j < |s.nodes[p].child| && s.nodes[p].child[j] == Some(c);
    assert ChildOk(s, m, p, j);
  }

  lemma NextIsOther(s: Shape, m: Mode, n: Id)
    requires Domains(s, m) && m.Normal? && n in s.nodes && s.nodes[n].Leaf? && ListOk(s, m, n) && s.lo[n] < s.hi[n]
    ensures s.nodes[n].next.Some? ==> var o := s.nodes[n].next.value; o in s.nodes && o != n && s.nodes[o].Leaf?
  { }

  lemma SplitLeafInner(s: Shape, n: Id, nr: Id, leaf: Node, x: nat, p: Id)
    requires Domains(s, Normal) && LinkSplit.requires(s.nodes, n, nr, leaf)
    requires p in s.nodes && s.nodes[p].Inner? && InnerOk(s, Normal, p)
    ensures InnerOk(SplitLeafShape(s, n, nr, leaf, x), Pend(n, nr), p)
  {
    forall c | Some(c) in s.nodes[p].child ensures c in s.nodes && c != s.root && s.nodes[c].parent == Some(p) {
      ChildFacts(s, Normal, p, c);
    }
    InnerFrame(s, Normal, SplitLeafShape(s, n, nr, leaf, x), Pend(n, nr), p);
  }

  lemma SplitLeafParent(s: Shape, n: Id, nr: Id, leaf: Node, x: nat, y: Id)
    requires Domains(s, Normal) && LinkSplit.requires(s.nodes, n, nr, leaf)
    requires y in s.nodes && ParentOk(s, Normal, y)
    ensures ParentOk(SplitLeafShape(s, n, nr, leaf, x), Pend(n, nr), y)
  { }

  lemma SplitLeafList(s: Shape, n: Id, nr: Id, leaf: Node, x: nat, l: Id)
    requires Domains(s, Normal) && LinkSplit.requires(s.nodes, n, nr, leaf)
    requires ListsOk(s, Normal)
    requires s.lo[n] < x < s.hi[n]
    requires var t := SplitLeafShape(s, n, nr, leaf, x); l in t.nodes && t.nodes[l].Leaf?
    ensures ListOk(SplitLeafShape(s, n, nr, leaf, x), Pend(n, nr), l)
  {
    var t := SplitLeafShape(s, n, nr, leaf, x);
    assert ListOk(s, Normal, n);
    if l == nr {
    } else if l == n {
    } else {
      assert ListOk(s, Normal, l);
    }
  }

  lemma SplitLeaf(s: Shape, n: Id, nr: Id, leaf: Node, x: nat)
    requires Struct(s, Normal) && n in s.nodes && s.nodes[n].Leaf? && leaf.Leaf? && nr !in s.nodes
    requires s.lo[n] < x < s.hi[n]
    ensures LinkSplit.requires(s.nodes, n, nr, leaf)
    ensures Struct(SplitLeafShape(s, n, nr, leaf, x), Pend(n, nr))
  {
    assert ListOk(s, Normal, n);
    NextIsOther(s, Normal, n);
    SplitLeafBase(s, n, nr, leaf, x);
    SplitLeafRest(s, n, nr, leaf, x);
  }

  lemma SplitLeafBase(s: Shape, n: Id, nr: Id, leaf: Node, x: nat)
    requires Base(s, Normal) && n in s.nodes && s.nodes[n].Leaf? && leaf.Leaf? && nr !in s.nodes
    requires LinkSplit.requires(s.nodes, n, nr, leaf) && s.lo[n] < x < s.hi[n]
    ensures Base(SplitLeafShape(s, n, nr, leaf, x), Pend(n, nr))
  {
    var t := SplitLeafShape(s, n, nr, leaf, x);
    assert t.nodes.Keys == s.nodes.Keys + {nr};
    assert Domains(t, Pend(n, nr));
  }

  lemma SplitLeafRest(s: Shape, n: Id, nr: Id, leaf: Node, x: nat)
    requires Domains(s, Normal) && InnersOk(s, Normal) && ParentsOk(s, Normal) && ListsOk(s, Normal)
    requires LinkSplit.requires(s.nodes, n, nr, leaf) && s.lo[n] < x < s.hi[n]
    requires Domains(SplitLeafShape(s, n, nr, leaf, x), Pend(n, nr))
    ensures InnersOk(SplitLeafShape(s, n, nr, leaf, x), Pend(n, nr))
    ensures ParentsOk(SplitLeafShape(s, n, nr, leaf, x), Pend(n, nr))
    ensures ListsOk(SplitLeafShape(s, n, nr, leaf, x), Pend(n, nr))
  {
    var t := SplitLeafShape(s, n, nr, leaf, x);
    var m := Pend(n, nr);
    forall p | p in t.nodes && t.nodes[p].Inner? ensures InnerOk(t, m, p) {
      SplitLeafInner(s, n, nr, leaf, x, p);
    }
    forall y | y in t.nodes && y != t.root && !Orphan(m, y) ensures ParentOk(t, m, y) {
      SplitLeafParent(s, n, nr, leaf, x, y);
    }
    forall l | l in t.nodes && t.nodes[l].Leaf? ensures ListOk(t, m, l) {
      SplitLeafList(s, n, nr, leaf, x, l);
    }
  }

  ghost predicate SameLinks(s: Shape, t: Shape, x: Id)
    requires x in s.nodes && x in t.nodes && s.lo.Keys == s.nodes.Keys == s.hi.Keys
      && t.lo.Keys == t.nodes.Keys == t.hi.Keys
  {
    var a, b := s.nodes[x], t.nodes[x];
    && a.Leaf? == b.Leaf? && s.lo[x] == t.lo[x] && s.hi[x] == t.hi[x]
    && (a.Leaf? ==> a.next == b.next && a.prev == b.prev)
  }

  lemma ListsFrame(s: Shape, m: Mode, t: Shape, m': Mode)
    requires Domains(s, m) && Domains(t, m') && !m.Hole? && !m'.Hole? && ListsOk(s, m)
    requires s.nodes.Keys <= t.nodes.Keys
    requires forall x :: x in s.nodes ==> SameLinks(s, t, x)
    requires forall x :: x in t.nodes && x !in s.nodes ==> t.nodes[x].Inner?
    ensures ListsOk(t, m')
  {
    forall l | l in t.nodes && t.nodes[l].Leaf? ensures ListOk(t, m', l) {
      assert ListOk(s, m, l);
    }
  }

  // ---------- a new root ----------
  ghost function NewRoot(s: Shape, n: Id, c: Id, nn: Id): Shape
    requires n in s.nodes && c in s.nodes && c in s.lo
  {
    var a := s.nodes[nn := Inner(Height(s.nodes[n]) + 1, [s.lo[c]], [Some(n), Some(c)], None)];
    Shape(a[n := s.nodes[n].(parent := Some(nn))][c := s.nodes[c].(parent := Some(nn))], nn, s.lo[nn := 0],
      s.hi[nn := TOP])
  }

  lemma GrowRoot(s: Shape, n: Id, c: Id, nn: Id)
    requires Struct(s, Pend(n, c)) && n == s.root && nn !in s.nodes
    ensures Struct(NewRoot(s, n, c, nn), Normal)
  {
    var t := NewRoot(s, n, c, nn);
    assert t.nodes.Keys == s.nodes.Keys + {nn};
    GrowRootInners(s, n, c, nn);
    GrowRootParents(s, n, c, nn);
    ListsFrame(s, Pend(n, c), t, Normal);
  }

  lemma GrowRootInner(s: Shape, n: Id, c: Id, nn: Id, p: Id)
    requires Base(s, Pend(n, c)) && n == s.root && nn !in s.nodes && InnersOk(s, Pend(n, c))
    requires Domains(NewRoot(s, n, c, nn), Normal) && p in s.nodes && s.nodes[p].Inner?
    ensures InnerOk(NewRoot(s, n, c, nn), Normal, p)
  {
    var t, m := NewRoot(s, n, c, nn), Pend(n, c);
    assert InnerOk(s, m, p);
    forall x | Some(x) in s.nodes[p].child
      ensures x in s.nodes && x != s.root && s.nodes[x].parent == Some(p) && x != c {
      ChildFacts(s, m, p, x);
    }
    InnerFrame(s, m, t, Normal, p);
  }

  lemma GrowRootParent(s: Shape, n: Id, c: Id, nn: Id, y: Id)
    requires Base(s, Pend(n, c)) && n == s.root && nn !in s.nodes && ParentsOk(s, Pend(n, c))
    requires Domains(NewRoot(s, n, c, nn), Normal) && y in s.nodes
    ensures ParentOk(NewRoot(s, n, c, nn), Normal, y)
  {
    var t := NewRoot(s, n, c, nn);
    if y == n { assert t.nodes[nn].child[0] == Some(y); }
    else if y == c { assert t.nodes[nn].child[1] == Some(y); }
    else { assert ParentOk(s, Pend(n, c), y); }
  }

  lemma GrowRootTop(s: Shape, n: Id, c: Id, nn: Id)
    requires Base(s, Pend(n, c)) && n == s.root && nn !in s.nodes
    requires Domains(NewRoot(s, n, c, nn), Normal)
    ensures InnerOk(NewRoot(s, n, c, nn), Normal, nn)
  {
    var t := NewRoot(s, n, c, nn);
    assert ChildOk(t, Normal, nn, 0);
    assert ChildOk(t, Normal, nn, 1);
  }

  lemma GrowRootInners(s: Shape, n: Id, c: Id, nn: Id)
    requires Base(s, Pend(n, c)) && n == s.root && nn !in s.nodes
    requires Domains(NewRoot(s, n, c, nn), Normal)
    requires InnersOk(s, Pend(n, c))
    ensures InnersOk(NewRoot(s, n, c, nn), Normal)
  {
    var t := NewRoot(s, n, c, nn);
    GrowRootTop(s, n, c, nn);
    forall p | p in t.nodes && t.nodes[p].Inner? && p != nn ensures InnerOk(t, Normal, p) {
      GrowRootInner(s, n, c, nn, p);
    }
  }

  lemma GrowRootParents(s: Shape, n: Id, c: Id, nn: Id)
    requires Base(s, Pend(n, c)) && n == s.root && nn !in s.nodes
    requires Domains(NewRoot(s, n, c, nn), Normal)
    requires ParentsOk(s, Pend(n, c))
    ensures ParentsOk(NewRoot(s, n, c, nn), Normal)
  {
    var t := NewRoot(s, n, c, nn);
    forall y | y in t.nodes && y != t.root ensures ParentOk(t, Normal, y) {
      GrowRootParent(s, n, c, nn, y);
    }
  }

  // ---------- an internode between n and a parent that stands more than one level higher ----------
  ghost function Interpose(s: Shape, n: Id, c: Id, p: Id, kp: nat, nn: Id): Shape
    requires n in s.nodes && c in s.nodes && c in s.lo && n in s.lo && c in s.hi
    requires p in s.nodes && s.nodes[p].Inner? && kp < |s.nodes[p].child|
  {
    var a := s.nodes[nn := Inner(Height(s.nodes[n]) + 1, [s.lo[c]], [Some(n), Some(c)], Some(p))];
    var b := a[n := s.nodes[n].(parent := Some(nn))][c := s.nodes[c].(parent := Some(nn))];
    Shape(b[p := s.nodes[p].(child := s.nodes[p].child[kp := Some(nn)])], s.root, s.lo[nn := s.lo[n]],
      s.hi[nn := s.hi[c]])
  }

  ghost predicate ParentAt(s: Shape, n: Id, p: Id, kp: nat) {
    n in s.nodes && p in s.nodes && s.nodes[p].Inner? && kp < |s.nodes[p].child| && s.nodes[p].child[kp] == Some(n)
  }

  lemma DistinctLb(q: Node, lop: nat, i: nat, j: nat)
    requires q.Inner? && i <= |q.keys| && j <= |q.keys| && Ascending(q.keys)
    requires |q.keys| > 0 ==> lop < q.keys[0]
    ensures i != j ==> Lb(q, lop, i) != Lb(q, lop, j)
  { }

  // no node is the child of p at two places
  lemma OnlyAt(s: Shape, m: Mode, p: Id, kp: nat, j: nat)
    requires Domains(s, m) && p in s.nodes && s.nodes[p].Inner? && InnerOk(s, m, p)
    requires j < |s.nodes[p].child| && kp < |s.nodes[p].child| && s.nodes[p].child[j] == s.nodes[p].child[kp]
      && s.nodes[p].child[j].Some?
    ensures j == kp
  {
    var q := s.nodes[p];
    assert ChildOk(s, m, p, j) && ChildOk(s, m, p, kp);
    if q.child[0].Some? { DistinctLb(q, s.lo[p], j, kp); }
    else { assert Lb(q, s.lo[p], j) == q.keys[j-1] && Lb(q, s.lo[p], kp) == q.keys[kp-1]; }
  }

  lemma InterposeInner(s: Shape, n: Id, c: Id, p: Id, kp: nat, nn: Id, x: Id)
    requires Base(s, Pend(n, c)) && InnersOk(s, Pend(n, c)) && ParentAt(s, n, p, kp) && nn !in s.nodes
    requires s.nodes[p].height > Height(s.nodes[n]) + 1
    requires Domains(Interpose(s, n, c, p, kp, nn), Normal) && x in s.nodes && s.nodes[x].Inner?
    ensures InnerOk(Interpose(s, n, c, p, kp, nn), Normal, x)
  {
    var t, m := Interpose(s, n, c, p, kp, nn), Pend(n, c);
    assert InnerOk(s, m, p) && InnerOk(s, m, x);
    assert ChildOk(s, m, p, kp);
    if x == p {
      forall j | 0 <= j < |s.nodes[p].child| && t.nodes[p].child[j].Some? ensures ChildOk(t, Normal, p, j) {
        if j != kp {
          assert ChildOk(s, m, p, j);
          if s.nodes[p].child[j] == Some(n) { OnlyAt(s, m, p, kp, j); }
        }
      }
    } else {
      forall y | Some(y) in s.nodes[x].child
        ensures y in s.nodes && y != s.root && s.nodes[y].parent == Some(x) && y != c && y != n {
        ChildFacts(s, m, x, y);
      }
      InnerFrame(s, m, t, Normal, x);
    }
  }

  lemma InterposeUnder(s: Shape, n: Id, c: Id, p: Id, kp: nat, nn: Id)
    requires Struct(s, Pend(n, c)) && ParentAt(s, n, p, kp) && nn !in s.nodes
    requires s.nodes[p].height > Height(s.nodes[n]) + 1
    ensures Struct(Interpose(s, n, c, p, kp, nn), Normal)
  {
    var t := Interpose(s, n, c, p, kp, nn);
    assert InnerOk(s, Pend(n, c), p);
    assert ChildOk(s, Pend(n, c), p, kp);
    assert t.nodes.Keys == s.nodes.Keys + {nn};
    InterposeInners(s, n, c, p, kp, nn);
    InterposeParents(s, n, c, p, kp, nn);
    ListsFrame(s, Pend(n, c), t, Normal);
  }

  lemma InterposeParent(s: Shape, n: Id, c: Id, p: Id, kp: nat, nn: Id, y: Id)
    requires Base(s, Pend(n, c)) && ParentAt(s, n, p, kp) && nn !in s.nodes && ParentsOk(s, Pend(n, c))
    requires p != n && p != c
    requires Domains(Interpose(s, n, c, p, kp, nn), Normal) && y in s.nodes && y != s.root
    ensures ParentOk(Interpose(s, n, c, p, kp, nn), Normal, y)
  {
    var t := Interpose(s, n, c, p, kp, nn);
    if y == n { assert t.nodes[nn].child[0] == Some(y); }
    else if y == c { assert t.nodes[nn].child[1] == Some(y); }
    else {
      assert ParentOk(s, Pend(n, c), y);
      var q := s.nodes[y].parent.value;
      var j :| 0 <= j < |s.nodes[q].child| && s.nodes[q].child[j] == Some(y);
      assert t.nodes[q].child[j] == Some(y);
    }
  }

  lemma InterposeTop(s: Shape, n: Id, c: Id, p: Id, kp: nat, nn: Id)
    requires Base(s, Pend(n, c)) && ParentAt(s, n, p, kp) && nn !in s.nodes && p != n && p != c && n != s.root
    requires Domains(Interpose(s, n, c, p, kp, nn), Normal)
    ensures InnerOk(Interpose(s, n, c, p, kp, nn), Normal, nn)
  {
    var t := Interpose(s, n, c, p, kp, nn);
    assert ChildOk(t, Normal, nn, 0);
    assert ChildOk(t, Normal, nn, 1);
  }

  lemma InterposeInners(s: Shape, n: Id, c: Id, p: Id, kp: nat, nn: Id)
    requires Base(s, Pend(n, c)) && ParentAt(s, n, p, kp) && nn !in s.nodes
    requires InnersOk(s, Pend(n, c))
    requires s.nodes[p].height > Height(s.nodes[n]) + 1
    requires Domains(Interpose(s, n, c, p, kp, nn), Normal)
    ensures InnersOk(Interpose(s, n, c, p, kp, nn), Normal)
  {
    var t, m := Interpose(s, n, c, p, kp, nn), Pend(n, c);
    assert InnerOk(s, m, p) && ChildOk(s, m, p, kp);
    InterposeTop(s, n, c, p, kp, nn);
    forall x | x in t.nodes && t.nodes[x].Inner? && x != nn ensures InnerOk(t, Normal, x) {
      InterposeInner(s, n, c, p, kp, nn, x);
    }
  }

  lemma InterposeParents(s: Shape, n: Id, c: Id, p: Id, kp: nat, nn: Id)
    requires Base(s, Pend(n, c)) && ParentAt(s, n, p, kp) && nn !in s.nodes
    requires InnersOk(s, Pend(n, c))
    requires s.nodes[p].height > Height(s.nodes[n]) + 1
    requires Domains(Interpose(s, n, c, p, kp, nn), Normal)
    requires ParentsOk(s, Pend(n, c))
    ensures ParentsOk(Interpose(s, n, c, p, kp, nn), Normal)
  {
    var t, m := Interpose(s, n, c, p, kp, nn), Pend(n, c);
    assert InnerOk(s, m, p) && ChildOk(s, m, p, kp);
    forall y | y in t.nodes && y != t.root ensures ParentOk(t, Normal, y) {
      if y == nn { assert t.nodes[p].child[kp] == Some(y); }
      else { InterposeParent(s, n, c, p, kp, nn, y); }
    }
  }

  // ---------- the new sibling goes into the parent ----------
  ghost function Attach(s: Shape, c: Id, p: Id, kp: nat): Shape
    requires c in s.nodes && c in s.lo
    requires p in s.nodes && s.nodes[p].Inner? && kp <= |s.nodes[p].keys| && kp < |s.nodes[p].child|
  {
    var q := s.nodes[p];
    var a := s.nodes[p := q.(keys := q.keys[..kp] + [s.lo[c]] + q.keys[kp..],
      child := q.child[..kp+1] + [Some(c)] + q.child[kp+1..])];
    s.(nodes := a[c := s.nodes[c].(parent := Some(p))])
  }

  lemma AttachKeys(q: Node, x: nat, kp: nat, q': Node, cc: Option<Id>)
    requires q.Inner? && q'.Inner? && kp <= |q.keys| && |q.child| == |q.keys| + 1 && Ascending(q.keys)
    requires q' == q.(keys := q.keys[..kp] + [x] + q.keys[kp..], child := q.child[..kp+1] + [cc] + q.child[kp+1..])
    requires (kp > 0 ==> q.keys[kp-1] < x) && (kp < |q.keys| ==> x < q.keys[kp])
    ensures |q'.child| == |q'.keys| + 1 == |q.keys| + 2 && Ascending(q'.keys)
    ensures forall i :: 0 <= i < |q'.keys| ==>
      q'.keys[i] == (if i < kp then q.keys[i] else if i == kp then x else q.keys[i-1])
    ensures forall i :: 0 <= i < |q'.child| ==>
      q'.child[i] == (if i <= kp then q.child[i] else if i == kp+1 then cc else q.child[i-1])
  {
    forall i, j | 0 <= i < j < |q'.keys| ensures q'.keys[i] < q'.keys[j] {
      assert q'.keys[i] == (if i < kp then q.keys[i] else if i == kp then x else q.keys[i-1]);
      assert q'.keys[j] == (if j < kp then q.keys[j] else if j == kp then x else q.keys[j-1]);
      if j == kp && i < kp-1 { assert q.keys[i] < q.keys[kp-1]; }
      if i == kp && j > kp+1 { assert q.keys[kp] < q.keys[j-1]; }
    }
  }

  lemma AttachBounds(q: Node, lop: nat, hip: nat, x: nat, kp: nat, q': Node, j: nat, i: nat)
    requires q.Inner? && q'.Inner? && kp <= |q.keys| && |q'.keys| == |q.keys| + 1 && j <= |q'.keys| && j != kp + 1
    requires q'.keys == q.keys[..kp] + [x] + q.keys[kp..]
    requires i == (if j <= kp then j else j - 1)
    ensures i <= |q.keys| && Lb(q', lop, j) == Lb(q, lop, i) && Ub(q', hip, j) == (if j == kp then x else Ub(q, hip, i))
  {
  }

  lemma AttachChild(s: Shape, n: Id, c: Id, p: Id, kp: nat, j: nat)
    requires Base(s, Pend(n, c)) && ParentAt(s, n, p, kp) && p != c && InnerOk(s, Pend(n, c), p)
    requires kp <= |s.nodes[p].keys| && Domains(Attach(s, c, p, kp), Normal) && ChildOk(s, Pend(n, c), p, kp)
    requires var q' := Attach(s, c, p, kp).nodes[p]; |q'.child| == |q'.keys| + 1 && j <= |q'.keys| && q'.child[j].Some?
    ensures ChildOk(Attach(s, c, p, kp), Normal, p, j)
  {
    var t, m := Attach(s, c, p, kp), Pend(n, c);
    var q, q' := s.nodes[p], t.nodes[p];
    if j != kp + 1 {
      var i := if j <= kp then j else j - 1;
      AttachBounds(q, s.lo[p], s.hi[p], s.lo[c], kp, q', j, i);
      assert ChildOk(s, m, p, i);
      if q.child[i] == Some(n) { OnlyAt(s, m, p, kp, i); }
    }
  }

  lemma AttachAt(s: Shape, n: Id, c: Id, p: Id, kp: nat)
    requires Base(s, Pend(n, c)) && ParentAt(s, n, p, kp) && p != c && InnerOk(s, Pend(n, c), p)
    requires kp <= |s.nodes[p].keys| && Domains(Attach(s, c, p, kp), Normal)
    ensures InnerOk(Attach(s, c, p, kp), Normal, p)
  {
    var t, m := Attach(s, c, p, kp), Pend(n, c);
    var q, q' := s.nodes[p], t.nodes[p];
    assert ChildOk(s, m, p, kp);
    AttachKeys(q, s.lo[c], kp, q', Some(c));
    forall j | 0 <= j < |q'.child| && q'.child[j].Some? ensures ChildOk(t, Normal, p, j) {
      AttachChild(s, n, c, p, kp, j);
    }
  }

  lemma AttachInner(s: Shape, n: Id, c: Id, p: Id, kp: nat, x: Id)
    requires Base(s, Pend(n, c)) && InnersOk(s, Pend(n, c)) && ParentAt(s, n, p, kp) && p != c
    requires kp <= |s.nodes[p].keys|
    requires Domains(Attach(s, c, p, kp), Normal) && x in s.nodes && s.nodes[x].Inner? && x != p
    ensures InnerOk(Attach(s, c, p, kp), Normal, x)
  {
    var t, m := Attach(s, c, p, kp), Pend(n, c);
    assert InnerOk(s, m, p) && InnerOk(s, m, x) && ChildOk(s, m, p, kp);
    forall y | Some(y) in s.nodes[x].child
      ensures y in s.nodes && y != s.root && s.nodes[y].parent == Some(x) && y != c && y != n {
      ChildFacts(s, m, x, y);
    }
    InnerFrame(s, m, t, Normal, x);
  }

  lemma AttachParent(s: Shape, n: Id, c: Id, p: Id, kp: nat, y: Id)
    requires Base(s, Pend(n, c)) && ParentAt(s, n, p, kp) && p != c && ParentsOk(s, Pend(n, c))
    requires kp <= |s.nodes[p].keys| && |s.nodes[p].child| == |s.nodes[p].keys| + 1
    requires Domains(Attach(s, c, p, kp), Normal) && y in s.nodes && y != s.root
    ensures ParentOk(Attach(s, c, p, kp), Normal, y)
  {
    var t := Attach(s, c, p, kp);
    if y == c { assert t.nodes[p].child[kp+1] == Some(y); }
    else {
      assert ParentOk(s, Pend(n, c), y);
      var q := s.nodes[y].parent.value;
      var j :| 0 <= j < |s.nodes[q].child| && s.nodes[q].child[j] == Some(y);
      assert t.nodes[q].child[if q == p && j > kp then j+1 else j] == Some(y);
    }
  }

  lemma AttachUnder(s: Shape, n: Id, c: Id, p: Id, kp: nat)
    requires Struct(s, Pend(n, c)) && ParentAt(s, n, p, kp)
    ensures kp <= |s.nodes[p].keys| && p != c && Struct(Attach(s, c, p, kp), Normal)
  {
    assert InnerOk(s, Pend(n, c), p);
    assert ChildOk(s, Pend(n, c), p, kp);
    assert Attach(s, c, p, kp).nodes.Keys == s.nodes.Keys;
    AttachInners(s, n, c, p, kp);
    AttachParents(s, n, c, p, kp);
    ListsFrame(s, Pend(n, c), Attach(s, c, p, kp), Normal);
  }

  lemma AttachInners(s: Shape, n: Id, c: Id, p: Id, kp: nat)
    requires Base(s, Pend(n, c)) && ParentAt(s, n, p, kp) && kp <= |s.nodes[p].keys| && p != c
    requires InnersOk(s, Pend(n, c))
    requires Domains(Attach(s, c, p, kp), Normal)
    ensures InnersOk(Attach(s, c, p, kp), Normal)
  {
    var t, m := Attach(s, c, p, kp), Pend(n, c);
    assert InnerOk(s, m, p);
    AttachAt(s, n, c, p, kp);
    forall x | x in t.nodes && t.nodes[x].Inner? && x != p ensures InnerOk(t, Normal, x) {
      AttachInner(s, n, c, p, kp, x);
    }
  }

  lemma AttachParents(s: Shape, n: Id, c: Id, p: Id, kp: nat)
    requires Base(s, Pend(n, c)) && ParentAt(s, n, p, kp) && kp <= |s.nodes[p].keys| && p != c
    requires InnersOk(s, Pend(n, c))
    requires Domains(Attach(s, c, p, kp), Normal)
    requires ParentsOk(s, Pend(n, c))
    ensures ParentsOk(Attach(s, c, p, kp), Normal)
  {
    var t, m := Attach(s, c, p, kp), Pend(n, c);
    assert InnerOk(s, m, p);
    forall y | y in t.nodes && y != t.root ensures ParentOk(t, Normal, y) {
      AttachParent(s, n, c, p, kp, y);
    }
  }

  // ---------- an internode is cut at mid ----------
  function SetParents(nodes: Nodes, cs: seq<Option<Id>>, q: Id): Nodes {
    map x | x in nodes :: if Some(x) in cs then nodes[x].(parent := Some(q)) else nodes[x]
  }

  ghost function Cut(s: Shape, p: Id, q: Id, mid: nat): Shape
    requires p in s.nodes && s.nodes[p].Inner? && mid < |s.nodes[p].keys|
      && |s.nodes[p].child| == |s.nodes[p].keys| + 1 && p in s.hi
  {
    var n := s.nodes[p];
    var a := SetParents(s.nodes, n.child[mid+1..], q);
    Shape(a[p := n.(keys := n.keys[..mid], child := n.child[..mid+1])][q := Inner(n.height, n.keys[mid+1..],
      n.child[mid+1..], None)],
          s.root, s.lo[q := n.keys[mid]], s.hi[q := s.hi[p]][p := n.keys[mid]])
  }

  lemma CutInner(s: Shape, p: Id, q: Id, mid: nat, x: Id)
    requires Base(s, Normal) && InnersOk(s, Normal) && p in s.nodes && s.nodes[p].Inner? && q !in s.nodes
    requires InnerOk(s, Normal, p) && 1 <= mid < |s.nodes[p].keys|
    requires Domains(Cut(s, p, q, mid), Pend(p, q))
    requires x in s.nodes && s.nodes[x].Inner? && x != p
    ensures InnerOk(Cut(s, p, q, mid), Pend(p, q), x)
  {
    var t, m := Cut(s, p, q, mid), Pend(p, q);
    assert InnerOk(s, Normal, x);
    forall y | Some(y) in s.nodes[x].child
      ensures y in s.nodes && y != s.root && s.nodes[y].parent == Some(x) && Some(y) !in s.nodes[p].child {
      ChildFacts(s, Normal, x, y);
      if Some(y) in s.nodes[p].child { ChildFacts(s, Normal, p, y); }
    }
    InnerFrame(s, Normal, t, m, x);
  }

  lemma CutLeft(s: Shape, p: Id, q: Id, mid: nat)
    requires Base(s, Normal) && p in s.nodes && s.nodes[p].Inner? && q !in s.nodes
    requires InnerOk(s, Normal, p) && 1 <= mid < |s.nodes[p].keys|
    requires Domains(Cut(s, p, q, mid), Pend(p, q))
    ensures InnerOk(Cut(s, p, q, mid), Pend(p, q), p)
  {
    var t, m, n := Cut(s, p, q, mid), Pend(p, q), s.nodes[p];
    forall j | 0 <= j < |t.nodes[p].child| && t.nodes[p].child[j].Some? ensures ChildOk(t, m, p, j) {
      assert ChildOk(s, Normal, p, j);
      if n.child[j] in n.child[mid+1..] {
        var i :| 0 <= i < |n.child[mid+1..]| && n.child[mid+1..][i] == n.child[j];
        OnlyAt(s, Normal, p, i + mid + 1, j);
      }
      assert Lb(t.nodes[p], t.lo[p], j) == Lb(n, s.lo[p], j);
      assert Ub(t.nodes[p], t.hi[p], j) == Ub(n, s.hi[p], j);
    }
  }

  lemma CutRight(s: Shape, p: Id, q: Id, mid: nat)
    requires Base(s, Normal) && p in s.nodes && s.nodes[p].Inner? && q !in s.nodes
    requires InnerOk(s, Normal, p) && 1 <= mid < |s.nodes[p].keys|
    requires Domains(Cut(s, p, q, mid), Pend(p, q))
    ensures InnerOk(Cut(s, p, q, mid), Pend(p, q), q)
  {
    var t, m, n := Cut(s, p, q, mid), Pend(p, q), s.nodes[p];
    forall j | 0 <= j < |t.nodes[q].child| && t.nodes[q].child[j].Some? ensures ChildOk(t, m, q, j) {
      assert ChildOk(s, Normal, p, j + mid + 1);
      assert n.child[mid+1..][j] in n.child[mid+1..];
      assert Lb(t.nodes[q], t.lo[q], j) == Lb(n, s.lo[p], j + mid + 1);
      assert Ub(t.nodes[q], t.hi[q], j) == Ub(n, s.hi[p], j + mid + 1);
    }
  }

  lemma CutNode(s: Shape, p: Id, q: Id, mid: nat)
    requires Struct(s, Normal) && p in s.nodes && s.nodes[p].Inner? && q !in s.nodes
    requires 1 <= mid < |s.nodes[p].keys|
    ensures |s.nodes[p].child| == |s.nodes[p].keys| + 1 && Struct(Cut(s, p, q, mid), Pend(p, q))
  {
    assert InnerOk(s, Normal, p);
    CutBase(s, p, q, mid);
    CutRest(s, p, q, mid);
  }

  lemma CutBase(s: Shape, p: Id, q: Id, mid: nat)
    requires Base(s, Normal) && p in s.nodes && s.nodes[p].Inner? && q !in s.nodes
    requires InnerOk(s, Normal, p) && 1 <= mid < |s.nodes[p].keys|
    ensures Base(Cut(s, p, q, mid), Pend(p, q))
  {
    var t, n := Cut(s, p, q, mid), s.nodes[p];
    assert t.nodes.Keys == s.nodes.Keys + {q};
    assert n.keys[0] < n.keys[mid] <= n.keys[|n.keys|-1];
    if Some(s.root) in n.child { ChildFacts(s, Normal, p, s.root); }
  }

  lemma CutParent(s: Shape, p: Id, q: Id, mid: nat, y: Id)
    requires Domains(s, Normal) && p in s.nodes && s.nodes[p].Inner? && q !in s.nodes
    requires InnerOk(s, Normal, p) && 1 <= mid < |s.nodes[p].keys|
    requires Domains(Cut(s, p, q, mid), Pend(p, q)) && y in s.nodes && ParentOk(s, Normal, y)
    ensures ParentOk(Cut(s, p, q, mid), Pend(p, q), y)
  {
    var t, n := Cut(s, p, q, mid), s.nodes[p];
    var z := s.nodes[y].parent.value;
    if Some(y) in n.child[mid+1..] {
      assert Some(y) in n.child;
      ChildFacts(s, Normal, p, y);
      assert t.nodes[y].parent == Some(q);
    } else if z == p {
      assert n.child == n.child[..mid+1] + n.child[mid+1..];
      assert Some(y) in n.child[..mid+1];
    }
  }

  lemma CutRest(s: Shape, p: Id, q: Id, mid: nat)
    requires Base(s, Normal) && InnersOk(s, Normal) && ParentsOk(s, Normal) && ListsOk(s, Normal)
    requires p in s.nodes && s.nodes[p].Inner? && q !in s.nodes
    requires InnerOk(s, Normal, p) && 1 <= mid < |s.nodes[p].keys|
    requires Domains(Cut(s, p, q, mid), Pend(p, q))
    ensures InnersOk(Cut(s, p, q, mid), Pend(p, q))
    ensures ParentsOk(Cut(s, p, q, mid), Pend(p, q))
    ensures ListsOk(Cut(s, p, q, mid), Pend(p, q))
  {
    var t, m := Cut(s, p, q, mid), Pend(p, q);
    CutLeft(s, p, q, mid);
    CutRight(s, p, q, mid);
    forall x | x in t.nodes && t.nodes[x].Inner? && x != p && x != q ensures InnerOk(t, m, x) {
      CutInner(s, p, q, mid, x);
    }
    forall y | y in t.nodes && y != t.root && !Orphan(m, y) ensures ParentOk(t, m, y) {
      assert ParentOk(s, Normal, y);
      CutParent(s, p, q, mid, y);
    }
    CutLists(s, p, q, mid);
  }

  lemma CutLists(s: Shape, p: Id, q: Id, mid: nat)
    requires Domains(s, Normal) && ListsOk(s, Normal)
    requires p in s.nodes && s.nodes[p].Inner? && q !in s.nodes
    requires 1 <= mid < |s.nodes[p].keys| && |s.nodes[p].child| == |s.nodes[p].keys| + 1
    requires Domains(Cut(s, p, q, mid), Pend(p, q))
    ensures ListsOk(Cut(s, p, q, mid), Pend(p, q))
  {
    var t, m := Cut(s, p, q, mid), Pend(p, q);
    forall l | l in t.nodes && t.nodes[l].Leaf? ensures ListOk(t, m, l) {
      assert ListOk(s, Normal, l);
    }
  }
}
