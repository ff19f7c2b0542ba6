module LayerRemoval {
  import opened Options
  import opened PermSpec
  import opened LayerModel
  import opened LayerGrow
  import opened LayerShrink
  import opened LayerLeaf
  import opened LayerSplit

  function Renamed(nodes: Nodes, vs: set<Id>, b: nat, v: nat): Nodes {
    map x | x in nodes :: if x in vs then RenNode(nodes[x], b, v) else nodes[x]
  }

  // every ancestor-or-self of p that starts at p's lower bound has its parent in vs
  ghost predicate Covered(s: Shape, m: Mode, p: Id, n: Option<Id>, vs: set<Id>)
    requires Struct(s, m) && NoOrphan(m) && p in s.nodes
  {
    forall y {:trigger Above(s, m, y, p)} :: y in s.nodes && s.lo[y] == s.lo[p] && Above(s, m, y, p) ==>
      (s.nodes[y].parent.Some? && s.nodes[y].parent.value in vs)
        || (n.Some? && n.value in s.nodes && Above(s, m, y, n.value))
  }

  lemma RenamedFacts(nodes: Nodes, vs: set<Id>, b: nat, v: nat)
    ensures Renamed(nodes, {}, b, v) == nodes
    ensures forall x :: x in nodes ==> Renamed(nodes, vs, b, v)[x].parent == nodes[x].parent
    ensures forall x :: x in nodes && x !in vs ==> Renamed(nodes, vs, b, v)[x] == nodes[x]
    ensures Renamed(nodes, vs, b, v).Keys == nodes.Keys
  { assert Renamed(nodes, {}, b, v).Keys == nodes.Keys; }

  lemma RenamedStep(nodes: Nodes, vs: set<Id>, b: nat, v: nat, q: Id)
    requires q in nodes && q !in vs
    ensures Renamed(nodes, vs + {q}, b, v) == Renamed(nodes, vs, b, v)[q := RenNode(nodes[q], b, v)]
  {
    var l, r := Renamed(nodes, vs + {q}, b, v), Renamed(nodes, vs, b, v)[q := RenNode(nodes[q], b, v)];
    assert l.Keys == r.Keys;
    assert forall x :: x in l ==> l[x] == r[x];
  }

  lemma CoverStart(s: Shape, m: Mode, p: Id)
    requires Struct(s, m) && NoOrphan(m) && p in s.nodes
    ensures Covered(s, m, p, Some(p), {})
  { }

  lemma CoverStep(s: Shape, m: Mode, p: Id, n: Id, vs: set<Id>)
    requires Struct(s, m) && NoOrphan(m) && p in s.nodes && n in s.nodes && n != s.root && Covered(s, m, p, Some(n), vs)
    requires s.nodes[n].parent.Some?
    ensures Covered(s, m, p, s.nodes[n].parent, vs + {s.nodes[n].parent.value})
  {
    Up(s, m, n);
  }

  lemma CoverDone(s: Shape, m: Mode, p: Id, n: Id, vs: set<Id>)
    requires Struct(s, m) && NoOrphan(m) && p in s.nodes && n in s.nodes && s.lo[n] < s.lo[p]
      && Covered(s, m, p, Some(n), vs)
    ensures Covered(s, m, p, None, vs)
  {
    forall y {:trigger Above(s, m, y, p)} | y in s.nodes && s.lo[y] == s.lo[p] && Above(s, m, y, p)
      ensures s.nodes[y].parent.Some? && s.nodes[y].parent.value in vs
    {
      if Above(s, m, y, n) { AboveFacts(s, m, y, n); }
    }
  }

  lemma RenamedId(nodes: Nodes, vs: set<Id>, b: nat)
    ensures Renamed(nodes, vs, b, b) == nodes
  {
    forall x | x in nodes ensures Renamed(nodes, vs, b, b)[x] == nodes[x] {
      if nodes[x].Inner? { assert RenKeys(nodes[x].keys, b, b) == nodes[x].keys; }
    }
    assert Renamed(nodes, vs, b, b).Keys == nodes.Keys;
  }

  // the stores of one round of remove_leaf, redirect included, close the gap
  lemma CloseResult(s: Shape, n: Id, p: Id, kp: nat, vs: set<Id>)
    requires CanClose(s, n, p, kp) && p !in vs
    requires if s.lo[p] == s.lo[n] then Covered(s, Hole(n, None), p, None, vs) else vs == {}
    ensures Renamed(s.nodes[p := Without(s.nodes[p], kp)] - {n}, vs, s.lo[n], s.hi[n]) == Closed(s, n, p, kp).nodes
  {
    hide InnersOk; hide ParentsOk; hide ListsOk; hide ModeOk;
    var b, b' := s.lo[n], s.hi[n];
    var l, r := Renamed(s.nodes[p := Without(s.nodes[p], kp)] - {n}, vs, b, b'), Closed(s, n, p, kp).nodes;
    assert l.Keys == r.Keys;
    CloseAtKeys(s, n, p, kp);
    forall x | x in l ensures l[x] == r[x] {
      if x != p && x !in vs && s.nodes[x].Inner? {
        if b in s.nodes[x].keys {
          RedirectAll(s, n, p, kp, x);
          assert false;
        }
        RenKeysId(s.nodes[x].keys, b, b');
      }
    }
  }

  lemma RenKeysId(keys: seq<nat>, b: nat, b': nat)
    requires b !in keys
    ensures RenKeys(keys, b, b') == keys
  { }

  // the parent of the node being taken out, and where it stands there
  lemma HoleParent(s: Shape, n: Id, r: Option<Id>, ikey: nat)
    requires Struct(s, Hole(n, r)) && s.lo[n] <= ikey < s.hi[n]
    ensures s.nodes[n].parent.Some? && s.nodes[n].parent.value in s.nodes && n != s.root
    ensures var p := s.nodes[n].parent.value;
      && p != n && s.nodes[p].Inner? && |s.nodes[p].child| == |s.nodes[p].keys| + 1
      && Height(s.nodes[n]) < Height(s.nodes[p])
      && s.lo[p] <= ikey < s.hi[p] && ParentAt(s, n, p, Upper(s.nodes[p].keys, ikey))
      && (r.Some? ==> r.value != p && r.value != n)
  {
    var m := Hole(n, r);
    assert ParentOk(s, m, n);
    var p := s.nodes[n].parent.value;
    var j :| 0 <= j < |s.nodes[p].child| && s.nodes[p].child[j] == Some(n);
    assert InnerOk(s, m, p) && ChildOk(s, m, p, j);
    UpperIs(s.nodes[p].keys, ikey, j);
    var q := s.nodes[p];
    if j > 0 { assert s.lo[p] <= q.keys[0] <= q.keys[j-1]; }
    if j < |q.keys| { assert q.keys[j] <= q.keys[|q.keys|-1]; }
  }

  // the shape after one round of remove_leaf
  ghost predicate Emptied(s: Shape, p: Id, kp: nat)
    requires p in s.nodes && s.nodes[p].Inner? && kp < |s.nodes[p].child| == |s.nodes[p].keys| + 1
  {
    Without(s.nodes[p], kp).keys == [] && Without(s.nodes[p], kp).child[0].None?
  }

  ghost function After(s: Shape, n: Id, repl: Option<Id>, p: Id, kp: nat): Shape
    requires n in s.lo && n in s.hi && p in s.nodes && s.nodes[p].Inner?
      && kp < |s.nodes[p].child| == |s.nodes[p].keys| + 1
    requires repl.Some? ==> repl.value in s.nodes
  {
    if repl.Some? then Replaced(s, n, repl.value, p, kp)
    else if Emptied(s, p, kp) then var d := Drop(s, n); d.(nodes := d.nodes[p := Without(s.nodes[p], kp)])
    else Closed(s, n, p, kp)
  }

  ghost predicate NeedsRedirect(q: Node, kp: nat)
    requires q.Inner?
  { kp <= 1 && |q.keys| > 0 && |q.child| > 0 && q.child[0].None? }

  lemma AfterStores(s: Shape, n: Id, repl: Option<Id>, p: Id, kp: nat, ikey: nat, q: Node, nodes: Nodes)
    requires Struct(s, Hole(n, repl)) && ParentAt(s, n, p, kp) && p != n && |s.nodes[p].child| == |s.nodes[p].keys| + 1
    requires s.lo[p] <= ikey < s.hi[p] && (repl.Some? ==> repl.value != p && repl.value != n)
    requires q == if repl.Some? then s.nodes[p].(child := s.nodes[p].child[kp := repl]) else Without(s.nodes[p], kp)
    requires repl.Some? ==> nodes == s.nodes[repl.value := s.nodes[repl.value].(parent := Some(p))][p := q] - {n}
    requires repl.None? ==> nodes == s.nodes[p := q] - {n}
    ensures repl.Some? ==> nodes == After(s, n, repl, p, kp).nodes && Struct(After(s, n, repl, p, kp), Normal)
    ensures repl.Some? && NeedsRedirect(q, kp) ==> var t := After(s, n, repl, p, kp);
      p in t.nodes && t.lo[p] == q.keys[0] > 0
    ensures repl.None? && Emptied(s, p, kp) ==> nodes == After(s, n, repl, p, kp).nodes && !NeedsRedirect(q, kp)
    ensures repl.None? && !Emptied(s, p, kp) ==> CanClose(s, n, p, kp) && (NeedsRedirect(q, kp) <==> s.lo[p] == s.lo[n])
    ensures repl.None? && NeedsRedirect(q, kp) ==> q.keys[0] == s.hi[n] && s.lo[n] > 0
  {
    hide InnersOk; hide ParentsOk; hide ListsOk;
    if repl.Some? {
      Replace(s, n, repl.value, p, kp);
      var t := After(s, n, repl, p, kp);
      NullFirst(t, p);
    } else {
      if !Emptied(s, p, kp) { AtParent(s, n, p, kp); }
    }
  }

  lemma NullFirst(t: Shape, p: Id)
    requires Struct(t, Normal) && p in t.nodes && t.nodes[p].Inner?
    ensures |t.nodes[p].child| > 0
      && (t.nodes[p].child[0].None? ==> |t.nodes[p].keys| > 0 && t.nodes[p].keys[0] == t.lo[p] > 0)
  { assert InnerOk(t, Normal, p); }

  // t has s's leaves but for n; when n's range [lo[n], hi[n]) was given away, the leaf that ended where it began ends
  // where it ended
  ghost predicate LeavesClosed(s: Shape, t: Shape, n: Id, closed: bool)
    requires s.nodes.Keys == s.lo.Keys == s.hi.Keys && t.nodes.Keys == t.lo.Keys == t.hi.Keys && n in s.nodes
  {
    && n !in t.nodes
    && (forall x :: x in s.nodes && s.nodes[x].Leaf? && x != n ==>
          && x in t.nodes && SameSlots(s.nodes[x], t.nodes[x])
          && t.lo[x] == (if closed then Ren(s.lo[x], s.lo[n], s.hi[n]) else s.lo[x])
          && t.hi[x] == (if closed then Ren(s.hi[x], s.lo[n], s.hi[n]) else s.hi[x]))
    && (forall x :: x in t.nodes && t.nodes[x].Leaf? ==> x in s.nodes && s.nodes[x].Leaf?)
  }

  ghost predicate Frees(s: Shape, repl: Option<Id>, p: Id, kp: nat)
    requires p in s.nodes && s.nodes[p].Inner? && kp < |s.nodes[p].child| == |s.nodes[p].keys| + 1
  { repl.None? && !Emptied(s, p, kp) }

  lemma AfterStruct(s: Shape, n: Id, repl: Option<Id>, p: Id, kp: nat, ikey: nat)
    requires Struct(s, Hole(n, repl)) && ParentAt(s, n, p, kp) && p != n && |s.nodes[p].child| == |s.nodes[p].keys| + 1
    requires s.lo[p] <= ikey < s.hi[p] && (repl.Some? ==> repl.value != p && repl.value != n)
    ensures var t := After(s, n, repl, p, kp);
      && Struct(t, if repl.None? && Emptied(s, p, kp) then Hole(p, None) else Normal)
      && (repl.None? && Emptied(s, p, kp) ==>
        t.lo[p] == s.lo[n] && t.hi[p] == s.hi[n] && p != t.root && |t.nodes[p].keys| == 0 && t.nodes[p].child == [None])
      && (|t.nodes[p].keys| == 0 ==> t.lo[p] <= ikey < t.hi[p])
  {
    hide InnersOk; hide ParentsOk; hide ListsOk; hide ModeOk; hide Ascending;
    var q := if repl.Some? then s.nodes[p].(child := s.nodes[p].child[kp := repl]) else Without(s.nodes[p], kp);
    var nodes := if repl.Some? then s.nodes[repl.value := s.nodes[repl.value].(parent := Some(p))][p := q] - {n}
      else s.nodes[p := q] - {n};
    AfterStores(s, n, repl, p, kp, ikey, q, nodes);
    if repl.None? {
      if Emptied(s, p, kp) { Cascade(s, n, p, kp); } else { Close(s, n, p, kp); ClosedAt(s, n, p, kp, ikey); }
    }
  }

  // t has no internode without separators that s does not have, the root and a dead one apart
  ghost predicate NoNewStubs(s: Nodes, t: Nodes, root: Id, hole: Option<Id>) {
    forall x :: x in t && t[x].Inner? && |t[x].keys| == 0 && x != root && hole != Some(x) ==>
      x in s && s[x].Inner? && |s[x].keys| == 0
  }

  lemma AfterStubs(s: Shape, n: Id, repl: Option<Id>, p: Id, kp: nat)
    requires s.nodes.Keys == s.lo.Keys == s.hi.Keys && n in s.nodes && n != p
    requires p in s.nodes && s.nodes[p].Inner? && kp < |s.nodes[p].child| == |s.nodes[p].keys| + 1
    requires repl.Some? ==> repl.value in s.nodes && repl.value != p
    ensures var t := After(s, n, repl, p, kp); NoNewStubs(s.nodes, t.nodes, t.root, Some(p))
  { }

  lemma StubsTrans(s: Nodes, t: Nodes, u: Nodes, root: Id, n: Id, hole: Option<Id>)
    requires NoNewStubs(s, t, root, Some(n)) && NoNewStubs(t, u, root, hole) && n !in u
    ensures NoNewStubs(s, u, root, hole)
  { }

  lemma StubDetached(s: Nodes, t: Nodes, u: Nodes, root: Id, p: Id, hole: Option<Id>)
    requires NoNewStubs(s, t, root, Some(p)) && p in u && u.Keys == t.Keys
      && forall x :: x in t && x != p ==> u[x] == t[x]
    requires hole == Some(p) || p == root || u[p].Leaf? || |u[p].keys| > 0
    ensures NoNewStubs(s, u, root, hole)
  { }

  lemma UnlinkStubs(s: Nodes, t: Nodes, root: Id, d: Id)
    requires t.Keys == s.Keys && forall x :: x in s && (s[x].Inner? || t[x].Inner?) ==> t[x] == s[x]
    ensures NoNewStubs(s, t, root, Some(d))
  { }

  lemma SameStubs(s: Nodes, t: Nodes, root: Id)
    requires t.Keys == s.Keys && forall x :: x in s && (s[x].Inner? || t[x].Inner?) ==> t[x] == s[x]
    ensures NoNewStubs(s, t, root, None)
  { }

  // what does not depend on where n stood
  ghost predicate Shrunk(s: Shape, t: Shape, n: Id, iw: nat, closed: bool)
    requires s.nodes.Keys == s.lo.Keys == s.hi.Keys && n in s.nodes
  {
    && t.nodes.Keys == s.nodes.Keys - {n} && t.lo.Keys == t.nodes.Keys && t.hi.Keys == t.nodes.Keys && t.root == s.root
    && (forall x :: x in t.nodes ==> t.nodes[x].Leaf? == s.nodes[x].Leaf?)
    && (forall x :: x in t.nodes ==> Height(t.nodes[x]) == Height(s.nodes[x]))
    && WidthsOk(iw, t.nodes) && LeavesClosed(s, t, n, closed)
  }

  lemma ClosedShrunk(s: Shape, n: Id, p: Id, kp: nat, iw: nat)
    requires s.nodes.Keys == s.lo.Keys == s.hi.Keys && s.root in s.nodes && n in s.nodes && n != s.root && n != p
    requires p in s.nodes && s.nodes[p].Inner? && kp < |s.nodes[p].child| == |s.nodes[p].keys| + 1
      && WidthsOk(iw, s.nodes)
    ensures Shrunk(s, Closed(s, n, p, kp), n, iw, true)
  {
    var t := Closed(s, n, p, kp);
    assert t.nodes.Keys == s.nodes.Keys - {n} && t.lo.Keys == t.nodes.Keys && t.hi.Keys == t.nodes.Keys;
    forall x | x in t.nodes && t.nodes[x].Inner? ensures |t.nodes[x].keys| <= iw {
      assert |s.nodes[x].keys| <= iw;
    }
  }

  lemma OneShrunk(s: Shape, n: Id, p: Id, q: Node, iw: nat)
    requires s.nodes.Keys == s.lo.Keys == s.hi.Keys && s.root in s.nodes && n in s.nodes && n != s.root && n != p
    requires p in s.nodes && s.nodes[p].Inner? && WidthsOk(iw, s.nodes)
    requires q.Inner? && q.height == s.nodes[p].height && |q.keys| <= |s.nodes[p].keys|
    ensures var d := Drop(s, n); Shrunk(s, d.(nodes := d.nodes[p := q]), n, iw, false)
  {
    var d := Drop(s, n);
    assert d.nodes.Keys == s.nodes.Keys - {n} && d.lo.Keys == d.nodes.Keys && d.hi.Keys == d.nodes.Keys;
    assert d.nodes[p := q].Keys == d.nodes.Keys;
  }

  lemma ReplacedShrunk(s: Shape, n: Id, r: Id, p: Id, kp: nat, iw: nat)
    requires s.nodes.Keys == s.lo.Keys == s.hi.Keys && s.root in s.nodes && n in s.nodes && n != s.root && n != p
    requires p in s.nodes && s.nodes[p].Inner? && kp < |s.nodes[p].child| && WidthsOk(iw, s.nodes)
    requires r in s.nodes && r != n && r != p
    ensures Shrunk(s, Replaced(s, n, r, p, kp), n, iw, false)
  {
    var t := Replaced(s, n, r, p, kp);
    assert t.nodes.Keys == s.nodes.Keys - {n} && t.lo.Keys == t.nodes.Keys && t.hi.Keys == t.nodes.Keys;
  }

  lemma AfterFacts(s: Shape, n: Id, repl: Option<Id>, p: Id, kp: nat, iw: nat, next: Id)
    requires s.nodes.Keys == s.lo.Keys == s.hi.Keys && s.root in s.nodes && n in s.nodes && n != s.root && n != p
    requires p in s.nodes && s.nodes[p].Inner? && kp < |s.nodes[p].child| == |s.nodes[p].keys| + 1
    requires repl.Some? ==> repl.value in s.nodes && repl.value != n && repl.value != p
    requires WidthsOk(iw, s.nodes) && IdsOk(s.nodes, next)
    ensures Shrunk(s, After(s, n, repl, p, kp), n, iw, Frees(s, repl, p, kp))
      && IdsOk(After(s, n, repl, p, kp).nodes, next)
  {
    hide WidthsOk; hide LeavesClosed; hide Replaced; hide Closed; hide Drop;
    if repl.Some? { ReplacedShrunk(s, n, repl.value, p, kp, iw); }
    else if Emptied(s, p, kp) { OneShrunk(s, n, p, Without(s.nodes[p], kp), iw); }
    else { ClosedShrunk(s, n, p, kp, iw); }
  }

  lemma LeavesClosedInner(s: Shape, t: Shape, u: Shape, n: Id, closed: bool, p: Id)
    requires s.nodes.Keys == s.lo.Keys == s.hi.Keys && t.nodes.Keys == t.lo.Keys == t.hi.Keys && n in s.nodes
    requires LeavesClosed(s, t, n, closed) && p in t.nodes && t.nodes[p].Inner? && u.lo == t.lo && u.hi == t.hi
      && u.nodes.Keys == t.nodes.Keys
    requires u.nodes[p].Inner? && forall x :: x in t.nodes && x != p ==> u.nodes[x] == t.nodes[x]
    ensures LeavesClosed(s, u, n, closed)
  { }

  lemma ClosedAt(s: Shape, n: Id, p: Id, kp: nat, ikey: nat)
    requires CanClose(s, n, p, kp) && s.lo[p] <= ikey < s.hi[p]
    ensures var t := Closed(s, n, p, kp);
      p in t.nodes && p in t.lo && p in t.hi && t.nodes[p].Inner?
        && (|t.nodes[p].keys| == 0 ==> t.lo[p] <= ikey < t.hi[p])
  {
    AtParent(s, n, p, kp);
    CloseAtKeys(s, n, p, kp);
  }

  // t, reached from s0 while leaf d is being taken out and n is next to go: the other leaves are as they were, and once
  // d's range is given away the leaf before d reaches to where d ended
  ghost predicate Surviving(s0: Shape, t: Shape, d: Id, closed: bool)
    requires s0.nodes.Keys == s0.lo.Keys == s0.hi.Keys && t.nodes.Keys == t.lo.Keys == t.hi.Keys && d in s0.nodes
  {
    && (forall x :: x in s0.nodes && s0.nodes[x].Leaf? && x != d ==>
          && x in t.nodes && SlotsEq(s0.nodes[x], t.nodes[x]) && t.lo[x] == s0.lo[x]
          && t.hi[x] == (if closed then Ren(s0.hi[x], s0.lo[d], s0.hi[d]) else s0.hi[x]))
    && (forall x :: x in t.nodes && t.nodes[x].Leaf? && x != d ==> x in s0.nodes && s0.nodes[x].Leaf?)
  }

  lemma SurvivingStep(s0: Shape, s: Shape, t: Shape, d: Id, n: Id, c0: bool, closed: bool)
    requires s0.nodes.Keys == s0.lo.Keys == s0.hi.Keys && s.nodes.Keys == s.lo.Keys == s.hi.Keys
      && t.nodes.Keys == t.lo.Keys == t.hi.Keys
    requires d in s0.nodes && n in s.nodes && (n == d || (s.nodes[n].Inner? && d !in s.nodes))
    requires Surviving(s0, s, d, c0) && LeavesClosed(s, t, n, closed) && t.nodes.Keys <= s.nodes.Keys
    requires closed ==> !c0 && s.lo[n] == s0.lo[d] && s.hi[n] == s0.hi[d]
    requires forall x :: x in s0.nodes && s0.nodes[x].Leaf? && x != d ==> s0.lo[x] != s0.lo[d]
    ensures Surviving(s0, t, d, c0 || closed) && d !in t.nodes
  { }

  lemma UnlinkSurvives(s: Shape, d: Id)
    requires Struct(s, Normal) && d in s.nodes && s.nodes[d].Leaf? && s.nodes[d].prev.Some?
    ensures Unlink.requires(s.nodes, d)
    ensures var t := s.(nodes := Unlink(s.nodes, d));
      t.nodes.Keys == s.nodes.Keys && Surviving(s, t, d, false) && t.nodes[d].ikey == s.nodes[d].ikey
    ensures forall x :: x in s.nodes && s.nodes[x].Leaf? && x != d ==> s.lo[x] != s.lo[d]
    ensures forall x :: x in s.nodes ==> Height(Unlink(s.nodes, d)[x]) == Height(s.nodes[x])
    ensures forall x :: x in s.nodes && s.nodes[x].Inner? ==> Unlink(s.nodes, d)[x] == s.nodes[x]
  {
    Neighbours(s, d);
    forall x | x in s.nodes && s.nodes[x].Leaf? && x != d ensures s.lo[x] != s.lo[d] {
      if s.lo[x] == s.lo[d] { SameLo(s, x, d); }
    }
  }

  lemma SurvivorsOk(lw: nat, s: Shape, t: Shape, d: Id)
    requires s.nodes.Keys == s.lo.Keys == s.hi.Keys && t.nodes.Keys == t.lo.Keys == t.hi.Keys && d in s.nodes
      && s.nodes[d].Leaf?
    requires LeavesOk(lw, s) && Surviving(s, t, d, true) && d !in t.nodes && s.lo[d] < s.hi[d]
    requires Arrays(lw, s.nodes[d]) && Entries(lw, s.nodes[d]) == []
    ensures LeavesOk(lw, t)
    ensures forall kv :: Holds(lw, t.nodes, kv) <==> Holds(lw, s.nodes, kv)
  {
    forall x | x in t.nodes && t.nodes[x].Leaf? ensures LeafOk(lw, t.nodes[x], t.lo[x], t.hi[x]) {
      assert LeafOk(lw, s.nodes[x], s.lo[x], s.hi[x]);
      SameEntries(lw, s.nodes[x], t.nodes[x]);
    }
    forall kv ensures Holds(lw, t.nodes, kv) <==> Holds(lw, s.nodes, kv) {
      if Holds(lw, t.nodes, kv) {
        var x :| HoldsAt(lw, t.nodes, x, kv);
        assert LeafOk(lw, s.nodes[x], s.lo[x], s.hi[x]);
        SameEntries(lw, s.nodes[x], t.nodes[x]);
        assert HoldsAt(lw, s.nodes, x, kv);
      }
      if Holds(lw, s.nodes, kv) {
        var x :| HoldsAt(lw, s.nodes, x, kv);
        SameEntries(lw, s.nodes[x], t.nodes[x]);
        assert HoldsAt(lw, t.nodes, x, kv);
      }
    }
  }

  lemma OneLeafWidths(iw: nat, nodes: Nodes, next: Id, n: Id, leaf: Node)
    requires WidthsOk(iw, nodes) && IdsOk(nodes, next) && n in nodes && leaf.Leaf?
    ensures WidthsOk(iw, nodes[n := leaf]) && IdsOk(nodes[n := leaf], next)
  { }

  // a leaf with a predecessor that holds k and nothing else
  ghost predicate Alone(lw: nat, n: Node, k: LKey) {
    Arrays(lw, n) && n.prev.Some? && |Entries(lw, n)| == 1 && Entries(lw, n)[0].0 == k
  }

  lemma AloneHere(lw: nat, s: Shape, n: Id, k: LKey, i: nat, p: Option<nat>)
    requires Struct(s, Normal) && LeavesOk(lw, s) && n in s.nodes && s.nodes[n].Leaf? && s.lo[n] <= k.ikey < s.hi[n]
    requires LeafOk(lw, s.nodes[n], s.lo[n], s.hi[n]) && Found(lw, s.nodes[n], k, i, p)
    ensures forall x :: x in s.nodes && Alone(lw, s.nodes[x], k) ==> x == n && p.Some?
    ensures Alone(lw, s.nodes[n], k) <==> s.nodes[n].prev.Some? && p.Some? && s.nodes[n].perm.size == 1
  {
    forall x | x in s.nodes && Alone(lw, s.nodes[x], k) ensures x == n && p.Some? {
      var kv := Entries(lw, s.nodes[x])[0];
      assert kv == (k, kv.1) && kv in Entries(lw, s.nodes[x]);
      assert HoldsAt(lw, s.nodes, x, kv);
      OnlyLeaf(lw, s, n, x, kv);
      OneEntry(lw, s.nodes[n], k, i, p, kv.1);
    }
  }

  lemma SurvivorsNoEmpty(s: Shape, t: Shape, d: Id)
    requires s.nodes.Keys == s.lo.Keys == s.hi.Keys && t.nodes.Keys == t.lo.Keys == t.hi.Keys && d in s.nodes
    requires Surviving(s, t, d, true) && d !in t.nodes
    ensures NoEmpty(s.nodes, Some(d)) ==> NoEmpty(t.nodes, None)
    ensures forall x :: x in s.nodes && s.nodes[x].Leaf? && x != d ==> x in t.nodes
  { }

  lemma TakenNoEmpty(s: Nodes, n: Id, leaf: Node)
    requires n in s && s[n].Leaf? && leaf.Leaf? && leaf.prev == s[n].prev
    ensures NoEmpty(s, None) ==> NoEmpty(s[n := leaf], Some(n))
    ensures NoEmpty(s, None) && (leaf.perm.size > 0 || leaf.prev.None?) ==> NoEmpty(s[n := leaf], None)
  { }

  // entry i goes from leaf n
  lemma TakenOk(lw: nat, s: Shape, n: Id, k: LKey, i: nat, p: Option<nat>)
    requires Struct(s, Normal) && LeavesOk(lw, s) && n in s.nodes && s.nodes[n].Leaf? && s.lo[n] <= k.ikey < s.hi[n]
    requires LeafOk(lw, s.nodes[n], s.lo[n], s.hi[n]) && Found(lw, s.nodes[n], k, i, p) && p.Some?
    ensures var leaf := s.nodes[n].(perm := Remove(s.nodes[n].perm, i));
      var t := s.(nodes := s.nodes[n := leaf]);
      && Struct(t, Normal) && t.nodes.Keys == s.nodes.Keys && LeavesOk(lw, t) && LeafOk(lw, leaf, s.lo[n], s.hi[n])
      && |Entries(lw, leaf)| == leaf.perm.size
      && (forall kv :: Holds(lw, t.nodes, kv) <==> Holds(lw, s.nodes, kv) && kv.0 != k)
  {
    hide InnersOk; hide ParentsOk; hide ListsOk;
    var es := Entries(lw, s.nodes[n]);
    var leaf := s.nodes[n].(perm := Remove(s.nodes[n].perm, i));
    RemoveEntries(lw, s.nodes[n], i);
    OneLeaf(lw, s, n, leaf);
    var t := s.(nodes := s.nodes[n := leaf]);
    forall kv ensures Holds(lw, t.nodes, kv) <==> Holds(lw, s.nodes, kv) && kv.0 != k {
      CutMember(es, i, kv);
      if HoldsOff(lw, s.nodes, n, kv) && kv.0 == k {
        var x :| x != n && HoldsAt(lw, s.nodes, x, kv);
        OnlyLeaf(lw, s, n, x, kv);
      }
    }
  }

  lemma CutMember(es: seq<(LKey, Word)>, i: nat, kv: (LKey, Word))
    requires Sorted(es) && i < |es|
    ensures kv in es[..i] + es[i+1..] <==> kv in es && kv.0 != es[i].0
  {
    if kv in es && kv.0 != es[i].0 {
      var j :| 0 <= j < |es| && es[j] == kv;
      assert (es[..i] + es[i+1..])[if j < i then j else j - 1] == kv;
    }
  }

  // every ikey still reaches its leaf, or the predecessor of that leaf when the leaf is gone
  ghost predicate RoutesKept(s: Shape, t: Shape)
    requires Struct(s, Normal) && Struct(t, Normal)
  {
    forall x: nat :: x < TOP ==>
      var l := Route(s, s.root, x);
      if l in t.nodes then Route(t, t.root, x) == l else s.nodes[l].prev == Some(Route(t, t.root, x))
  }

  lemma SameRoutes(s: Shape, t: Shape)
    requires Struct(s, Normal) && Struct(t, Normal) && s.lo == t.lo && s.hi == t.hi
    requires forall x :: x in s.nodes ==> s.nodes[x].Leaf? == t.nodes[x].Leaf?
    ensures RoutesKept(s, t) && StartsKept(s, t)
  {
    forall x: nat | x < TOP ensures Route(t, t.root, x) == Route(s, s.root, x) {
      RouteUnique(t, Route(s, s.root, x), x);
    }
  }

  lemma SurvivorRoutes(s: Shape, t: Shape, d: Id)
    requires Struct(s, Normal) && Struct(t, Normal) && d in s.nodes && s.nodes[d].Leaf? && s.nodes[d].prev.Some?
    requires Surviving(s, t, d, true) && d !in t.nodes && t.nodes.Keys <= s.nodes.Keys
    ensures RoutesKept(s, t) && StartsKept(s, t)
  {
    Neighbours(s, d);
    forall x: nat | x < TOP
      ensures var l := Route(s, s.root, x);
        if l in t.nodes then Route(t, t.root, x) == l else s.nodes[l].prev == Some(Route(t, t.root, x))
    {
      var l := Route(s, s.root, x);
      RouteUnique(t, if l == d then s.nodes[d].prev.value else l, x);
    }
  }

  lemma RoutesTrans(s: Shape, n: Id, leaf: Node, u: Shape)
    requires Struct(s, Normal) && Struct(u, Normal) && n in s.nodes && s.nodes[n].Leaf? && leaf.Leaf?
      && leaf.prev == s.nodes[n].prev
    requires Struct(s.(nodes := s.nodes[n := leaf]), Normal)
    requires RoutesKept(s.(nodes := s.nodes[n := leaf]), u) && StartsKept(s.(nodes := s.nodes[n := leaf]), u)
    ensures RoutesKept(s, u) && StartsKept(s, u)
  {
    var t := s.(nodes := s.nodes[n := leaf]);
    forall x: nat | x < TOP ensures Route(t, t.root, x) == Route(s, s.root, x) {
      RouteUnique(t, Route(s, s.root, x), x);
    }
  }
}
