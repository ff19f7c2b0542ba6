module LayerSplit {
  import opened Options
  import opened PermSpec
  import opened LayerModel
  import opened LayerGrow
  import opened LayerLeaf

  ghost predicate LeavesOk(lw: nat, s: Shape)
    requires s.nodes.Keys == s.lo.Keys == s.hi.Keys
  {
    forall x {:trigger LeafOk(lw, s.nodes[x], s.lo[x], s.hi[x])} :: x in s.nodes && s.nodes[x].Leaf? ==>
      LeafOk(lw, s.nodes[x], s.lo[x], s.hi[x])
  }

  ghost predicate WidthsOk(iw: nat, nodes: Nodes) {
    forall x :: x in nodes && nodes[x].Inner? ==> |nodes[x].keys| <= iw
  }

  ghost predicate IdsOk(nodes: Nodes, next: Id) { forall x :: x in nodes ==> x < next }

  ghost predicate HoldsAt(lw: nat, nodes: Nodes, x: Id, kv: (LKey, Word)) {
    x in nodes && Arrays(lw, nodes[x]) && kv in Entries(lw, nodes[x])
  }

  ghost predicate Holds(lw: nat, nodes: Nodes, kv: (LKey, Word)) {
    exists x :: HoldsAt(lw, nodes, x, kv)
  }

  // leaves keep their slots and links; only internodes are new
  ghost predicate SameSlots(a: Node, b: Node) {
    a.Leaf? && b.Leaf? && a.perm == b.perm && a.ikey == b.ikey && a.len == b.len && a.lv == b.lv && a.prev == b.prev
      && a.next == b.next
  }

  ghost predicate LeavesKept(s: Shape, t: Shape)
    requires s.nodes.Keys == s.lo.Keys == s.hi.Keys && t.nodes.Keys == t.lo.Keys == t.hi.Keys
  {
    && (forall x :: x in s.nodes && s.nodes[x].Leaf? ==>
      x in t.nodes && SameSlots(s.nodes[x], t.nodes[x]) && t.lo[x] == s.lo[x] && t.hi[x] == s.hi[x])
    && (forall x :: x in t.nodes && t.nodes[x].Leaf? ==> x in s.nodes && s.nodes[x].Leaf?)
  }

  // a leaf that both trees have begins at the same ikey in both
  ghost predicate StartsKept(s: Shape, t: Shape)
    requires s.nodes.Keys == s.lo.Keys == s.hi.Keys && t.nodes.Keys == t.lo.Keys == t.hi.Keys
  {
    forall x :: x in t.nodes && x in s.nodes && t.nodes[x].Leaf? ==> s.nodes[x].Leaf? && t.lo[x] == s.lo[x]
  }

  // slots and permutation of a leaf may change freely as far as the tree shape is concerned
  lemma Refill(s: Shape, m: Mode, n: Id, leaf: Node)
    requires Struct(s, m) && !m.Hole? && n in s.nodes && s.nodes[n].Leaf? && leaf.Leaf?
    requires leaf.prev == s.nodes[n].prev && leaf.next == s.nodes[n].next && leaf.parent == s.nodes[n].parent
    ensures Struct(s.(nodes := s.nodes[n := leaf]), m)
  {
    var t := s.(nodes := s.nodes[n := leaf]);
    assert t.nodes.Keys == s.nodes.Keys;
    RefillTree(s, m, n, leaf);
    ListsFrame(s, m, t, m);
  }

  lemma RefillTree(s: Shape, m: Mode, n: Id, leaf: Node)
    requires Domains(s, m) && !m.Hole? && InnersOk(s, m) && ParentsOk(s, m)
    requires n in s.nodes && s.nodes[n].Leaf? && leaf.Leaf? && leaf.parent == s.nodes[n].parent
    requires Domains(s.(nodes := s.nodes[n := leaf]), m)
    ensures InnersOk(s.(nodes := s.nodes[n := leaf]), m)
    ensures ParentsOk(s.(nodes := s.nodes[n := leaf]), m)
  {
    var t := s.(nodes := s.nodes[n := leaf]);
    forall p | p in t.nodes && t.nodes[p].Inner? ensures InnerOk(t, m, p) {
      assert InnerOk(s, m, p);
      forall c | Some(c) in s.nodes[p].child
        ensures c in s.nodes && c != s.root && !Orphan(m, c) && s.nodes[c].parent == Some(p) {
        ChildFacts(s, m, p, c);
      }
      InnerFrame(s, m, t, m, p);
    }
    forall y | y in t.nodes && y != t.root && !Orphan(m, y) ensures ParentOk(t, m, y) {
      assert ParentOk(s, m, y);
    }
  }

  // ---------- what one round of the climb keeps ----------
  lemma NewRootKeeps(s: Shape, n: Id, c: Id, nn: Id, iw: nat)
    requires Base(s, Pend(n, c)) && nn !in s.nodes && WidthsOk(iw, s.nodes) && iw >= 1 && IdsOk(s.nodes, nn)
    ensures var t := NewRoot(s, n, c, nn);
      t.nodes.Keys == t.lo.Keys == t.hi.Keys && LeavesKept(s, t) && WidthsOk(iw, t.nodes) && IdsOk(t.nodes, nn + 1)
  { assert NewRoot(s, n, c, nn).nodes.Keys == s.nodes.Keys + {nn}; }

  lemma InterposeKeeps(s: Shape, n: Id, c: Id, p: Id, kp: nat, nn: Id, iw: nat)
    requires Base(s, Pend(n, c)) && nn !in s.nodes && WidthsOk(iw, s.nodes) && iw >= 1 && IdsOk(s.nodes, nn)
      && ParentAt(s, n, p, kp)
    ensures var t := Interpose(s, n, c, p, kp, nn);
      t.nodes.Keys == t.lo.Keys == t.hi.Keys && LeavesKept(s, t) && WidthsOk(iw, t.nodes) && IdsOk(t.nodes, nn + 1)
  { assert Interpose(s, n, c, p, kp, nn).nodes.Keys == s.nodes.Keys + {nn}; }

  lemma AttachKeeps(s: Shape, n: Id, c: Id, p: Id, kp: nat, iw: nat)
    requires Base(s, Pend(n, c)) && WidthsOk(iw, s.nodes) && ParentAt(s, n, p, kp) && kp <= |s.nodes[p].keys| && p != c
    ensures var t := Attach(s, c, p, kp);
      && t.nodes.Keys == s.nodes.Keys && LeavesKept(s, t)
      && |t.nodes[p].keys| == |s.nodes[p].keys| + 1
      && (forall x :: x in t.nodes && x != p && t.nodes[x].Inner? ==> |t.nodes[x].keys| <= iw)
      && (forall x :: x in s.nodes ==> Height(t.nodes[x]) == Height(s.nodes[x]))
      && |s.nodes[p].keys| <= iw
  { }

  lemma CutKeeps(s: Shape, p: Id, q: Id, mid: nat, iw: nat)
    requires s.nodes.Keys == s.lo.Keys == s.hi.Keys && q !in s.nodes && IdsOk(s.nodes, q)
    requires p in s.nodes && s.nodes[p].Inner? && 1 <= mid < |s.nodes[p].keys|
      && |s.nodes[p].child| == |s.nodes[p].keys| + 1
    requires |s.nodes[p].keys| <= iw + 1
      && forall x :: x in s.nodes && x != p && s.nodes[x].Inner? ==> |s.nodes[x].keys| <= iw
    ensures var t := Cut(s, p, q, mid);
      && t.nodes.Keys == t.lo.Keys == t.hi.Keys && LeavesKept(s, t) && WidthsOk(iw, t.nodes) && IdsOk(t.nodes, q + 1)
      && (forall x :: x in s.nodes ==> Height(t.nodes[x]) == Height(s.nodes[x]))
  { assert Cut(s, p, q, mid).nodes.Keys == s.nodes.Keys + {q}; }

  lemma KeptTrans(s: Shape, t: Shape, u: Shape)
    requires s.nodes.Keys == s.lo.Keys == s.hi.Keys && t.nodes.Keys == t.lo.Keys == t.hi.Keys
      && u.nodes.Keys == u.lo.Keys == u.hi.Keys
    requires LeavesKept(s, t) && LeavesKept(t, u)
    ensures LeavesKept(s, u)
  { }

  // ---------- cutting a full internode while inserting ----------
  // shift_up and assign: child c and its separator x go in right of child kp
  function WithChild(n: Node, kp: nat, x: nat, c: Id): Node
    requires n.Inner? && kp <= |n.keys| && kp < |n.child|
  {
    n.(keys := n.keys[..kp] + [x] + n.keys[kp..], child := n.child[..kp+1] + [Some(c)] + n.child[kp+1..])
  }

  // cutting a sequence that got a new element at place p
  lemma Spliced<T>(s: seq<T>, p: nat, x: T, m: nat)
    requires p <= |s| && m <= |s| + 1
    ensures var a := s[..p] + [x] + s[p..];
      && (m <= p ==> a[..m] == s[..m] && a[m..] == s[m..p] + [x] + s[p..])
      && (m > p ==> a[..m] == s[..p] + [x] + s[p..m - 1] && a[m..] == s[m - 1..])
      && (m < p ==> a[m] == s[m]) && (m == p ==> a[m] == x) && (p < m <= |s| ==> a[m] == s[m - 1])
  { }

  lemma HeadOf<T>(s: seq<T>, i: nat, j: nat)
    requires i < j <= |s|
    ensures [s[i]] + s[i + 1..j] == s[i..j]
  { }

  lemma TakeThen<T>(s: seq<T>, i: nat, j: nat)
    requires i <= j <= |s|
    ensures s[..j][..i] == s[..i] && s[..j][i..] == s[i..j]
  { }

  // The three cases of internode::split_into. The left part l has the new child only when kp >= mid
  // puts it there; otherwise the caller inserts it.
  method SplitPieces(n: Node, kp: nat, x: nat, c: Id, mid: nat) returns (right: Node, splitIkey: nat, l: Node)
    requires n.Inner? && |n.child| == |n.keys| + 1 && kp <= |n.keys| && 1 <= mid <= |n.keys|
    ensures var a := WithChild(n, kp, x, c);
      && right == Inner(n.height, a.keys[mid+1..], a.child[mid+1..], None) && splitIkey == a.keys[mid]
      && l.Inner?
      && (kp < mid ==>
        kp <= |l.keys| && kp < |l.child|
        && WithChild(l, kp, x, c) == n.(keys := a.keys[..mid], child := a.child[..mid+1]))
      && (kp >= mid ==> l == n.(keys := a.keys[..mid], child := a.child[..mid+1]))
  {
    var rkeys, rchild;
    Spliced(n.keys, kp, x, mid);
    Spliced(n.keys, kp, x, mid + 1);
    Spliced(n.child, kp + 1, Some(c), mid + 1);
    if kp < mid {
      HeadOf(n.child, mid, |n.child|);
      TakeThen(n.keys, kp, mid - 1);
      TakeThen(n.child, kp + 1, mid);
      rkeys, rchild := n.keys[mid..], [n.child[mid]] + n.child[mid+1..];
      splitIkey := n.keys[mid - 1];
      l := n.(keys := n.keys[..mid-1], child := n.child[..mid]);
    } else if kp == mid {
      assert n.child[mid + 1..mid + 1] == [];
      rkeys, rchild := n.keys[mid..], [Some(c)] + n.child[mid+1..];
      splitIkey := x;
      l := n.(keys := n.keys[..mid], child := n.child[..mid+1]);
    } else {
      HeadOf(n.child, mid + 1, kp + 1);
      rkeys := n.keys[mid+1..kp] + [x] + n.keys[kp..];
      rchild := [n.child[mid+1]] + n.child[mid+2..kp+1] + [Some(c)] + n.child[kp+1..];
      splitIkey := n.keys[mid];
      l := n.(keys := n.keys[..mid], child := n.child[..mid+1]);
    }
    right := Inner(n.height, rkeys, rchild, None);
  }

  ghost predicate InnerSplitPre(s: Shape, c: Id, p: Id, kp: nat, q: Id, mid: nat) {
    && c in s.nodes && c in s.lo && p in s.nodes && p in s.hi && s.nodes[p].Inner? && p != c && q !in s.nodes
    && |s.nodes[p].child| == |s.nodes[p].keys| + 1 && kp <= |s.nodes[p].keys| && 1 <= mid <= |s.nodes[p].keys|
    && Some(p) !in s.nodes[p].child && Some(c) !in s.nodes[p].child && Some(q) !in s.nodes[p].child
  }

  lemma RightChildren(s: Shape, c: Id, p: Id, kp: nat, q: Id, mid: nat, x: Option<Id>)
    requires InnerSplitPre(s, c, p, kp, q, mid)
    ensures var d := Attach(s, c, p, kp).nodes[p].child[mid+1..];
      && (x in d ==> x == Some(c) || x in s.nodes[p].child)
      && (x == Some(c) ==> (x in d <==> kp >= mid))
  {
    var a := Attach(s, c, p, kp).nodes[p].child;
    assert forall i :: 0 <= i < |a| ==>
      a[i] == (if i <= kp then s.nodes[p].child[i] else if i == kp + 1 then Some(c) else s.nodes[p].child[i-1]);
    if kp >= mid { assert a[mid+1..][kp - mid] == Some(c); }
  }

  // what split_into stores, against "attach, then cut"
  lemma SplitResult(s: Shape, c: Id, p: Id, kp: nat, q: Id, mid: nat, right: Node, left: Node)
    requires InnerSplitPre(s, c, p, kp, q, mid)
    requires var a := Attach(s, c, p, kp).nodes[p];
      right == Inner(a.height, a.keys[mid+1..], a.child[mid+1..], None)
        && left == s.nodes[p].(keys := a.keys[..mid], child := a.child[..mid+1])
    ensures var base := SetParents(s.nodes[q := right], right.child, q);
      && (kp >= mid ==> Cut(Attach(s, c, p, kp), p, q, mid).nodes == base[p := left])
      && (kp < mid ==> Cut(Attach(s, c, p, kp), p, q, mid).nodes == base[p := left][c := base[c].(parent := Some(p))])
  {
    var base := SetParents(s.nodes[q := right], right.child, q);
    var t := Cut(Attach(s, c, p, kp), p, q, mid).nodes;
    RightChildren(s, c, p, kp, q, mid, Some(c));
    RightChildren(s, c, p, kp, q, mid, Some(q));
    var b := if kp >= mid then base[p := left] else base[p := left][c := base[c].(parent := Some(p))];
    assert t.Keys == b.Keys;
    forall x | x in t ensures t[x] == b[x] {
    }
  }

  // ---------- the two halves of a leaf ----------
  ghost predicate SlotsEq(a: Node, b: Node) {
    a.Leaf? && b.Leaf? && a.perm == b.perm && a.ikey == b.ikey && a.len == b.len && a.lv == b.lv
      && a.prev.Some? == b.prev.Some?
  }

  // t has s's leaves, but for n, whose entries are now spread over n and nr
  ghost predicate Spread(lw: nat, s: Shape, t: Shape, n: Id, nr: Id)
    requires s.nodes.Keys == s.lo.Keys == s.hi.Keys && t.nodes.Keys == t.lo.Keys == t.hi.Keys
  {
    && n in s.nodes && Arrays(lw, s.nodes[n]) && n in t.nodes && nr in t.nodes && n != nr && nr !in s.nodes
    && t.lo[n] == s.lo[n]
    && LeafOk(lw, t.nodes[n], t.lo[n], t.hi[n]) && LeafOk(lw, t.nodes[nr], t.lo[nr], t.hi[nr])
    && Entries(lw, s.nodes[n]) == Entries(lw, t.nodes[n]) + Entries(lw, t.nodes[nr])
    && (forall x :: x in s.nodes && s.nodes[x].Leaf? && x != n ==>
      x in t.nodes && SlotsEq(s.nodes[x], t.nodes[x]) && t.lo[x] == s.lo[x] && t.hi[x] == s.hi[x])
    && (forall x :: x in t.nodes && t.nodes[x].Leaf? && x != nr ==> x in s.nodes && s.nodes[x].Leaf?)
  }

  // ---------- no empty leaves ----------
  // Only the leftmost leaf may be empty, and the leaf whose first entry is about to be published.
  ghost predicate NoEmpty(nodes: Nodes, spare: Option<Id>) {
    forall x :: x in nodes && nodes[x].Leaf? && nodes[x].prev.Some? && nodes[x].perm.size == 0 ==> spare == Some(x)
  }

  // a split leaves neither half empty, the one that waits for its key apart
  lemma SpreadNoEmpty(lw: nat, s: Shape, t: Shape, n: Id, nr: Id, spare: Id)
    requires s.nodes.Keys == s.lo.Keys == s.hi.Keys && t.nodes.Keys == t.lo.Keys == t.hi.Keys
    requires Spread(lw, s, t, n, nr) && (spare != n ==> t.nodes[n].perm.size > 0)
      && (spare != nr ==> t.nodes[nr].perm.size > 0)
    ensures NoEmpty(s.nodes, None) ==> NoEmpty(t.nodes, Some(spare))
  { }

  lemma SizeKept(t: Shape, u: Shape, n: Id)
    requires t.nodes.Keys == t.lo.Keys == t.hi.Keys && u.nodes.Keys == u.lo.Keys == u.hi.Keys
    requires LeavesKept(t, u) && n in t.nodes && t.nodes[n].Leaf?
    ensures n in u.nodes && u.nodes[n].Leaf? && u.nodes[n].perm.size == t.nodes[n].perm.size
  { assert SameSlots(t.nodes[n], u.nodes[n]); }

  lemma SameEntries(lw: nat, a: Node, b: Node)
    requires Arrays(lw, a) && b.Leaf? && a.perm == b.perm && a.ikey == b.ikey && a.len == b.len && a.lv == b.lv
    ensures Arrays(lw, b) && Entries(lw, a) == Entries(lw, b)
  { }

  lemma SpreadOk(lw: nat, s: Shape, t: Shape, n: Id, nr: Id)
    requires s.nodes.Keys == s.lo.Keys == s.hi.Keys && t.nodes.Keys == t.lo.Keys == t.hi.Keys
    requires LeavesOk(lw, s) && Spread(lw, s, t, n, nr)
    ensures LeavesOk(lw, t) && StartsKept(s, t)
    ensures forall kv :: Holds(lw, t.nodes, kv) <==> Holds(lw, s.nodes, kv)
  {
    forall x | x in t.nodes && t.nodes[x].Leaf? ensures LeafOk(lw, t.nodes[x], t.lo[x], t.hi[x]) {
      if x != n && x != nr {
        assert LeafOk(lw, s.nodes[x], s.lo[x], s.hi[x]);
        SameEntries(lw, s.nodes[x], t.nodes[x]);
      }
    }
    forall kv ensures Holds(lw, t.nodes, kv) <==> Holds(lw, s.nodes, kv) {
      if Holds(lw, t.nodes, kv) {
        var x :| HoldsAt(lw, t.nodes, x, kv);
        if x != n && x != nr {
          assert LeafOk(lw, s.nodes[x], s.lo[x], s.hi[x]);
          SameEntries(lw, s.nodes[x], t.nodes[x]);
        }
        assert HoldsAt(lw, s.nodes, if x == nr then n else x, kv);
      }
      if Holds(lw, s.nodes, kv) {
        var x :| HoldsAt(lw, s.nodes, x, kv);
        if x != n { SameEntries(lw, s.nodes[x], t.nodes[x]); assert HoldsAt(lw, t.nodes, x, kv); }
        else if kv in Entries(lw, t.nodes[n]) { assert HoldsAt(lw, t.nodes, n, kv); }
        else { assert HoldsAt(lw, t.nodes, nr, kv); }
      }
    }
  }

  lemma SpreadKept(lw: nat, s: Shape, t: Shape, u: Shape, n: Id, nr: Id)
    requires s.nodes.Keys == s.lo.Keys == s.hi.Keys && t.nodes.Keys == t.lo.Keys == t.hi.Keys
      && u.nodes.Keys == u.lo.Keys == u.hi.Keys
    requires Spread(lw, s, t, n, nr) && LeavesKept(t, u)
    ensures Spread(lw, s, u, n, nr)
  {
    assert SameSlots(t.nodes[n], u.nodes[n]) && SameSlots(t.nodes[nr], u.nodes[nr]);
    assert Entries(lw, t.nodes[n]) == Entries(lw, u.nodes[n]);
    assert Entries(lw, t.nodes[nr]) == Entries(lw, u.nodes[nr]);
  }

  // ---------- one leaf changes ----------
  ghost predicate HoldsOff(lw: nat, nodes: Nodes, n: Id, kv: (LKey, Word)) {
    exists x :: x != n && HoldsAt(lw, nodes, x, kv)
  }

  // what a layer holds when leaf n alone is rewritten
  lemma OneLeafHolds(lw: nat, nodes: Nodes, n: Id, leaf: Node, kv: (LKey, Word))
    requires Arrays(lw, leaf)
    ensures Holds(lw, nodes[n := leaf], kv) <==> kv in Entries(lw, leaf) || HoldsOff(lw, nodes, n, kv)
  {
    var t := nodes[n := leaf];
    if Holds(lw, t, kv) {
      var x :| HoldsAt(lw, t, x, kv);
      if x != n { assert HoldsAt(lw, nodes, x, kv); }
    }
    if kv in Entries(lw, leaf) { assert HoldsAt(lw, t, n, kv); }
    if HoldsOff(lw, nodes, n, kv) {
      var x :| x != n && HoldsAt(lw, nodes, x, kv);
      assert HoldsAt(lw, t, x, kv);
    }
  }

  // leaf n is rewritten within its range: the layer stays well-formed
  lemma OneLeaf(lw: nat, s: Shape, n: Id, leaf: Node)
    requires Struct(s, Normal) && LeavesOk(lw, s) && n in s.nodes && s.nodes[n].Leaf?
      && LeafOk(lw, leaf, s.lo[n], s.hi[n])
    requires leaf.prev == s.nodes[n].prev && leaf.next == s.nodes[n].next && leaf.parent == s.nodes[n].parent
    ensures var t := s.(nodes := s.nodes[n := leaf]);
      Struct(t, Normal) && t.nodes.Keys == s.nodes.Keys && LeavesOk(lw, t)
    ensures forall kv :: Holds(lw, s.nodes[n := leaf], kv) <==> kv in Entries(lw, leaf) || HoldsOff(lw, s.nodes, n, kv)
    ensures LeafOk(lw, s.nodes[n], s.lo[n], s.hi[n])
    ensures forall kv :: Holds(lw, s.nodes, kv) <==> kv in Entries(lw, s.nodes[n]) || HoldsOff(lw, s.nodes, n, kv)
  {
    Refill(s, Normal, n, leaf);
    var t := s.(nodes := s.nodes[n := leaf]);
    assert t.nodes.Keys == s.nodes.Keys;
    assert LeafOk(lw, s.nodes[n], s.lo[n], s.hi[n]);
    forall x | x in t.nodes && t.nodes[x].Leaf? ensures LeafOk(lw, t.nodes[x], t.lo[x], t.hi[x]) {
      if x != n { assert LeafOk(lw, s.nodes[x], s.lo[x], s.hi[x]); }
    }
    forall kv ensures Holds(lw, s.nodes[n := leaf], kv) <==> kv in Entries(lw, leaf) || HoldsOff(lw, s.nodes, n, kv) {
      OneLeafHolds(lw, s.nodes, n, leaf, kv);
    }
    forall kv ensures Holds(lw, s.nodes, kv) <==> kv in Entries(lw, s.nodes[n]) || HoldsOff(lw, s.nodes, n, kv) {
      OneLeafHolds(lw, s.nodes, n, s.nodes[n], kv);
      assert s.nodes[n := s.nodes[n]] == s.nodes;
    }
  }

  // ---------- what find_insert hands to its caller ----------
  // The last free slot of leaf n holds k, unpublished, and i is the rank at which finish_insert puts it.
  ghost predicate Ready(lw: nat, s: Shape, n: Id, k: LKey, i: nat) {
    && n in s.nodes && n in s.lo && n in s.hi && s.nodes[n].Leaf? && lw > 0
    && LeafOk(lw, s.nodes[n], s.lo[n], s.hi[n]) && s.lo[n] <= k.ikey < s.hi[n]
    && Rank(Entries(lw, s.nodes[n]), k, i) && s.nodes[n].perm.size < lw
    && KeyAt(s.nodes[n], Back(s.nodes[n].perm)) == k
  }

  lemma BackIsFree(lw: nat, n: Node)
    requires Arrays(lw, n) && n.perm.size < lw
    ensures Back(n.perm) < lw && forall j :: 0 <= j < n.perm.size ==> n.perm.order[j] != Back(n.perm)
  { }

  lemma AssignOk(lw: nat, n: Node, lo: nat, hi: nat, k: LKey)
    requires LeafOk(lw, n, lo, hi) && n.perm.size < lw && (Back(n.perm) != 0 || n.prev.None? || n.ikey[0] == k.ikey)
    ensures var m := Assign(n, Back(n.perm), k, 0);
      LeafOk(lw, m, lo, hi) && Entries(lw, m) == Entries(lw, n) && KeyAt(m, Back(m.perm)) == k && m.perm == n.perm
  {
    BackIsFree(lw, n);
    AssignEntries(lw, n, Back(n.perm), k, 0);
  }

  lemma PublishOk(lw: nat, n: Node, lo: nat, hi: nat, k: LKey, v: Word, i: nat)
    requires LeafOk(lw, n, lo, hi) && n.perm.size < lw && lo <= k.ikey < hi && Proper(k)
    requires Rank(Entries(lw, n), k, i) && KeyAt(n, Back(n.perm)) == k && n.lv[Back(n.perm)] == v
    ensures var m := n.(perm := InsertFromBack(n.perm, i));
      LeafOk(lw, m, lo, hi) && Entries(lw, m) == Ins(Entries(lw, n), i, (k, v))
  {
    Publish(lw, n, k, v, i);
    InsSorted(Entries(lw, n), k, v, i);
  }

  // One round of make_split's climb, from s to t: c is the new sibling of n, nn the next free identifier. The separator
  // goes into the parent, under a new root, or into an extra internode where the heights leave a gap; a full parent is
  // cut, in the middle or, when keys come in order, at its end, and the climb goes on with its new sibling.
  ghost predicate Rounded(iw: nat, splitType: nat, s: Shape, n: Id, c: Id, nn: Id, t: Shape, more: bool, p: Id, q: Id) {
    n in s.nodes && c in s.nodes && c in s.lo &&
    if s.nodes[n].parent.None? then !more && NewRoot.requires(s, n, c, nn) && t == NewRoot(s, n, c, nn)
    else
      var up := s.nodes[n].parent.value;
      && up in s.nodes && s.nodes[up].Inner?
      && var kp := Upper(s.nodes[up].keys, s.lo[c]);
         if s.nodes[up].height > Height(s.nodes[n]) + 1 then
           !more && Interpose.requires(s, n, c, up, kp, nn) && t == Interpose(s, n, c, up, kp, nn)
         else
           && Attach.requires(s, c, up, kp)
           && var a := Attach(s, c, up, kp);
              if |s.nodes[up].keys| < iw then !more && t == a
              else
                var mid := if splitType == 2 then iw else (iw + 1) / 2;
                more && p == up && q == nn && Cut.requires(a, up, nn, mid) && t == Cut(a, up, nn, mid)
  }

  lemma AttachSizes(s: Shape, c: Id, p: Id, kp: nat)
    requires Attach.requires(s, c, p, kp) && p != c && |s.nodes[p].child| == |s.nodes[p].keys| + 1
    ensures var t := Attach(s, c, p, kp);
      && p in t.nodes && t.nodes[p].Inner? && |t.nodes[p].keys| == |s.nodes[p].keys| + 1
      && |t.nodes[p].child| == |t.nodes[p].keys| + 1
  { }

  lemma RoundRoot(iw: nat, splitType: nat, s: Shape, n: Id, c: Id, nn: Id, p: Id, q: Id)
    requires NewRoot.requires(s, n, c, nn) && s.nodes[n].parent.None?
    ensures Rounded(iw, splitType, s, n, c, nn, NewRoot(s, n, c, nn), false, p, q)
  { hide NewRoot; }

  lemma RoundBetween(iw: nat, splitType: nat, s: Shape, n: Id, c: Id, nn: Id, up: Id, kp: nat, q: Id)
    requires Interpose.requires(s, n, c, up, kp, nn) && s.nodes[n].parent == Some(up)
    requires kp == Upper(s.nodes[up].keys, s.lo[c]) && s.nodes[up].height > Height(s.nodes[n]) + 1
    ensures Rounded(iw, splitType, s, n, c, nn, Interpose(s, n, c, up, kp, nn), false, up, q)
  { hide Interpose; }

  lemma RoundAttach(iw: nat, splitType: nat, s: Shape, n: Id, c: Id, nn: Id, up: Id, kp: nat, q: Id)
    requires Attach.requires(s, c, up, kp) && n in s.nodes && s.nodes[n].parent == Some(up)
    requires kp == Upper(s.nodes[up].keys, s.lo[c]) && s.nodes[up].height <= Height(s.nodes[n]) + 1
    requires |s.nodes[up].keys| < iw
    ensures Rounded(iw, splitType, s, n, c, nn, Attach(s, c, up, kp), false, up, q)
  { hide Attach; }

  lemma RoundCut(iw: nat, splitType: nat, s: Shape, n: Id, c: Id, nn: Id, up: Id, kp: nat)
    requires Attach.requires(s, c, up, kp) && n in s.nodes && s.nodes[n].parent == Some(up)
    requires kp == Upper(s.nodes[up].keys, s.lo[c]) && s.nodes[up].height <= Height(s.nodes[n]) + 1
    requires |s.nodes[up].keys| >= iw
    requires var mid := if splitType == 2 then iw else (iw + 1) / 2; Cut.requires(Attach(s, c, up, kp), up, nn, mid)
    ensures var mid := if splitType == 2 then iw else (iw + 1) / 2;
      Rounded(iw, splitType, s, n, c, nn, Cut(Attach(s, c, up, kp), up, nn, mid), true, up, nn)
  { hide Attach; hide Cut; }

  // a full parent: everything that the stores of a round need and lead to
  lemma CutAll(s: Shape, n: Id, c: Id, p: Id, kp: nat, q: Id, iw: nat, splitType: nat)
    requires Struct(s, Pend(n, c)) && WidthsOk(iw, s.nodes) && IdsOk(s.nodes, q) && iw >= 1
    requires s.nodes[n].parent == Some(p) && p in s.nodes && s.nodes[p].Inner? && p != n && p != c
    requires ParentAt(s, n, p, kp) && kp == Upper(s.nodes[p].keys, s.lo[c]) && kp <= |s.nodes[p].keys|
    requires |s.nodes[p].child| == |s.nodes[p].keys| + 1 && iw <= |s.nodes[p].keys|
    requires Height(s.nodes[n]) < s.nodes[p].height <= Height(s.nodes[n]) + 1
    ensures var mid := if splitType == 2 then iw else (iw + 1) / 2;
      && |s.nodes[p].keys| == iw && InnerSplitPre(s, c, p, kp, q, mid)
      && (forall j :: 0 <= j <= iw && s.nodes[p].child[j].Some? ==> s.nodes[p].child[j].value in s.nodes)
      && (forall j :: 1 <= j <= iw ==> s.nodes[p].child[j].Some?)
      && Cut.requires(Attach(s, c, p, kp), p, q, mid)
      && var t := Cut(Attach(s, c, p, kp), p, q, mid);
         && Struct(t, Pend(p, q)) && WidthsOk(iw, t.nodes) && IdsOk(t.nodes, q + 1) && LeavesKept(s, t)
         && s.root in s.nodes && t.root == s.root && Height(t.nodes[p]) == Height(s.nodes[n]) + 1
         && Height(t.nodes[t.root]) == Height(s.nodes[s.root])
         && Rounded(iw, splitType, s, n, c, q, t, true, p, q)
  {
    hide InnersOk; hide ParentsOk; hide ListsOk; hide WidthsOk; hide LeavesKept; hide ParentOk; hide Rounded;
    var mid := if splitType == 2 then iw else (iw + 1) / 2;
    AttachUnder(s, n, c, p, kp);
    AttachKeeps(s, n, c, p, kp, iw);
    AttachSizes(s, c, p, kp);
    SplitReady(s, n, c, p, kp, q, mid);
    var a := Attach(s, c, p, kp);
    assert a.root == s.root && IdsOk(a.nodes, q);
    RoundCut(iw, splitType, s, n, c, q, p, kp) by { assert Cut.requires(a, p, q, mid); }
    hide Attach;
    CutNode(a, p, q, mid);
    CutKeeps(a, p, q, mid, iw);
    KeptTrans(s, a, Cut(a, p, q, mid));
    assert Cut(a, p, q, mid).root == a.root;
  }

  lemma AttachAll(s: Shape, n: Id, c: Id, p: Id, kp: nat, q: Id, iw: nat, splitType: nat)
    requires Struct(s, Pend(n, c)) && WidthsOk(iw, s.nodes) && IdsOk(s.nodes, q)
    requires s.nodes[n].parent == Some(p) && p in s.nodes && s.nodes[p].Inner? && p != n && p != c
    requires ParentAt(s, n, p, kp) && kp == Upper(s.nodes[p].keys, s.lo[c]) && kp <= |s.nodes[p].keys| < iw
    requires |s.nodes[p].child| == |s.nodes[p].keys| + 1
    requires Height(s.nodes[n]) < s.nodes[p].height <= Height(s.nodes[n]) + 1
    ensures var t := Attach(s, c, p, kp);
      && Struct(t, Normal) && WidthsOk(iw, t.nodes) && IdsOk(t.nodes, q) && LeavesKept(s, t)
      && Rounded(iw, splitType, s, n, c, q, t, false, p, c)
  {
    hide InnersOk; hide ParentsOk; hide ListsOk; hide LeavesKept; hide ParentOk; hide Rounded;
    AttachUnder(s, n, c, p, kp);
    AttachKeeps(s, n, c, p, kp, iw);
    RoundAttach(iw, splitType, s, n, c, q, p, kp, c);
  }

  // upper(xikey, *p) finds n in its parent
  lemma AtUpper(s: Shape, n: Id, c: Id)
    requires Struct(s, Pend(n, c)) && s.nodes[n].parent.Some?
    ensures var p := s.nodes[n].parent.value;
      && n != s.root && p in s.nodes && s.nodes[p].Inner? && p != n && p != c && Height(s.nodes[n]) < s.nodes[p].height
      && var kp := Upper(s.nodes[p].keys, s.lo[c]);
         ParentAt(s, n, p, kp) && kp <= |s.nodes[p].keys| && |s.nodes[p].child| == |s.nodes[p].keys| + 1
  {
    var m := Pend(n, c);
    assert ParentOk(s, m, n);
    var p := s.nodes[n].parent.value;
    var j :| 0 <= j < |s.nodes[p].child| && s.nodes[p].child[j] == Some(n);
    assert InnerOk(s, m, p) && ChildOk(s, m, p, j);
    UpperIs(s.nodes[p].keys, s.lo[c], j);
  }

  lemma SplitReady(s: Shape, n: Id, c: Id, p: Id, kp: nat, q: Id, mid: nat)
    requires Struct(s, Pend(n, c)) && ParentAt(s, n, p, kp) && kp <= |s.nodes[p].keys| && p != c
    requires 1 <= mid <= |s.nodes[p].keys| && q !in s.nodes
    ensures InnerSplitPre(s, c, p, kp, q, mid)
    ensures forall j :: 0 <= j <= |s.nodes[p].keys| && s.nodes[p].child[j].Some? ==>
      s.nodes[p].child[j].value in s.nodes
    ensures forall j :: 1 <= j <= |s.nodes[p].keys| ==> s.nodes[p].child[j].Some?
  {
    assert InnerOk(s, Pend(n, c), p);
    forall x | Some(x) in s.nodes[p].child ensures x in s.nodes && x != p && x != c && x != q {
      ChildFacts(s, Pend(n, c), p, x);
    }
  }

  // the left half once its tail is gone, with k in its spare slot if k stays left
  function Left(lw: nat, n: Node, k: LKey, stays: bool, cut: nat): Node
    requires Arrays(lw, n) && cut <= n.perm.size && lw > 0
  {
    var nl := Strip(lw, n, cut);
    if stays then (StripBack(lw, n, cut); Assign(nl, Back(nl.perm), k, 0)) else nl
  }

  function LeftHalf(lw: nat, n: Node, k: LKey, p: nat, mid: nat): Node
    requires Arrays(lw, n) && 0 < mid && CutOf(p, mid) <= n.perm.size && lw > 0
  {
    Left(lw, n, k, p < mid, CutOf(p, mid))
  }

  lemma StripBack(lw: nat, n: Node, size: nat)
    requires Arrays(lw, n) && size <= n.perm.size && lw > 0
    ensures Back(Strip(lw, n, size).perm) < lw && PermOk(lw, Strip(lw, n, size).perm)
  { }

  ghost predicate NeedsSplit(lw: nat, n: Node, k: LKey)
    requires Arrays(lw, n) && lw > 0
  {
    n.perm.size == lw || (Back(n.perm) == 0 && n.prev.Some? && n.ikey[0] != k.ikey)
  }

  lemma LeftHalfOk(lw: nat, n: Node, lo: nat, hi: nat, k: LKey, p: nat, mid: nat, nr: Node)
    requires SplitPre(lw, n, lo, hi, k, p, mid, nr)
    requires n.perm.size < lw ==> Back(n.perm) == 0 && n.prev.Some? && n.ikey[0] != k.ikey
    ensures var nl, split, cut := LeftHalf(lw, n, k, p, mid), nr.ikey[0], CutOf(p, mid);
      && LeafOk(lw, nl, lo, split) && Entries(lw, nl) == Entries(lw, n)[..cut] && nl.perm.size == cut
      && (p < mid ==> cut < lw && KeyAt(nl, Back(nl.perm)) == k)
  {
    SplitContent(lw, n, lo, hi, k, p, mid, nr);
    if p < mid {
      if n.prev.Some? { StripKeepsBound(lw, n, lo, hi, k, p, mid); }
      AssignOk(lw, Strip(lw, n, CutOf(p, mid)), lo, nr.ikey[0], k);
    }
  }

  // the state once link_split has run and the left leaf is stripped
  ghost function SplitDone(lw: nat, s: Shape, n: Id, q: Id, k: LKey, p: nat, mid: nat, nr: Node): Shape
    requires LinkSplit.requires(s.nodes, n, q, nr) && n in s.hi && Arrays(lw, s.nodes[n]) && lw > 0 && 0 < mid
    requires CutOf(p, mid) <= s.nodes[n].perm.size && |nr.ikey| > 0
  {
    var t := SplitLeafShape(s, n, q, nr, nr.ikey[0]);
    t.(nodes := t.nodes[n := LeftHalf(lw, t.nodes[n], k, p, mid)])
  }

  // link_split changes nothing but links
  lemma LinkFacts(s: Shape, n: Id, q: Id, nr: Node)
    requires LinkSplit.requires(s.nodes, n, q, nr)
    requires s.nodes[n].next.Some? ==> s.nodes[s.nodes[n].next.value].prev.Some?
    ensures var t := LinkSplit(s.nodes, n, q, nr);
      && t.Keys == s.nodes.Keys + {q} && t[n] == s.nodes[n].(next := Some(q))
      && t[q] == nr.(prev := Some(n), next := s.nodes[n].next)
      && (forall x :: x in s.nodes ==> t[x].Leaf? == s.nodes[x].Leaf?)
      && (forall x :: x in s.nodes && s.nodes[x].Leaf? ==> SlotsEq(s.nodes[x], t[x]))
  { }

  // t is s with leaf n cut in two at split
  ghost predicate CutInTwo(lw: nat, s: Shape, t: Shape, n: Id, q: Id, l: Node, r: Node, split: nat) {
    && s.nodes.Keys == s.lo.Keys == s.hi.Keys && n in s.nodes && q !in s.nodes
    && t.nodes.Keys == s.nodes.Keys + {q} && t.lo == s.lo[q := split] && t.hi == s.hi[q := s.hi[n]][n := split]
    && t.nodes[n] == l && t.nodes[q] == r && l.Leaf? && r.Leaf? && s.nodes[n].Leaf?
    && (forall x :: x in s.nodes ==> t.nodes[x].Leaf? == s.nodes[x].Leaf?)
    && (forall x :: x in s.nodes && x != n && s.nodes[x].Leaf? ==> SlotsEq(s.nodes[x], t.nodes[x]))
  }

  lemma SplitDoneFacts(lw: nat, s: Shape, n: Id, q: Id, k: LKey, p: nat, mid: nat, nr: Node)
    requires Domains(s, Normal) && LinkSplit.requires(s.nodes, n, q, nr)
    requires s.nodes[n].next.Some? ==> s.nodes[s.nodes[n].next.value].prev.Some?
    requires SplitDone.requires(lw, s, n, q, k, p, mid, nr)
    ensures var a := s.nodes[n];
      CutInTwo(lw, s, SplitDone(lw, s, n, q, k, p, mid, nr), n, q, LeftHalf(lw, a.(next := Some(q)), k, p, mid),
        nr.(prev := Some(n), next := a.next), nr.ikey[0])
  {
    LinkFacts(s, n, q, nr);
  }

  lemma SplitSpreads(lw: nat, s: Shape, t: Shape, n: Id, q: Id, k: LKey, p: nat, mid: nat, nr: Node)
    requires n in s.nodes && n in s.lo && n in s.hi && SplitPre(lw, s.nodes[n], s.lo[n], s.hi[n], k, p, mid, nr)
    requires var a := s.nodes[n]; a.perm.size < lw ==> Back(a.perm) == 0 && a.prev.Some? && a.ikey[0] != k.ikey
    requires var a := s.nodes[n];
      CutInTwo(lw, s, t, n, q, LeftHalf(lw, a.(next := Some(q)), k, p, mid), nr.(prev := Some(n), next := a.next),
        nr.ikey[0])
    ensures Spread(lw, s, t, n, q)
    ensures (p < mid ==> Ready(lw, t, n, k, p)) && (p >= mid ==> Ready(lw, t, q, k, p - mid))
    ensures HalvesFilled(t, n, q, p < mid)
  {
    var a := s.nodes[n];
    LeftReady(lw, a, t.nodes[n], s.lo[n], s.hi[n], k, p, mid, nr);
    RightReady(lw, a, t.nodes[q], s.lo[n], s.hi[n], k, p, mid, nr);
    SpreadIntro(lw, s, t, n, q, CutOf(p, mid));
  }

  ghost predicate HalvesFilled(t: Shape, n: Id, q: Id, stays: bool) {
    && n in t.nodes && q in t.nodes && t.nodes[n].Leaf? && t.nodes[q].Leaf?
    && (if stays then t.nodes[q].perm.size > 0 else t.nodes[n].perm.size > 0)
  }

  lemma SpreadIntro(lw: nat, s: Shape, t: Shape, n: Id, q: Id, cut: nat)
    requires s.nodes.Keys == s.lo.Keys == s.hi.Keys && n in s.nodes && Arrays(lw, s.nodes[n]) && q !in s.nodes
    requires t.nodes.Keys == s.nodes.Keys + {q} && t.lo.Keys == t.nodes.Keys && t.hi.Keys == t.nodes.Keys
    requires LeafOk(lw, t.nodes[n], t.lo[n], t.hi[n]) && LeafOk(lw, t.nodes[q], t.lo[q], t.hi[q]) && t.lo[n] == s.lo[n]
    requires var es := Entries(lw, s.nodes[n]);
      cut <= |es| && Entries(lw, t.nodes[n]) == es[..cut] && Entries(lw, t.nodes[q]) == es[cut..]
    requires forall x :: x in s.nodes ==> t.nodes[x].Leaf? == s.nodes[x].Leaf?
    requires forall x :: x in s.nodes && x != n && s.nodes[x].Leaf? ==>
      SlotsEq(s.nodes[x], t.nodes[x]) && t.lo[x] == s.lo[x] && t.hi[x] == s.hi[x]
    ensures Spread(lw, s, t, n, q)
  {
    var es := Entries(lw, s.nodes[n]);
    assert es == es[..cut] + es[cut..];
  }

  lemma LeftReady(lw: nat, a: Node, l: Node, lo: nat, hi: nat, k: LKey, p: nat, mid: nat, nr: Node)
    requires SplitPre(lw, a, lo, hi, k, p, mid, nr)
    requires a.perm.size < lw ==> Back(a.perm) == 0 && a.prev.Some? && a.ikey[0] != k.ikey
    requires exists x :: l == LeftHalf(lw, a.(next := x), k, p, mid)
    ensures LeafOk(lw, l, lo, nr.ikey[0]) && Entries(lw, l) == Entries(lw, a)[..CutOf(p, mid)]
    ensures p < mid ==>
      k.ikey < nr.ikey[0] && l.perm.size < lw && KeyAt(l, Back(l.perm)) == k && Rank(Entries(lw, l), k, p)
    ensures p >= mid ==> l.perm.size > 0
  {
    SplitContent(lw, a, lo, hi, k, p, mid, nr);
    LeftHalfOk(lw, a, lo, hi, k, p, mid, nr);
    SameLeaf(lw, LeftHalf(lw, a, k, p, mid), l, lo, nr.ikey[0]);
  }

  lemma RightReady(lw: nat, a: Node, r: Node, lo: nat, hi: nat, k: LKey, p: nat, mid: nat, nr: Node)
    requires SplitPre(lw, a, lo, hi, k, p, mid, nr)
    requires exists x :: r == nr.(prev := Some(x), next := a.next)
    ensures lo < nr.ikey[0] < hi
    ensures LeafOk(lw, r, nr.ikey[0], hi) && Entries(lw, r) == Entries(lw, a)[CutOf(p, mid)..]
    ensures p >= mid ==>
      nr.ikey[0] <= k.ikey && r.perm.size < lw && KeyAt(r, Back(r.perm)) == k && Rank(Entries(lw, r), k, p - mid)
    ensures p < mid ==> r.perm.size > 0
  {
    SplitContent(lw, a, lo, hi, k, p, mid, nr);
    SameLeaf(lw, nr.(prev := Some(0)), r, nr.ikey[0], hi);
    SameEntries(lw, nr, r);
  }

  lemma SameLeaf(lw: nat, a: Node, b: Node, lo: nat, hi: nat)
    requires LeafOk(lw, a, lo, hi) && SlotsEq(a, b)
    ensures LeafOk(lw, b, lo, hi) && Entries(lw, b) == Entries(lw, a)
  { SameEntries(lw, a, b); }

  // Some entry of the leaf has another ikey than k: the midpoint search then finds a cut.
  ghost predicate Mixed(lw: nat, n: Node, k: LKey)
    requires Arrays(lw, n)
  {
    exists i :: 0 <= i < |Entries(lw, n)| && Entries(lw, n)[i].0.ikey != k.ikey
  }

  // Ten slots are enough: a leaf that wide never has to split with all its keys on one ikey.
  lemma WideIsMixed(lw: nat, n: Node, lo: nat, hi: nat, k: LKey, i: nat)
    requires LeafOk(lw, n, lo, hi) && lw >= 10 && n.perm.size + 1 >= lw && NeedsSplit(lw, n, k)
    requires Proper(k) && lo <= k.ikey && Rank(Entries(lw, n), k, i)
    ensures Mixed(lw, n, k)
  {
    hide Proper;
    if !Mixed(lw, n, k) {
      var full := Full(lw, n, k, i);
      InsSorted(Entries(lw, n), k, 0, i);
      assert forall j :: 0 <= j < |full| ==>
        full[j] == if j < i then Entries(lw, n)[j] else if j == i then (k, 0) else Entries(lw, n)[j-1];
      AtMostTen(full, k.ikey);
      if k.ikey > 0 { AtMostNine(full, k.ikey); }
    }
  }

  lemma MidReady(lw: nat, n: Node, lo: nat, hi: nat, k: LKey, p: nat)
    requires LeafOk(lw, n, lo, hi) && Rank(Entries(lw, n), k, p) && Mixed(lw, n, k)
    ensures var f := Keys(Full(lw, n, k, p));
      && |f| == n.perm.size + 1 && (exists i :: 0 <= i < |f| && f[i] != f[0])
      && (forall i, j :: 0 <= i < j < |f| ==> f[i] <= f[j])
  {
    var es, full := Entries(lw, n), Full(lw, n, k, p);
    var f := Keys(full);
    InsSorted(es, k, 0, p);
    forall i, j | 0 <= i < j < |f| ensures f[i] <= f[j] { assert KeyLess(full[i].0, full[j].0); }
    var w :| 0 <= w < |es| && es[w].0.ikey != k.ikey;
    assert full[p] == (k, 0) && full[if w < p then w else w + 1] == es[w];
    assert f[p] == k.ikey && f[if w < p then w else w + 1] == es[w].0.ikey;
    assert f[p] != f[0] || f[if w < p then w else w + 1] != f[0];
  }

  lemma RankFits(lw: nat, n: Node, k: LKey, i: nat)
    requires Arrays(lw, n) && Rank(Entries(lw, n), k, i)
    ensures i <= n.perm.size
  { }

  // where the search for a cut begins: the middle, or the end of the layer at which keys come in order
  function FirstMid(lw: nat, leaf: Node, i: nat): nat
    requires leaf.Leaf?
  {
    if i == 0 && leaf.prev.None? then 1
    else if i == leaf.perm.size && leaf.next.None? then leaf.perm.size
    else lw / 2 + 1
  }

  // the new key went left, or right, or right and alone
  function SplitType(i: nat, mid: nat, size: nat): nat { if i < mid then 0 else if mid == size then 2 else 1 }

  // leaf::split_into up to the linking: where to cut, and what goes right
  method CutLeaf(lw: nat, leaf: Node, k: LKey, i: nat, ghost lo: nat, ghost hi: nat)
    returns (mid: nat, right: Node, splitType: nat)
    requires lw >= 3 && LeafOk(lw, leaf, lo, hi) && lo <= k.ikey < hi && Proper(k)
    requires Rank(Entries(lw, leaf), k, i) && leaf.perm.size + 1 >= lw && Mixed(lw, leaf, k)
    ensures SplitPre(lw, leaf, lo, hi, k, i, mid, right)
    ensures splitType == SplitType(i, mid, leaf.perm.size)
    ensures Nearest(Keys(Full(lw, leaf, k, i)), FirstMid(lw, leaf, i), mid)
  {
    hide Zeros; hide Proper; hide PermOk; hide Sorted; hide InRange; hide RightHalf; hide Mixed; hide Entries;
    hide Keys; hide Full;
    RankFits(lw, leaf, k, i);
    MidReady(lw, leaf, lo, hi, k, i);
    hide Rank; hide Arrays;
    var width, f := leaf.perm.size, Keys(Full(lw, leaf, k, i));
    var mid0 := lw / 2 + 1;
    if i == 0 && leaf.prev.None? {
      mid0 := 1;
    } else if i == width && leaf.next.None? {
      mid0 := width;
    }
    mid := FindMid(f, mid0);
    right := BuildRight(lw, leaf, k, i, mid);
    splitType := if i < mid then 0 else if mid == width then 2 else 1;
  }

  ghost function Stripped(lw: nat, s: Shape, n: Id, q: Id, k: LKey, stays: bool): Shape
    requires n in s.nodes && q in s.nodes && s.nodes[q].Leaf? && Arrays(lw, s.nodes[n]) && lw > 0
    requires s.nodes[q].perm.size <= s.nodes[n].perm.size
  {
    s.(nodes := s.nodes[n := Left(lw, s.nodes[n], k, stays, s.nodes[n].perm.size - s.nodes[q].perm.size)])
  }

  // the climb of make_split, round by round; after the first round the left leaf is stripped
  datatype Round = Round(s: Shape, n: Id, c: Id, next: Id)

  ghost predicate Link(lw: nat, iw: nat, splitType: nat, k: LKey, first: bool, r: Round, u: Shape, more: bool, p: Id,
                       q: Id)
  {
    exists t :: Rounded(iw, splitType, r.s, r.n, r.c, r.next, t, more, p, q) &&
      if first then Stripped.requires(lw, t, r.n, r.c, k, splitType == 0)
        && u == Stripped(lw, t, r.n, r.c, k, splitType == 0)
      else u == t
  }

  ghost predicate Linked(lw: nat, iw: nat, splitType: nat, k: LKey, rs: seq<Round>) {
    forall i :: 0 <= i < |rs| - 1 ==> Link(lw, iw, splitType, k, i == 0, rs[i], rs[i+1].s, true, rs[i+1].n, rs[i+1].c)
  }

  // from s, where c is new beside n, by rounds until one of them finds its place, to u
  ghost predicate WholeClimb(lw: nat, iw: nat, splitType: nat, k: LKey, rs: seq<Round>, u: Shape) {
    rs != [] && Linked(lw, iw, splitType, k, rs) && Ends(lw, iw, splitType, k, |rs| == 1, rs[|rs| - 1], u)
  }

  ghost predicate Ends(lw: nat, iw: nat, splitType: nat, k: LKey, first: bool, r: Round, u: Shape) {
    exists p, q :: Link(lw, iw, splitType, k, first, r, u, false, p, q)
  }

  lemma LinkedOne(lw: nat, iw: nat, splitType: nat, k: LKey, rs: seq<Round>)
    requires |rs| == 1
    ensures Linked(lw, iw, splitType, k, rs)
  { }

  lemma LinkIs(lw: nat, iw: nat, splitType: nat, k: LKey, first: bool, r: Round, t: Shape, u: Shape, more: bool, p: Id,
               q: Id)
    requires Rounded(iw, splitType, r.s, r.n, r.c, r.next, t, more, p, q)
    requires if first then Stripped.requires(lw, t, r.n, r.c, k, splitType == 0)
        && u == Stripped(lw, t, r.n, r.c, k, splitType == 0)
      else u == t
    ensures Link(lw, iw, splitType, k, first, r, u, more, p, q)
  { hide Rounded; hide Stripped; }

  lemma LinkedMore(lw: nat, iw: nat, splitType: nat, k: LKey, rs: seq<Round>, u: Shape, p: Id, q: Id, next: Id)
    requires rs != [] && Linked(lw, iw, splitType, k, rs)
    requires Link(lw, iw, splitType, k, |rs| == 1, rs[|rs| - 1], u, true, p, q)
    ensures Linked(lw, iw, splitType, k, rs + [Round(u, p, q, next)])
  {
    hide Link;
    var more := rs + [Round(u, p, q, next)];
    forall i | 0 <= i < |more| - 1
      ensures Link(lw, iw, splitType, k, i == 0, more[i], more[i+1].s, true, more[i+1].n, more[i+1].c)
    {
      if i < |rs| - 1 { assert more[i] == rs[i] && more[i+1] == rs[i+1]; }
    }
  }

  lemma StripKept(lw: nat, s: Shape, u: Shape, n: Id, q: Id, k: LKey, stays: bool)
    requires s.nodes.Keys == s.lo.Keys == s.hi.Keys && u.nodes.Keys == u.lo.Keys == u.hi.Keys && LeavesKept(s, u)
    requires n in s.nodes && q in s.nodes && s.nodes[q].Leaf? && Arrays(lw, s.nodes[n]) && lw > 0
    requires s.nodes[q].perm.size <= s.nodes[n].perm.size
    ensures n in u.nodes && q in u.nodes && u.nodes[q].Leaf? && Arrays(lw, u.nodes[n])
      && u.nodes[q].perm.size <= u.nodes[n].perm.size
    ensures var s', u' := Stripped(lw, s, n, q, k, stays), Stripped(lw, u, n, q, k, stays);
      s'.nodes.Keys == s.nodes.Keys && u'.nodes.Keys == u.nodes.Keys && LeavesKept(s', u')
  {
    assert SameSlots(s.nodes[n], u.nodes[n]) && SameSlots(s.nodes[q], u.nodes[q]);
  }

  lemma ReadyKept(lw: nat, t: Shape, u: Shape, n: Id, k: LKey, i: nat)
    requires t.nodes.Keys == t.lo.Keys == t.hi.Keys && u.nodes.Keys == u.lo.Keys == u.hi.Keys
    requires LeavesKept(t, u) && Ready(lw, t, n, k, i)
    ensures Ready(lw, u, n, k, i)
  {
    assert SameSlots(t.nodes[n], u.nodes[n]);
    SameLeaf(lw, t.nodes[n], u.nodes[n], t.lo[n], t.hi[n]);
  }

  lemma LeftLinks(lw: nat, n: Node, k: LKey, stays: bool, cut: nat)
    requires Arrays(lw, n) && cut <= n.perm.size && lw > 0
    ensures var nl := Left(lw, n, k, stays, cut);
      nl.Leaf? && nl.prev == n.prev && nl.next == n.next && nl.parent == n.parent
  { }

  lemma StripStep(lw: nat, iw: nat, t: Shape, u: Shape, next: Id, n: Id, q: Id, k: LKey, stays: bool, m: Mode)
    requires lw > 0 && !m.Hole? && Struct(u, m) && WidthsOk(iw, u.nodes) && IdsOk(u.nodes, next)
    requires t.nodes.Keys == t.lo.Keys == t.hi.Keys && LeavesKept(t, u) && n in t.nodes && q in t.nodes && n != q
    requires t.nodes[q].Leaf? && Arrays(lw, t.nodes[n]) && t.nodes[q].perm.size <= t.nodes[n].perm.size
    ensures n in u.nodes && q in u.nodes && u.nodes[q].Leaf? && Arrays(lw, u.nodes[n])
      && u.nodes[q].perm.size <= u.nodes[n].perm.size
    ensures var v := Stripped(lw, u, n, q, k, stays);
      && Struct(v, m) && WidthsOk(iw, v.nodes) && IdsOk(v.nodes, next)
      && Stripped(lw, t, n, q, k, stays).nodes.Keys == t.nodes.Keys && LeavesKept(Stripped(lw, t, n, q, k, stays), v)
      && v.nodes.Keys == u.nodes.Keys && forall x :: x in u.nodes ==> Height(v.nodes[x]) == Height(u.nodes[x])
  {
    hide InnersOk; hide ParentsOk; hide ListsOk; hide Entries; hide PermOk; hide LeavesKept;
    StripKept(lw, t, u, n, q, k, stays);
    hide Left;
    var cut := u.nodes[n].perm.size - u.nodes[q].perm.size;
    LeftLinks(lw, u.nodes[n], k, stays, cut);
    Refill(u, m, n, Left(lw, u.nodes[n], k, stays, cut));
  }

  lemma NextHasPrev(s: Shape, n: Id)
    requires Domains(s, Normal) && ListsOk(s, Normal) && n in s.nodes && s.nodes[n].Leaf?
    ensures s.nodes[n].next.Some? ==> var o := s.nodes[n].next.value;
      o in s.nodes && s.nodes[o].Leaf? && s.nodes[o].prev.Some?
  { assert ListOk(s, Normal, n); }

  lemma SplitLeafAll(lw: nat, s: Shape, n: Id, q: Id, k: LKey, p: nat, mid: nat, nr: Node)
    requires Struct(s, Normal) && n in s.nodes && s.nodes[n].Leaf? && q !in s.nodes && nr.Leaf?
    requires SplitPre(lw, s.nodes[n], s.lo[n], s.hi[n], k, p, mid, nr) && NeedsSplit(lw, s.nodes[n], k)
    ensures LinkSplit.requires(s.nodes, n, q, nr) && |nr.ikey| > 0
    ensures var u := SplitLeafShape(s, n, q, nr, nr.ikey[0]);
      && Struct(u, Pend(n, q)) && u.nodes[n].Leaf? && u.nodes[q].Leaf? && u.nodes[q].ikey == nr.ikey
      && u.lo[q] == nr.ikey[0]
      && Arrays(lw, u.nodes[n]) && u.nodes[q].perm.size <= u.nodes[n].perm.size
    ensures var t := SplitDone(lw, s, n, q, k, p, mid, nr);
      && t == Stripped(lw, SplitLeafShape(s, n, q, nr, nr.ikey[0]), n, q, k, p < mid)
      && t.nodes.Keys == t.lo.Keys == t.hi.Keys && Spread(lw, s, t, n, q)
      && (if p < mid then Ready(lw, t, n, k, p) else Ready(lw, t, q, k, p - mid)) && HalvesFilled(t, n, q, p < mid)
  {
    hide InnersOk; hide ParentsOk; hide ListsOk; hide Spread; hide CutInTwo; hide Entries; hide Ready; hide Sorted;
    hide InRange; hide PermOk; hide Rank; hide Full; hide Keys; hide HalvesFilled;
    NextHasPrev(s, n);
    SplitContent(lw, s.nodes[n], s.lo[n], s.hi[n], k, p, mid, nr);
    SplitLeaf(s, n, q, nr, nr.ikey[0]);
    SplitSizes(lw, s, n, q, k, p, mid, nr);
    SplitDoneFacts(lw, s, n, q, k, p, mid, nr);
    SplitSpreads(lw, s, SplitDone(lw, s, n, q, k, p, mid, nr), n, q, k, p, mid, nr);
  }

  lemma SplitSizes(lw: nat, s: Shape, n: Id, q: Id, k: LKey, p: nat, mid: nat, nr: Node)
    requires LinkSplit.requires(s.nodes, n, q, nr) && n in s.hi && Arrays(lw, s.nodes[n]) && lw > 0 && |nr.ikey| > 0
    requires s.nodes[n].next.Some? ==> s.nodes[s.nodes[n].next.value].prev.Some?
    requires 0 < mid && CutOf(p, mid) + nr.perm.size == s.nodes[n].perm.size
    ensures var u := SplitLeafShape(s, n, q, nr, nr.ikey[0]);
      && u.nodes[n].Leaf? && u.nodes[q].Leaf? && u.nodes[q].ikey == nr.ikey && u.lo[q] == nr.ikey[0]
      && Arrays(lw, u.nodes[n]) && u.nodes[q].perm.size <= u.nodes[n].perm.size
      && SplitDone(lw, s, n, q, k, p, mid, nr) == Stripped(lw, u, n, q, k, p < mid)
  {
    LinkFacts(s, n, q, nr);
  }

  // ---------- the search inside a leaf ----------
  function Compare(a: LKey, b: LKey): int {
    if a.ikey != b.ikey then (if a.ikey < b.ikey then -1 else 1)
    else if a.len == b.len then 0 else if a.len < b.len then -1 else 1
  }

  ghost predicate Found(lw: nat, n: Node, k: LKey, i: nat, p: Option<nat>)
    requires Arrays(lw, n)
  {
    && i <= n.perm.size
    && (forall j :: 0 <= j < i ==> KeyLess(Entries(lw, n)[j].0, k))
    && match p
       case Some(slot) => i < n.perm.size && slot == n.perm.order[i] && slot < lw && Entries(lw, n)[i].0 == k
       case None => forall j :: i <= j < n.perm.size ==> KeyLess(k, Entries(lw, n)[j].0)
  }

  // key_bound_linear::lower (leaves are at most 15 wide)
  method Lower(lw: nat, n: Node, k: LKey) returns (i: nat, p: Option<nat>)
    requires Arrays(lw, n) && Sorted(Entries(lw, n))
    ensures Found(lw, n, k, i, p)
  {
    i, p := 0, None;
    ghost var es := Entries(lw, n);
    while i < n.perm.size
      invariant i <= n.perm.size && forall j :: 0 <= j < i ==> KeyLess(es[j].0, k)
    {
      var lp := n.perm.order[i];
      assert es[i].0 == KeyAt(n, lp);
      var cmp := Compare(k, KeyAt(n, lp));
      if cmp < 0 {
        return i, None;
      } else if cmp == 0 {
        return i, Some(lp);
      }
      i := i + 1;
    }
  }

  // key_bound_binary::lower finds the same place
  method LowerBinary(lw: nat, n: Node, k: LKey) returns (i: nat, p: Option<nat>)
    requires Arrays(lw, n) && Sorted(Entries(lw, n))
    ensures Found(lw, n, k, i, p)
  {
    ghost var es := Entries(lw, n);
    var l, r := 0, n.perm.size;
    while l < r
      invariant 0 <= l <= r <= n.perm.size
      invariant forall j :: 0 <= j < l ==> KeyLess(es[j].0, k)
      invariant forall j :: r <= j < n.perm.size ==> KeyLess(k, es[j].0)
    {
      var m := (l + r) / 2;
      var mp := n.perm.order[m];
      assert es[m].0 == KeyAt(n, mp);
      var cmp := Compare(k, KeyAt(n, mp));
      if cmp < 0 {
        r := m;
      } else if cmp == 0 {
        return m, Some(mp);
      } else {
        l := m + 1;
      }
    }
    return l, None;
  }

  lemma FoundRank(lw: nat, n: Node, k: LKey, i: nat)
    requires Arrays(lw, n) && Found(lw, n, k, i, None)
    ensures Rank(Entries(lw, n), k, i)
  { }

  lemma InsMember<T>(s: seq<T>, i: nat, x: T)
    requires i <= |s|
    ensures forall y :: y in Ins(s, i, x) <==> y == x || y in s
  {
    var t := Ins(s, i, x);
    forall y ensures y in t <==> y == x || y in s {
      assert t[i] == x;
      if y in s {
        var j :| 0 <= j < |s| && s[j] == y;
        assert t[if j < i then j else j + 1] == y;
      }
    }
  }

  // a leaf found by its range is the only one that can hold k
  lemma FoundHere(lw: nat, s: Shape, n: Id, k: LKey, i: nat, p: Option<nat>)
    requires Struct(s, Normal) && LeavesOk(lw, s) && n in s.nodes && s.nodes[n].Leaf? && s.lo[n] <= k.ikey < s.hi[n]
    requires LeafOk(lw, s.nodes[n], s.lo[n], s.hi[n]) && Found(lw, s.nodes[n], k, i, p)
    ensures forall v :: Holds(lw, s.nodes, (k, v)) <==> p.Some? && v == s.nodes[n].lv[p.value]
  {
    forall v ensures Holds(lw, s.nodes, (k, v)) <==> p.Some? && v == s.nodes[n].lv[p.value] {
      if Holds(lw, s.nodes, (k, v)) {
        var x :| HoldsAt(lw, s.nodes, x, (k, v));
        OnlyLeaf(lw, s, n, x, (k, v));
        OneEntry(lw, s.nodes[n], k, i, p, v);
      }
      if p.Some? && v == s.nodes[n].lv[p.value] {
        assert Entries(lw, s.nodes[n])[i] == (k, v);
        assert HoldsAt(lw, s.nodes, n, (k, v));
      }
    }
  }

  lemma OnlyLeaf(lw: nat, s: Shape, n: Id, x: Id, kv: (LKey, Word))
    requires Struct(s, Normal) && LeavesOk(lw, s) && n in s.nodes && s.nodes[n].Leaf? && s.lo[n] <= kv.0.ikey < s.hi[n]
    requires HoldsAt(lw, s.nodes, x, kv)
    ensures x == n
  {
    assert LeafOk(lw, s.nodes[x], s.lo[x], s.hi[x]);
    RouteUnique(s, n, kv.0.ikey);
    RouteUnique(s, x, kv.0.ikey);
  }

  lemma OneEntry(lw: nat, n: Node, k: LKey, i: nat, p: Option<nat>, v: Word)
    requires Arrays(lw, n) && Sorted(Entries(lw, n)) && Found(lw, n, k, i, p) && (k, v) in Entries(lw, n)
    ensures p.Some? && n.lv[p.value] == v
  {
    var es := Entries(lw, n);
    var j :| 0 <= j < |es| && es[j] == (k, v);
    if p.Some? {
      assert es[i].0 == es[j].0 && i == j;
    }
  }

  // ---------- slot 0 ----------
  // Slot 0 of a leaf that has a predecessor never changes and bounds the leaf's live ikeys from below.
  lemma SlotZeroFixed(lw: nat, s: Shape, t: Shape, x: Id)
    requires Struct(s, Normal) && LeavesOk(lw, s) && Struct(t, Normal) && LeavesOk(lw, t) && StartsKept(s, t)
    requires x in s.nodes && x in t.nodes && t.nodes[x].Leaf?
    ensures s.nodes[x].Leaf? && Arrays(lw, s.nodes[x]) && Arrays(lw, t.nodes[x])
    ensures s.nodes[x].prev.Some? ==> lw > 0 && t.nodes[x].prev.Some? && t.nodes[x].ikey[0] == s.nodes[x].ikey[0]
    ensures s.nodes[x].prev.Some? ==> forall i :: 0 <= i < |Entries(lw, t.nodes[x])| ==>
      t.nodes[x].ikey[0] <= Entries(lw, t.nodes[x])[i].0.ikey
  {
    assert ListOk(s, Normal, x) && ListOk(t, Normal, x);
    assert LeafOk(lw, s.nodes[x], s.lo[x], s.hi[x]) && LeafOk(lw, t.nodes[x], t.lo[x], t.hi[x]);
  }

  // ---------- when the midpoint search can run out of slots ----------
  ghost predicate Stuck(lw: nat, n: Node, lo: nat, hi: nat, k: LKey, i: nat) {
    && lw > 0 && LeafOk(lw, n, lo, hi) && lo <= k.ikey < hi && Proper(k) && Rank(Entries(lw, n), k, i)
    && n.perm.size + 1 >= lw && NeedsSplit(lw, n, k) && !Mixed(lw, n, k)
  }

  // a full leaf that holds the empty key and the keys of one, two and more zero bytes
  function StuckLeaf(lw: nat): Node {
    Leaf(Perm(seq(lw, i => i), lw), seq(lw, i => 0), seq(lw, i => i), seq(lw, i => 0), None, None, None)
  }

  // the key of m zero bytes
  function ZeroKey(m: nat): LKey { LKey(0, m) }

  lemma ZeroKeyProper(m: nat)
    ensures m <= 9 ==> Proper(ZeroKey(m))
  { ZeroZeros(8 - if m < 8 then m else 8); }

  // A leaf that must split while all its ikeys and the new one agree exists exactly for widths up to nine.
  lemma StuckIff(lw: nat)
    requires lw >= 3
    ensures (exists n, lo, hi, k, i :: Stuck(lw, n, lo, hi, k, i)) <==> lw <= 9
  {
    if lw <= 9 {
      var n := StuckLeaf(lw);
      forall j: nat | j < lw ensures Entries(lw, n)[j] == (ZeroKey(j), 0) && Proper(ZeroKey(j)) { ZeroKeyProper(j); }
      ZeroKeyProper(lw);
      assert Stuck(lw, n, 0, 1, ZeroKey(lw), lw);
    }
    if n, lo, hi, k, i :| Stuck(lw, n, lo, hi, k, i) && lw >= 10 {
      WideIsMixed(lw, n, lo, hi, k, i);
    }
  }

  // no leaf of the layer is stuck for k
  ghost predicate NeverStuck(lw: nat, s: Shape, k: LKey) {
    forall x, i: nat :: x in s.nodes && x in s.lo && x in s.hi && s.nodes[x].Leaf? ==>
      !Stuck(lw, s.nodes[x], s.lo[x], s.hi[x], k, i)
  }

  // Then no distance from the middle stops the search: both tests of the loop fail for ever.
  lemma SearchNeverStops(lw: nat, n: Node, lo: nat, hi: nat, k: LKey, i: nat, midl: int, midr: nat)
    requires Stuck(lw, n, lo, hi, k, i)
    ensures var f := Keys(Full(lw, n, k, i));
      !(midr < |f| && k.ikey != f[midr]) && !(0 <= midl < |f| && k.ikey != f[midl])
  {
    var f := Full(lw, n, k, i);
    assert forall j :: 0 <= j < |f| ==>
      f[j] == if j < i then Entries(lw, n)[j] else if j == i then (k, 0) else Entries(lw, n)[j-1];
  }
}
