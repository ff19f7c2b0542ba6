module LayerTree {
  import opened Options
  import opened PermSpec
  import opened LayerModel
  import opened LayerGrow
  import opened LayerShrink
  import opened LayerLeaf
  import opened LayerSplit
  import opened LayerRemoval

  class Layer {
    const lw: nat    // slots in a leaf
    const iw: nat    // separators in an internode
    var nodes: Nodes
    var root: Id
    var nextId: Id
    ghost var lo: map<Id, nat>
    ghost var hi: map<Id, nat>

    ghost function Sh(): Shape reads this { Shape(nodes, root, lo, hi) }

    ghost predicate Valid() reads this {
      && lw >= 3 && iw >= 1
      && Struct(Sh(), Normal) && LeavesOk(lw, Sh()) && WidthsOk(iw, nodes) && IdsOk(nodes, nextId)
    }

    ghost function Contents(): iset<(LKey, Word)> reads this {
      iset kv | Holds(lw, nodes, kv)
    }

    constructor (leafWidth: nat, innerWidth: nat)
      requires leafWidth >= 3 && innerWidth >= 1
      ensures Valid() && NoEmpty(nodes, None) && Contents() == iset{} && lw == leafWidth && iw == innerWidth
    {
      lw, iw := leafWidth, innerWidth;
      var zeros := seq(leafWidth, _ => 0);
      nodes := map[0 := Leaf(MakeSorted(leafWidth, 0), zeros, zeros, zeros, None, None, None)];
      root, nextId := 0, 1;
      lo, hi := map[0 := 0], map[0 := TOP];
      new;
      MakeSortedOk(lw, 0);
    }

    // the leaf whose range holds x, from the root down
    method ReachLeaf(x: nat) returns (n: Id)
      requires Valid() && x < TOP
      ensures n in nodes && nodes[n].Leaf? && lo[n] <= x < hi[n] && n == Route(Sh(), root, x)
    {
      n := root;
      while nodes[n].Inner?
        invariant n in nodes && lo[n] <= x < hi[n] && Route(Sh(), root, x) == Route(Sh(), n, x)
        decreases Height(nodes[n])
      {
        Step(Sh(), n, x);
        var kp := Upper(nodes[n].keys, x);
        n := nodes[n].child[kp].value;
      }
    }

    method MakeRoot(n: Id, child: Id, xikey: nat)
      requires Struct(Sh(), Pend(n, child)) && IdsOk(nodes, nextId) && xikey == lo[child]
      modifies this
      ensures Sh() == NewRoot(old(Sh()), n, child, old(nextId)) && nextId == old(nextId) + 1
    {
      var nn := nextId;
      nextId := nextId + 1;
      nodes := nodes[nn := Inner(Height(nodes[n]) + 1, [xikey], [Some(n), Some(child)], None)];
      nodes := nodes[n := nodes[n].(parent := Some(nn))];
      nodes := nodes[child := nodes[child].(parent := Some(nn))];
      root := nn;
      lo, hi := lo[nn := 0], hi[nn := TOP];
    }

    method MakeBetween(n: Id, child: Id, p: Id, kp: nat, xikey: nat)
      requires n in nodes && child in nodes && n in lo && child in lo && child in hi && n != child
      requires nextId !in nodes && xikey == lo[child] && ParentAt(Sh(), n, p, kp) && p != n && p != child
      modifies this
      ensures Sh() == Interpose(old(Sh()), n, child, p, kp, old(nextId)) && nextId == old(nextId) + 1
    {
      var nn := nextId;
      nextId := nextId + 1;
      lo, hi := lo[nn := lo[n]], hi[nn := hi[child]];
      nodes := nodes[nn := Inner(Height(nodes[n]) + 1, [xikey], [Some(n), Some(child)], Some(p))];
      nodes := nodes[n := nodes[n].(parent := Some(nn))];
      nodes := nodes[child := nodes[child].(parent := Some(nn))];
      nodes := nodes[p := nodes[p].(child := nodes[p].child[kp := Some(nn)])];
    }

    method InsertSeparator(n: Id, child: Id, p: Id, kp: nat, xikey: nat)
      requires Struct(Sh(), Pend(n, child)) && xikey == lo[child] && ParentAt(Sh(), n, p, kp) && p != n && p != child
      requires kp <= |nodes[p].keys|
      modifies this`nodes
      ensures Sh() == Attach(old(Sh()), child, p, kp)
    {
      var q := nodes[p];
      nodes := nodes[p := q.(keys := q.keys[..kp] + [xikey] + q.keys[kp..],
        child := q.child[..kp+1] + [Some(child)] + q.child[kp+1..])];
      nodes := nodes[child := nodes[child].(parent := Some(p))];
    }

    // the loop of internode::split_into over the children that moved
    method AdoptChildren(cs: seq<Option<Id>>, q: Id)
      requires forall i :: 0 <= i < |cs| ==> cs[i].Some? && cs[i].value in nodes
      modifies this`nodes
      ensures nodes == SetParents(old(nodes), cs, q)
    {
      assert SetParents(nodes, cs[..0], q) == nodes;
      for i := 0 to |cs|
        invariant nodes == SetParents(old(nodes), cs[..i], q)
      {
        var c := cs[i].value;
        nodes := nodes[c := nodes[c].(parent := Some(q))];
        assert cs[..i+1] == cs[..i] + [cs[i]];
      }
      assert cs[..|cs|] == cs;
    }

    // internode::split_into, then the insertion that make_split does when the new child stays left
    method SplitInternode(child: Id, p: Id, kp: nat, xikey: nat, splitType: nat) returns (q: Id, splitIkey: nat)
      requires iw >= 1 && nextId >= 0
      requires var mid := if splitType == 2 then iw else (iw + 1) / 2;
        InnerSplitPre(Sh(), child, p, kp, nextId, mid) && |nodes[p].keys| == iw
      requires xikey == lo[child]
      requires forall j :: 0 <= j <= iw && nodes[p].child[j].Some? ==> nodes[p].child[j].value in nodes
      requires forall j :: 1 <= j <= iw ==> nodes[p].child[j].Some?
      modifies this
      ensures q == old(nextId) && nextId == old(nextId) + 1
      ensures var mid := if splitType == 2 then iw else (iw + 1) / 2;
        InnerSplitPre(old(Sh()), child, p, kp, q, mid) && Sh() == Cut(Attach(old(Sh()), child, p, kp), p, q, mid)
          && splitIkey == lo[q]
    {
      ghost var s := Sh();
      var mid := if splitType == 2 then iw else (iw + 1) / 2;
      var n := nodes[p];
      q := nextId;
      nextId := nextId + 1;
      var right: Node, l: Node;
      right, splitIkey, l := SplitPieces(n, kp, xikey, child, mid);
      nodes := nodes[q := right];
      AdoptChildren(right.child, q);
      SplitResult(s, child, p, kp, q, mid, right, if kp < mid then WithChild(l, kp, xikey, child) else l);
      if kp < mid {
        nodes := nodes[p := WithChild(l, kp, xikey, child)];
        nodes := nodes[child := nodes[child].(parent := Some(p))];
      } else {
        nodes := nodes[p := l];
      }
      lo, hi := lo[q := splitIkey], hi[q := hi[p]][p := splitIkey];
    }

    // what a round of the climb leaves: m is what is still unfinished
    ghost predicate Climbed(s: Shape, nn: Id, m: Mode) reads this {
      && Struct(Sh(), m) && WidthsOk(iw, nodes) && IdsOk(nodes, nextId) && nextId >= nn
      && s.nodes.Keys == s.lo.Keys == s.hi.Keys && LeavesKept(s, Sh())
    }

    method StepAtRoot(n: Id, child: Id, xikey: nat, ghost splitType: nat)
      requires Struct(Sh(), Pend(n, child)) && WidthsOk(iw, nodes) && IdsOk(nodes, nextId) && iw >= 1
      requires xikey == lo[child] && nodes[n].parent.None?
      modifies this
      ensures Climbed(old(Sh()), old(nextId), Normal)
      ensures forall p, q :: Rounded(iw, splitType, old(Sh()), n, child, old(nextId), Sh(), false, p, q)
    {
      ghost var s := Sh();
      assert n != root ==> ParentOk(s, Pend(n, child), n);
      hide InnersOk; hide ParentsOk; hide ListsOk; hide WidthsOk; hide LeavesKept; hide IdsOk; hide Rounded;
      GrowRoot(s, n, child, nextId);
      NewRootKeeps(s, n, child, nextId, iw);
      forall p, q ensures Rounded(iw, splitType, s, n, child, nextId, NewRoot(s, n, child, nextId), false, p, q) {
        RoundRoot(iw, splitType, s, n, child, nextId, p, q);
      }
      MakeRoot(n, child, xikey);
    }

    method StepInGap(n: Id, child: Id, xikey: nat, p: Id, kp: nat, ghost splitType: nat)
      requires Struct(Sh(), Pend(n, child)) && WidthsOk(iw, nodes) && IdsOk(nodes, nextId) && iw >= 1
      requires xikey == lo[child] && nodes[n].parent == Some(p) && p in nodes && nodes[p].Inner? && p != n && p != child
      requires ParentAt(Sh(), n, p, kp) && kp == Upper(nodes[p].keys, xikey) && nodes[p].height > Height(nodes[n]) + 1
      requires kp <= |nodes[p].keys| && |nodes[p].child| == |nodes[p].keys| + 1
      modifies this
      ensures Climbed(old(Sh()), old(nextId), Normal)
      ensures forall q :: Rounded(iw, splitType, old(Sh()), n, child, old(nextId), Sh(), false, p, q)
    {
      ghost var s := Sh();
      hide InnersOk; hide ParentsOk; hide ListsOk; hide WidthsOk; hide LeavesKept; hide Rounded;
      InterposeUnder(s, n, child, p, kp, nextId);
      InterposeKeeps(s, n, child, p, kp, nextId, iw);
      forall q ensures Rounded(iw, splitType, s, n, child, nextId, Interpose(s, n, child, p, kp, nextId), false, p, q) {
        RoundBetween(iw, splitType, s, n, child, nextId, p, kp, q);
      }
      MakeBetween(n, child, p, kp, xikey);
    }

    method StepAtParent(n: Id, child: Id, xikey: nat, p: Id, kp: nat, splitType: nat)
      returns (more: bool, q: Id, splitIkey: nat)
      requires Struct(Sh(), Pend(n, child)) && WidthsOk(iw, nodes) && IdsOk(nodes, nextId) && iw >= 1
      requires xikey == lo[child] && nodes[n].parent == Some(p) && p in nodes && nodes[p].Inner? && p != n && p != child
      requires ParentAt(Sh(), n, p, kp) && kp == Upper(nodes[p].keys, xikey)
      requires Height(nodes[n]) < nodes[p].height <= Height(nodes[n]) + 1
      requires kp <= |nodes[p].keys| && |nodes[p].child| == |nodes[p].keys| + 1
      modifies this
      ensures Climbed(old(Sh()), old(nextId), if more then Pend(p, q) else Normal)
      ensures more ==>
        splitIkey == lo[q] && Height(nodes[p]) == old(Height(nodes[n])) + 1 && root == old(root)
        && Height(nodes[root]) == old(Height(nodes[root]))
      ensures Rounded(iw, splitType, old(Sh()), n, child, old(nextId), Sh(), more, p, q)
    {
      ghost var s := Sh();
      hide InnersOk; hide ParentsOk; hide ListsOk; hide WidthsOk; hide LeavesKept; hide ParentOk; hide Rounded;
      hide Attach; hide Cut; hide ModeOk; hide InnerSplitPre;
      more, q, splitIkey := false, child, 0;
      if |nodes[p].keys| >= iw {
        CutAll(s, n, child, p, kp, nextId, iw, splitType);
        q, splitIkey := SplitInternode(child, p, kp, xikey, splitType);
        more := true;
      } else {
        AttachAll(s, n, child, p, kp, nextId, iw, splitType);
        InsertSeparator(n, child, p, kp, xikey);
      }
    }

    // one round of the climb in make_split: the new sibling child of n finds its place above
    method ParentStep(n: Id, child: Id, xikey: nat, splitType: nat, height: nat)
      returns (more: bool, p: Id, q: Id, splitIkey: nat)
      requires iw >= 1 && Struct(Sh(), Pend(n, child)) && WidthsOk(iw, nodes) && IdsOk(nodes, nextId)
      requires xikey == lo[child] && height == Height(nodes[n])
      modifies this
      ensures Climbed(old(Sh()), old(nextId), if more then Pend(p, q) else Normal)
      ensures more ==>
        splitIkey == lo[q] && Height(nodes[p]) == height + 1 && root == old(root)
        && Height(nodes[root]) == old(Height(nodes[root]))
      ensures Rounded(iw, splitType, old(Sh()), n, child, old(nextId), Sh(), more, p, q)
    {
      hide InnersOk; hide ParentsOk; hide ListsOk; hide WidthsOk; hide LeavesKept; hide ParentOk; hide Rounded;
      more, p, q, splitIkey := false, n, child, 0;
      if nodes[n].parent.None? {
        StepAtRoot(n, child, xikey, splitType);
        return;
      }
      p := nodes[n].parent.value;
      AtUpper(Sh(), n, child);
      var kp := Upper(nodes[p].keys, xikey);
      if nodes[p].height > height + 1 {
        StepInGap(n, child, xikey, p, kp, splitType);
      } else {
        more, q, splitIkey := StepAtParent(n, child, xikey, p, kp, splitType);
      }
    }

    // the end of leaf::split_into: the right half goes into the leaf list
    method LinkRight(n: Id, right: Node) returns (q: Id)
      requires Domains(Sh(), Normal) && ListsOk(Sh(), Normal) && n in nodes && nodes[n].Leaf? && nextId !in nodes
      requires right.Leaf? && |right.ikey| > 0 && lo[n] < right.ikey[0] < hi[n]
      modifies this
      ensures q == old(nextId) && nextId == q + 1
      ensures LinkSplit.requires(old(nodes), n, q, right)
        && Sh() == SplitLeafShape(old(Sh()), n, q, right, right.ikey[0])
      ensures old(WidthsOk(iw, nodes)) ==> WidthsOk(iw, nodes)
    {
      assert ListOk(Sh(), Normal, n);
      NextIsOther(Sh(), Normal, n);
      q := nextId;
      nextId := nextId + 1;
      var next := nodes[n].next;
      nodes := nodes[q := right.(prev := Some(n), next := next)];
      nodes := nodes[n := nodes[n].(next := Some(q))];
      if next.Some? {
        nodes := nodes[next.value := nodes[next.value].(prev := Some(q))];
      }
      lo, hi := lo[q := right.ikey[0]], hi[q := hi[n]][n := right.ikey[0]];
    }

    // make_split, "complete split by stripping shifted items from left node"
    method StripLeft(n: Id, q: Id, splitType: nat, k: LKey, ghost t: Shape, ghost m: Mode)
      requires lw > 0 && !m.Hole? && Struct(Sh(), m) && WidthsOk(iw, nodes) && IdsOk(nodes, nextId)
      requires t.nodes.Keys == t.lo.Keys == t.hi.Keys && LeavesKept(t, Sh()) && n in t.nodes && q in t.nodes && n != q
      requires t.nodes[q].Leaf? && Arrays(lw, t.nodes[n]) && t.nodes[q].perm.size <= t.nodes[n].perm.size
      modifies this`nodes
      ensures Struct(Sh(), m) && WidthsOk(iw, nodes) && IdsOk(nodes, nextId)
      ensures Stripped(lw, t, n, q, k, splitType == 0).nodes.Keys == t.nodes.Keys
      ensures LeavesKept(Stripped(lw, t, n, q, k, splitType == 0), Sh())
      ensures nodes.Keys == old(nodes.Keys) && forall x :: x in nodes ==> Height(nodes[x]) == Height(old(nodes)[x])
      ensures Stripped.requires(lw, old(Sh()), n, q, k, splitType == 0)
        && Sh() == Stripped(lw, old(Sh()), n, q, k, splitType == 0)
    {
      hide Struct; hide WidthsOk; hide IdsOk; hide LeavesKept; hide Arrays;
      StripStep(lw, iw, t, Sh(), nextId, n, q, k, splitType == 0, m);
      DoStrip(n, q, splitType, k);
    }

    method DoStrip(n: Id, q: Id, splitType: nat, k: LKey)
      requires n in nodes && q in nodes && nodes[q].Leaf? && Arrays(lw, nodes[n]) && lw > 0
        && nodes[q].perm.size <= nodes[n].perm.size
      modifies this`nodes
      ensures Sh() == Stripped(lw, old(Sh()), n, q, k, splitType == 0)
    {
      var cut := nodes[n].perm.size - nodes[q].perm.size;
      var nl := Strip(lw, nodes[n], cut);
      if splitType == 0 {
        StripBack(lw, nodes[n], cut);
        nl := Assign(nl, Back(nl.perm), k, 0);
      }
      nodes := nodes[n := nl];
    }

    // one round, and the stripping of the left leaf n after the first one; t1 is the tree with n stripped
    method ClimbRound(n: Id, q: Id, cur: Id, child: Id, xikey: nat, splitType: nat, height: nat, k: LKey,
                      ghost t0: Shape, ghost t1: Shape)
      returns (more: bool, p: Id, r: Id, x: nat)
      requires n != q && lw > 0 && iw >= 1 && Struct(Sh(), Pend(cur, child)) && WidthsOk(iw, nodes)
        && IdsOk(nodes, nextId)
      requires xikey == lo[child] && height == Height(nodes[cur])
      requires t0.nodes.Keys == t0.lo.Keys == t0.hi.Keys && n in t0.nodes && q in t0.nodes && t0.nodes[q].Leaf?
        && Arrays(lw, t0.nodes[n]) && t0.nodes[q].perm.size <= t0.nodes[n].perm.size
      requires t1 == Stripped(lw, t0, n, q, k, splitType == 0) && t1.nodes.Keys == t1.lo.Keys == t1.hi.Keys
      requires if cur == n then Sh() == t0 && child == q else LeavesKept(t1, Sh())
      modifies this
      ensures Struct(Sh(), if more then Pend(p, r) else Normal) && WidthsOk(iw, nodes) && IdsOk(nodes, nextId)
      ensures LeavesKept(t1, Sh())
      ensures more ==> x == lo[r] && Height(nodes[p]) == height + 1 && Height(nodes[root]) == old(Height(nodes[root]))
      ensures Link(lw, iw, splitType, k, cur == n, Round(old(Sh()), cur, child, old(nextId)), Sh(), more, p, r)
    {
      hide InnersOk; hide ParentsOk; hide ListsOk; hide WidthsOk; hide Entries; hide PermOk; hide ModeOk;
      hide LeavesKept; hide Rounded; hide Link; hide IdsOk; hide Stripped;
      ghost var u := Sh();
      ghost var next := nextId;
      more, p, r, x := ParentStep(cur, child, xikey, splitType, height);
      ghost var t := Sh();
      if cur == n {
        StripLeft(n, q, splitType, k, t0, if more then Pend(p, r) else Normal);
      } else {
        KeptTrans(t1, u, Sh());
      }
      LinkIs(lw, iw, splitType, k, cur == n, Round(u, cur, child, next), t, Sh(), more, p, r);
    }

    // the loop of make_split: the new sibling is made reachable, and whatever split on the way up
    method ClimbAndStrip(n: Id, q: Id, xikey0: nat, splitType0: nat, k: LKey) returns (ghost rounds: seq<Round>)
      requires n != q && lw > 0 && iw >= 1 && Struct(Sh(), Pend(n, q)) && WidthsOk(iw, nodes) && IdsOk(nodes, nextId)
      requires nodes[n].Leaf? && nodes[q].Leaf? && Arrays(lw, nodes[n]) && nodes[q].perm.size <= nodes[n].perm.size
      requires xikey0 == lo[q]
      modifies this
      ensures Struct(Sh(), Normal) && WidthsOk(iw, nodes) && IdsOk(nodes, nextId)
      ensures LeavesKept(Stripped(lw, old(Sh()), n, q, k, splitType0 == 0), Sh())
      ensures WholeClimb(lw, iw, splitType0, k, rounds, Sh()) && rounds[0] == Round(old(Sh()), n, q, old(nextId))
    {
      hide InnersOk; hide ParentsOk; hide ListsOk; hide WidthsOk; hide Entries; hide PermOk; hide ModeOk;
      hide LeavesKept; hide Link; hide Linked; hide IdsOk; hide Arrays;
      ghost var t0, t1 := Sh(), Stripped(lw, Sh(), n, q, k, splitType0 == 0);
      assert t1.nodes.Keys == t1.lo.Keys == t1.hi.Keys && t1.nodes[n].Leaf?;
      hide Stripped;
      ghost var next0 := nextId;
      var cur, child, xikey, height := n, q, xikey0, 0;
      rounds := [Round(Sh(), n, q, nextId)];
      LinkedOne(lw, iw, splitType0, k, rounds);
      while true
        invariant Struct(Sh(), Pend(cur, child)) && WidthsOk(iw, nodes) && IdsOk(nodes, nextId)
        invariant xikey == lo[child] && height == Height(nodes[cur])
        invariant if cur == n then Sh() == t0 && child == q else LeavesKept(t1, Sh())
        invariant rounds != [] && Linked(lw, iw, splitType0, k, rounds) && rounds[0] == Round(t0, n, q, next0)
        invariant rounds[|rounds| - 1] == Round(Sh(), cur, child, nextId)
        invariant (cur == n <==> height == 0) && (|rounds| == 1 <==> height == 0)
        decreases Height(nodes[root]) - height
      {
        var more, p, r, x := ClimbRound(n, q, cur, child, xikey, splitType0, height, k, t0, t1);
        if !more { break; }
        SizeKept(t1, Sh(), n);
        LinkedMore(lw, iw, splitType0, k, rounds, Sh(), p, r, nextId);
        rounds := rounds + [Round(Sh(), p, r, nextId)];
        cur, child, xikey, height := p, r, x, height + 1;
      }
    }

    // leaf::split_into: both halves are in the list, the old one not yet stripped, the new one not yet in the tree
    method SplitLeafInto(n: Id, i: nat, k: LKey) returns (q: Id, mid: nat, splitType: nat, ghost t: Shape)
      requires Valid() && n in nodes && nodes[n].Leaf? && lo[n] <= k.ikey < hi[n] && Proper(k)
      requires LeafOk(lw, nodes[n], lo[n], hi[n]) && Rank(Entries(lw, nodes[n]), k, i)
      requires NeedsSplit(lw, nodes[n], k) && nodes[n].perm.size + 1 >= lw && Mixed(lw, nodes[n], k)
      modifies this
      ensures Struct(Sh(), Pend(n, q)) && nodes[n].Leaf? && nodes[q].Leaf? && |nodes[q].ikey| > 0
        && nodes[q].ikey[0] == lo[q]
      ensures Arrays(lw, nodes[n]) && nodes[q].perm.size <= nodes[n].perm.size
        && t == Stripped(lw, Sh(), n, q, k, splitType == 0)
      ensures t.nodes.Keys == t.lo.Keys == t.hi.Keys && Spread(lw, old(Sh()), t, n, q)
      ensures if splitType == 0 then Ready(lw, t, n, k, i) else mid <= i && Ready(lw, t, q, k, i - mid)
      ensures HalvesFilled(t, n, q, splitType == 0)
      ensures Nearest(Keys(Full(lw, old(nodes[n]), k, i)), FirstMid(lw, old(nodes[n]), i), mid)
        && splitType == SplitType(i, mid, old(nodes[n].perm.size))
      ensures IdsOk(nodes, nextId) && WidthsOk(iw, nodes)
    {
      hide InnersOk; hide ParentsOk; hide LeavesKept; hide LeavesOk; hide Spread; hide Ready; hide Entries;
      hide LinkSplit; hide HalvesFilled; hide Nearest; hide Full; hide Keys;
      var right: Node;
      mid, right, splitType := CutLeaf(lw, nodes[n], k, i, lo[n], hi[n]);
      SplitLeafAll(lw, Sh(), n, nextId, k, i, mid, right);
      t := Stripped(lw, SplitLeafShape(Sh(), n, nextId, right, right.ikey[0]), n, nextId, k, i < mid);
      q := LinkRight(n, right);
    }

    method SplitAndClimb(n: Id, i: nat, k: LKey) returns (n': Id, i': nat, ghost mid: nat, ghost rounds: seq<Round>)
      requires Valid() && n in nodes && nodes[n].Leaf? && lo[n] <= k.ikey < hi[n] && Proper(k)
      requires LeafOk(lw, nodes[n], lo[n], hi[n]) && Rank(Entries(lw, nodes[n]), k, i)
      requires NeedsSplit(lw, nodes[n], k) && nodes[n].perm.size + 1 >= lw && Mixed(lw, nodes[n], k)
      modifies this
      ensures Valid() && Ready(lw, Sh(), n', k, i')
      ensures Contents() == old(Contents()) && StartsKept(old(Sh()), Sh())
      ensures old(NoEmpty(nodes, None)) ==> NoEmpty(nodes, Some(n'))
      ensures Nearest(Keys(Full(lw, old(nodes[n]), k, i)), FirstMid(lw, old(nodes[n]), i), mid)
      ensures WholeClimb(lw, iw, SplitType(i, mid, old(nodes[n].perm.size)), k, rounds, Sh()) && rounds[0].n == n
    {
      hide InnersOk; hide ParentsOk; hide ListsOk; hide LeavesKept; hide LeavesOk; hide Spread; hide LeafOk; hide Rank;
      hide Mixed; hide Stripped; hide Ready; hide NoEmpty;
      ghost var s := Sh();
      hide Nearest; hide WholeClimb;
      var q, m, splitType, t := SplitLeafInto(n, i, k);
      mid := m;
      rounds := ClimbAndStrip(n, q, nodes[q].ikey[0], splitType, k);
      SpreadKept(lw, s, t, Sh(), n, q);
      SpreadOk(lw, s, Sh(), n, q);
      if splitType == 0 { n', i' := n, i; } else { n', i' := q, i - m; }
      ReadyKept(lw, t, Sh(), n', k, i');
      SizeKept(t, Sh(), n);
      SizeKept(t, Sh(), q);
      SpreadNoEmpty(lw, s, Sh(), n, q, n');
    }

    // make_split when the leaf has room: slot 0 is moved out of the way if another slot is free
    method AvoidSlotZero(n: Id, i: nat, k: LKey) returns (done: bool)
      requires Valid() && n in nodes && nodes[n].Leaf? && lo[n] <= k.ikey < hi[n]
      requires LeafOk(lw, nodes[n], lo[n], hi[n]) && Rank(Entries(lw, nodes[n]), k, i)
      requires nodes[n].perm.size < lw && Back(nodes[n].perm) == 0
      modifies this`nodes
      ensures done == old(nodes[n].perm.size + 1 < lw)
      ensures done ==>
        Valid() && Ready(lw, Sh(), n, k, i) && Contents() == old(Contents()) && StartsKept(old(Sh()), Sh())
        && (old(NoEmpty(nodes, None)) ==> NoEmpty(nodes, Some(n)))
      ensures !done ==> nodes == old(nodes)
    {
      hide InnersOk; hide ParentsOk; hide ListsOk; hide LeavesOk;
      var leaf := nodes[n];
      ExchangeEntries(lw, leaf, leaf.perm.size, lw - 1);
      leaf := leaf.(perm := Exchange(leaf.perm, leaf.perm.size, lw - 1));
      done := Back(leaf.perm) != 0;
      if done {
        AssignOk(lw, leaf, lo[n], hi[n], k);
        leaf := Assign(leaf, Back(leaf.perm), k, 0);
        OneLeaf(lw, Sh(), n, leaf);
        nodes := nodes[n := leaf];
      }
    }

    method MakeSplit(n: Id, i: nat, k: LKey) returns (n': Id, i': nat)
      requires Valid() && n in nodes && nodes[n].Leaf? && lo[n] <= k.ikey < hi[n] && Proper(k)
      requires LeafOk(lw, nodes[n], lo[n], hi[n]) && Rank(Entries(lw, nodes[n]), k, i)
      requires NeedsSplit(lw, nodes[n], k) && (nodes[n].perm.size + 1 >= lw ==> Mixed(lw, nodes[n], k))
      modifies this
      ensures Valid() && Ready(lw, Sh(), n', k, i')
      ensures Contents() == old(Contents()) && StartsKept(old(Sh()), Sh())
      ensures old(NoEmpty(nodes, None)) ==> NoEmpty(nodes, Some(n'))
    {
      if nodes[n].perm.size < lw {
        var done := AvoidSlotZero(n, i, k);
        if done { return n, i; }
      }
      ghost var mid, rounds;
      n', i', mid, rounds := SplitAndClimb(n, i, k);
    }

    // find_locked: the leaf for k and k's place in it; p is the slot when k is there
    method Find(k: LKey) returns (n: Id, i: nat, p: Option<nat>)
      requires Valid() && k.ikey < TOP
      ensures n in nodes && nodes[n].Leaf? && lo[n] <= k.ikey < hi[n] && LeafOk(lw, nodes[n], lo[n], hi[n])
      ensures Found(lw, nodes[n], k, i, p)
      ensures forall v :: (k, v) in Contents() <==> p.Some? && v == nodes[n].lv[p.value]
    {
      n := ReachLeaf(k.ikey);
      assert LeafOk(lw, nodes[n], lo[n], hi[n]);
      i, p := Lower(lw, nodes[n], k);
      FoundHere(lw, Sh(), n, k, i, p);
    }

    method Get(k: LKey) returns (v: Option<Word>)
      requires Valid() && k.ikey < TOP
      ensures forall w :: (k, w) in Contents() <==> v == Some(w)
    {
      var n, i, p := Find(k);
      v := if p.None? then None else Some(nodes[n].lv[p.value]);
    }

    // find_insert up to the slot: the new key sits in a free slot of the leaf that will hold it
    method FindInsert(k: LKey) returns (found: bool, n: Id, i: nat)
      requires Valid() && Proper(k)
      requires lw >= 10 || NeverStuck(lw, Sh(), k)
      modifies this
      ensures Valid() && Contents() == old(Contents()) && StartsKept(old(Sh()), Sh())
      ensures found <==> exists v :: (k, v) in Contents()
      ensures !found ==> Ready(lw, Sh(), n, k, i) && (old(NoEmpty(nodes, None)) ==> NoEmpty(nodes, Some(n)))
      ensures found ==> Sh() == old(Sh())
    {
      hide InnersOk; hide ParentsOk; hide ListsOk; hide LeavesOk; hide Rank; hide Mixed; hide Sorted; hide InRange;
      hide KeyAt; hide Entries; hide Holds; hide HoldsAt;
      var p;
      n, i, p := Find(k);
      found := p.Some?;
      assert found ==> (k, nodes[n].lv[p.value]) in Contents();
      if found { return; }
      FoundRank(lw, nodes[n], k, i);
      if nodes[n].perm.size < lw && (Back(nodes[n].perm) != 0 || nodes[n].prev.None? || nodes[n].ikey[0] == k.ikey) {
        AssignOk(lw, nodes[n], lo[n], hi[n], k);
        var leaf := Assign(nodes[n], Back(nodes[n].perm), k, 0);
        OneLeaf(lw, Sh(), n, leaf);
        nodes := nodes[n := leaf];
        return;
      }
      if nodes[n].perm.size + 1 >= lw && !Mixed(lw, nodes[n], k) {
        if lw >= 10 { WideIsMixed(lw, nodes[n], lo[n], hi[n], k, i); }
        else { assert Stuck(lw, nodes[n], lo[n], hi[n], k, i); }
      }
      n, i := MakeSplit(n, i, k);
    }

    // the caller stores the value, finish_insert publishes the permutation
    method FinishInsert(n: Id, i: nat, k: LKey, v: Word)
      requires Valid() && Ready(lw, Sh(), n, k, i) && Proper(k)
      modifies this`nodes
      ensures Valid() && Contents() == old(Contents()) + iset{(k, v)}
      ensures nodes.Keys == old(nodes.Keys) && StartsKept(old(Sh()), Sh())
      ensures old(NoEmpty(nodes, Some(n))) ==> NoEmpty(nodes, None)
    {
      hide InnersOk; hide ParentsOk; hide ListsOk; hide LeavesOk; hide Holds; hide HoldsAt;
      var leaf := nodes[n];
      BackIsFree(lw, leaf);
      AssignEntries(lw, leaf, Back(leaf.perm), k, v);
      leaf := leaf.(lv := leaf.lv[Back(leaf.perm) := v]);
      assert leaf == Assign(nodes[n], Back(leaf.perm), k, v);
      PublishOk(lw, leaf, lo[n], hi[n], k, v, i);
      leaf := leaf.(perm := InsertFromBack(leaf.perm, i));
      OneLeaf(lw, Sh(), n, leaf);
      InsMember(Entries(lw, nodes[n]), i, (k, v));
      nodes := nodes[n := leaf];
    }

    method Insert(k: LKey, v: Word) returns (inserted: bool)
      requires Valid() && Proper(k)
      requires lw >= 10 || NeverStuck(lw, Sh(), k)
      modifies this
      ensures Valid() && StartsKept(old(Sh()), Sh())
      ensures inserted <==> forall w :: (k, w) !in old(Contents())
      ensures Contents() == if inserted then old(Contents()) + iset{(k, v)} else old(Contents())
      ensures old(NoEmpty(nodes, None)) ==> NoEmpty(nodes, None)
    {
      var found, n, i := FindInsert(k);
      inserted := !found;
      if inserted { FinishInsert(n, i, k, v); }
    }

    // tcursor::redirect: p's range now starts at v; s is the tree before p changed
    method Redirect(p: Id, ikey: nat, v: nat, ghost s: Shape, ghost m: Mode) returns (ghost vs: set<Id>)
      requires Struct(s, m) && NoOrphan(m) && p in s.nodes && s.lo[p] <= ikey < s.hi[p] && s.lo[p] > 0
      requires forall x :: x in nodes && x != p ==> x in s.nodes && nodes[x] == s.nodes[x]
      requires forall x :: x in s.nodes && !Dead(m, x) ==> x in nodes
      requires p in nodes && nodes[p].parent == s.nodes[p].parent
      modifies this`nodes
      ensures nodes == Renamed(old(nodes), vs, s.lo[p], v)
      ensures p !in vs && (forall x :: x in vs ==> x in s.nodes && !Dead(m, x))
      ensures Covered(s, m, p, None, vs)
    {
      hide InnersOk; hide ParentsOk; hide ListsOk; hide ModeOk; hide Covered; hide Renamed; hide RenNode;
      hide NoOrphan; hide Ascending;
      ghost var b := s.lo[p];
      ghost var nodes0 := nodes;
      var n, more := p, true;
      vs := {};
      CoverStart(s, m, p);
      RenamedFacts(nodes, {}, b, v);
      while more
        invariant n in nodes0 && n in s.nodes && s.lo[n] <= ikey < s.hi[n]
          && (if more then s.lo[n] == b else s.lo[n] < b)
        invariant nodes == Renamed(nodes0, vs, b, v)
        invariant forall x :: x in vs ==>
          x in s.nodes && !Dead(m, x) && Height(s.nodes[p]) < Height(s.nodes[x]) <= Height(s.nodes[n])
        invariant Height(s.nodes[p]) <= Height(s.nodes[n])
        invariant Covered(s, m, p, Some(n), vs)
        decreases Height(s.nodes[s.root]) - Height(s.nodes[n])
      {
        RedirectRound(s, m, n, ikey, v);
        CoverStep(s, m, p, n, vs);
        RenamedFacts(nodes0, vs, b, v);
        RenamedStep(nodes0, vs, b, v, s.nodes[n].parent.value);
        var q := nodes[n].parent.value;
        var kp := Upper(nodes[q].keys, ikey);
        if kp > 0 {
          nodes := nodes[q := nodes[q].(keys := nodes[q].keys[kp - 1 := v])];
        }
        vs := vs + {q};
        n := q;
        more := kp == 0 || (kp == 1 && nodes[q].child[0].None?);
      }
      CoverDone(s, m, p, n, vs);
    }

    // the stores of one round of remove_leaf: child pointer, separators, redirect; then n is freed
    method TakeOut(n: Id, repl: Option<Id>, p: Id, kp: nat, ikey: nat) returns (ikey': nat)
      requires Struct(Sh(), Hole(n, repl)) && ParentAt(Sh(), n, p, kp) && p != n
        && |nodes[p].child| == |nodes[p].keys| + 1
      requires lo[p] <= ikey < hi[p] && (repl.Some? ==> repl.value != p && repl.value != n)
      modifies this`nodes, this`lo, this`hi
      ensures Sh() == After(old(Sh()), n, repl, p, kp)
      ensures p in nodes && nodes[p].Inner? && (|nodes[p].keys| == 0 ==> ikey' == ikey)
    {
      hide InnersOk; hide ParentsOk; hide ListsOk; hide ModeOk; hide Covered; hide Renamed; hide RenNode;
      hide Ascending;
      ghost var s := Sh();
      var q := nodes[p].(child := nodes[p].child[kp := repl]);
      if repl.Some? {
        nodes := nodes[repl.value := nodes[repl.value].(parent := Some(p))];
      } else if kp > 0 {
        q := q.(keys := q.keys[..kp-1] + q.keys[kp..], child := q.child[..kp] + q.child[kp+1..]);
      }
      nodes := nodes[p := q] - {n};
      AfterStores(s, n, repl, p, kp, ikey, q, nodes);
      ikey' := ikey;
      ghost var vs := {};
      ghost var nodes0 := nodes;
      if kp <= 1 && |q.keys| > 0 && q.child[0].None? {
        vs := Redirect(p, ikey, q.keys[0],
                       if repl.Some? then After(s, n, repl, p, kp) else s,
                       if repl.Some? then Normal else Hole(n, None));
        ikey' := q.keys[0];
      } else {
        RenamedFacts(nodes, {}, s.lo[n], s.hi[n]);
      }
      RenamedFacts(nodes0, vs, s.lo[n], s.hi[n]);
      if repl.Some? && NeedsRedirect(q, kp) {
        RenamedId(nodes0, vs, q.keys[0]);
      }
      if repl.None? && !Emptied(s, p, kp) { CloseResult(s, n, p, kp, vs); }
      lo, hi := After(s, n, repl, p, kp).lo, After(s, n, repl, p, kp).hi;
    }

    // one round of the climb in remove_leaf: n is taken out of its parent, or gives way to its only child
    method RemoveStep(n: Id, repl: Option<Id>, ikey: nat)
      returns (more: bool, p: Id, repl': Option<Id>, ikey': nat, ghost closed: bool)
      requires Struct(Sh(), Hole(n, repl)) && WidthsOk(iw, nodes) && IdsOk(nodes, nextId) && lo[n] <= ikey < hi[n]
      modifies this`nodes, this`lo, this`hi
      ensures WidthsOk(iw, nodes) && IdsOk(nodes, nextId)
      ensures Struct(Sh(), if more then Hole(p, repl') else Normal)
      ensures more ==>
        lo[p] <= ikey' < hi[p] && nodes[p].Inner? && Height(nodes[p]) > old(Height(nodes[n]))
        && Height(nodes[root]) == old(Height(nodes[root]))
      ensures nodes.Keys == old(nodes.Keys) - {n}
      ensures LeavesClosed(old(Sh()), Sh(), n, closed) && closed == (repl.None? && (more ==> repl'.Some?))
      ensures repl.Some? && more ==> repl'.Some?
      ensures more && repl'.None? ==> lo[p] == old(lo[n]) && hi[p] == old(hi[n])
      ensures NoNewStubs(old(nodes), nodes, root, if more then Some(p) else None)
    {
      hide InnersOk; hide ParentsOk; hide ListsOk; hide ModeOk; hide WidthsOk; hide IdsOk; hide LeavesClosed;
      hide After; hide Emptied; hide Ascending; hide NoNewStubs;
      ghost var s := Sh();
      HoleParent(s, n, repl, ikey);
      p := nodes[n].parent.value;
      var kp := Upper(nodes[p].keys, ikey);
      AfterStruct(s, n, repl, p, kp, ikey);
      AfterFacts(s, n, repl, p, kp, iw, nextId);
      AfterStubs(s, n, repl, p, kp);
      ikey' := TakeOut(n, repl, p, kp, ikey);
      ghost var t := Sh();
      closed := Frees(s, repl, p, kp);
      more := |nodes[p].keys| == 0 && p != root;
      repl' := None;
      if more {
        repl' := DetachChild(p, repl.None? && Emptied(s, p, kp));
        LeavesClosedInner(s, t, Sh(), n, closed, p);
        StubDetached(s.nodes, t.nodes, nodes, root, p, Some(p));
      } else {
        assert !(repl.None? && Emptied(s, p, kp));
        assert closed == repl.None?;
        StubDetached(s.nodes, t.nodes, nodes, root, p, None);
      }
    }

    // an internode without separators dies: its child, if any, will replace it
    method DetachChild(p: Id, ghost empty: bool) returns (r: Option<Id>)
      requires p in nodes && nodes[p].Inner? && |nodes[p].keys| == 0 && p != root
      requires Struct(Sh(), if empty then Hole(p, None) else Normal) && WidthsOk(iw, nodes) && IdsOk(nodes, nextId)
      requires empty ==> nodes[p].child == [None]
      modifies this`nodes
      ensures nodes.Keys == old(nodes.Keys) && forall x :: x in nodes && x != p ==> nodes[x] == old(nodes)[x]
      ensures nodes[p].Inner? && Height(nodes[p]) == old(Height(nodes[p]))
      ensures Struct(Sh(), Hole(p, r)) && WidthsOk(iw, nodes) && IdsOk(nodes, nextId) && (r.None? <==> empty)
    {
      hide InnersOk; hide ParentsOk; hide ListsOk; hide ModeOk;
      if !empty { Collapse(Sh(), p); }
      r := nodes[p].child[0];
      DeadIsFree(Sh(), p, r, nodes[p].(child := nodes[p].child[0 := None]));
      nodes := nodes[p := nodes[p].(child := nodes[p].child[0 := None])];
    }

    // tcursor::remove_leaf: a leaf without predecessor stays, any other one goes
    method RemoveLeaf(d: Id) returns (removed: bool)
      requires Struct(Sh(), Normal) && WidthsOk(iw, nodes) && IdsOk(nodes, nextId) && d in nodes && nodes[d].Leaf?
      requires nodes[d].prev.Some? ==> |nodes[d].ikey| > 0 && nodes[d].ikey[0] == lo[d]
      modifies this`nodes, this`lo, this`hi
      ensures removed == old(nodes[d].prev.Some?)
      ensures !removed ==> Sh() == old(Sh())
      ensures Struct(Sh(), Normal) && WidthsOk(iw, nodes) && IdsOk(nodes, nextId)
      ensures removed ==> d !in nodes && Surviving(old(Sh()), Sh(), d, true) && nodes.Keys <= old(nodes.Keys)
      ensures NoNewStubs(old(nodes), nodes, root, None)
    {
      if nodes[d].prev.None? { return false; }
      hide InnersOk; hide ParentsOk; hide ListsOk; hide ModeOk; hide Surviving; hide LeavesClosed; hide Unlink;
      hide NoNewStubs;
      ghost var s0 := Sh();
      UnlinkLeaf(s0, d);
      UnlinkSurvives(s0, d);
      UnlinkFromList(d);
      UnlinkStubs(s0.nodes, nodes, root, d);
      var ikey := nodes[d].ikey[0];
      var n, repl, more := d, None, true;
      while more
        invariant WidthsOk(iw, nodes) && IdsOk(nodes, nextId)
        invariant Struct(Sh(), if more then Hole(n, repl) else Normal)
        invariant more ==> lo[n] <= ikey < hi[n] && (if n == d then repl.None? else nodes[n].Inner? && d !in nodes)
        invariant more && repl.None? ==> lo[n] == s0.lo[d] && hi[n] == s0.hi[d]
        invariant Surviving(s0, Sh(), d, !more || repl.Some?)
        invariant (!more ==> d !in nodes) && nodes.Keys <= s0.nodes.Keys
        invariant NoNewStubs(s0.nodes, nodes, root, if more then Some(n) else None)
        decreases if more then Height(nodes[root]) - Height(nodes[n]) + 1 else 0
      {
        ghost var s := Sh();
        ghost var c0, n0 := repl.Some?, n;
        ghost var closed;
        more, n, repl, ikey, closed := RemoveStep(n, repl, ikey);
        SurvivingStep(s0, s, Sh(), d, n0, c0, closed);
        StubsTrans(s0.nodes, s.nodes, nodes, root, n0, if more then Some(n) else None);
      }
      removed := true;
    }

    method UnlinkFromList(d: Id)
      requires Unlink.requires(nodes, d)
      modifies this`nodes
      ensures nodes == Unlink(old(nodes), d)
    {
      var prev, next := nodes[d].prev, nodes[d].next;
      if next.Some? {
        nodes := nodes[next.value := nodes[next.value].(prev := prev)];
      }
      nodes := nodes[prev.value := nodes[prev.value].(next := next)];
    }

    // find_locked, then finish_remove
    method Remove(k: LKey) returns (removed: bool)
      requires Valid() && k.ikey < TOP
      modifies this`nodes, this`lo, this`hi
      ensures Valid()
      ensures removed <==> exists v :: (k, v) in old(Contents())
      ensures forall kv :: kv in Contents() <==> kv in old(Contents()) && kv.0 != k
      ensures StartsKept(old(Sh()), Sh()) && RoutesKept(old(Sh()), Sh())
      // a leaf goes exactly when it has a predecessor and nothing but k; an internode goes only with a leaf, and none
      // is left without separators
      ensures nodes.Keys <= old(nodes.Keys) && forall x :: x in old(nodes) && old(nodes)[x].Leaf? ==>
        (x !in nodes <==> Alone(lw, old(nodes)[x], k))
      ensures nodes.Keys == old(nodes.Keys) || exists x :: x in old(nodes) && Alone(lw, old(nodes)[x], k)
      ensures NoNewStubs(old(nodes), nodes, root, None)
      ensures old(NoEmpty(nodes, None)) ==> NoEmpty(nodes, None)
    {
      hide InnersOk; hide ParentsOk; hide ListsOk; hide LeavesOk; hide HoldsAt; hide RoutesKept; hide StartsKept;
      hide NoEmpty; hide NoNewStubs; hide Alone;
      var n, i, p := Find(k);
      AloneHere(lw, Sh(), n, k, i, p);
      removed := p.Some?;
      if !removed {
        SameRoutes(Sh(), Sh());
        SameStubs(nodes, nodes, root);
        return;
      }
      assert (k, nodes[n].lv[p.value]) in Contents();
      TakenOk(lw, Sh(), n, k, i, p);
      FinishRemove(n, i);
    }

    // tcursor::finish_remove: the slot's position is freed, and a leaf that is empty now may go
    method FinishRemove(n: Id, i: nat)
      requires Valid() && n in nodes && nodes[n].Leaf? && Arrays(lw, nodes[n]) && i < nodes[n].perm.size
      requires var leaf := nodes[n].(perm := PermSpec.Remove(nodes[n].perm, i));
        var t := Sh().(nodes := nodes[n := leaf]);
        && Struct(t, Normal) && t.nodes.Keys == nodes.Keys && LeavesOk(lw, t) && LeafOk(lw, leaf, lo[n], hi[n])
        && |Entries(lw, leaf)| == leaf.perm.size && lo[n] < hi[n]
      modifies this`nodes, this`lo, this`hi
      ensures Valid() && StartsKept(old(Sh()), Sh()) && RoutesKept(old(Sh()), Sh())
      ensures var leaf := old(nodes[n]).(perm := PermSpec.Remove(old(nodes[n]).perm, i));
        && (forall kv :: Holds(lw, nodes, kv) <==> Holds(lw, old(nodes)[n := leaf], kv))
        && (n !in nodes <==> leaf.perm.size == 0 && leaf.prev.Some?)
      ensures nodes.Keys <= old(nodes.Keys) && (n in nodes ==> nodes.Keys == old(nodes.Keys))
      ensures forall x :: x in old(nodes) && old(nodes)[x].Leaf? && x != n ==> x in nodes
      ensures NoNewStubs(old(nodes), nodes, root, None)
      ensures old(NoEmpty(nodes, None)) ==> NoEmpty(nodes, None)
    {
      hide InnersOk; hide ParentsOk; hide ListsOk; hide LeavesOk; hide HoldsAt; hide Holds; hide Surviving;
      hide RoutesKept; hide StartsKept; hide NoEmpty; hide NoNewStubs; hide Entries; hide WidthsOk; hide IdsOk;
      ghost var s := Sh();
      var leaf := nodes[n].(perm := PermSpec.Remove(nodes[n].perm, i));
      OneLeafWidths(iw, nodes, nextId, n, leaf);
      nodes := nodes[n := leaf];
      SameStubs(s.nodes, nodes, root);
      TakenNoEmpty(s.nodes, n, leaf);
      ghost var t := Sh();
      var gone := false;
      if leaf.perm.size == 0 { gone := RemoveLeaf(n); }
      if gone {
        SurvivorsOk(lw, t, Sh(), n);
        SurvivorRoutes(t, Sh(), n);
        RoutesTrans(s, n, leaf, Sh());
        SurvivorsNoEmpty(t, Sh(), n);
        StubsTrans(s.nodes, t.nodes, nodes, root, n, None);
      } else {
        SameRoutes(s, Sh());
      }
    }
  }

  // ---------- a run into a stuck leaf ----------
  ghost function ZeroKeys(m: nat): iset<(LKey, Word)> { iset j: nat | j < m :: (ZeroKey(j), 0) }

  // the leaf that has the keys of zero bytes has room for one more, and slot 0 may be used: it starts at ikey 0
  lemma RoomForZero(lw: nat, s: Shape, m: nat)
    requires Struct(s, Normal) && LeavesOk(lw, s) && m < lw && (iset kv | Holds(lw, s.nodes, kv)) == ZeroKeys(m)
    ensures NeverStuck(lw, s, ZeroKey(m))
  {
    forall x, i: nat | x in s.nodes && x in s.lo && x in s.hi && s.nodes[x].Leaf?
      ensures !Stuck(lw, s.nodes[x], s.lo[x], s.hi[x], ZeroKey(m), i)
    {
      if s.lo[x] == 0 && Arrays(lw, s.nodes[x]) {
        assert LeafOk(lw, s.nodes[x], s.lo[x], s.hi[x]);
        OnlyZeros(lw, s.nodes, x, m);
      }
    }
  }

  lemma OnlyZeros(lw: nat, nodes: Nodes, x: Id, m: nat)
    requires x in nodes && nodes[x].Leaf? && Arrays(lw, nodes[x]) && Sorted(Entries(lw, nodes[x]))
    requires (iset kv | Holds(lw, nodes, kv)) == ZeroKeys(m)
    ensures nodes[x].perm.size <= m
    ensures forall i :: 0 <= i < |Entries(lw, nodes[x])| ==>
      exists j: nat :: j < m && Entries(lw, nodes[x])[i] == (ZeroKey(j), 0)
  {
    var es := Entries(lw, nodes[x]);
    forall i | 0 <= i < |es| ensures exists j: nat :: j < m && es[i] == (ZeroKey(j), 0) {
      assert es[i] in es;
      assert HoldsAt(lw, nodes, x, es[i]);
      assert es[i] in ZeroKeys(m);
      var j: nat :| j < m && es[i] == (ZeroKey(j), 0);
    }
    if |es| > 0 { LengthsRise(es, 0, 0, |es| - 1); }
  }

  // with all lw of them in one leaf, the leaf is full and stuck
  lemma {:induction false} ZeroPlace(es: seq<(LKey, Word)>, m: nat, j: nat)
    requires Sorted(es) && j < m && (forall i :: 0 <= i < |es| ==> es[i].0.ikey == 0)
      && forall i: nat :: i < m ==> (ZeroKey(i), 0) in es
    ensures j < |es| && es[j] == (ZeroKey(j), 0)
  {
    if j > 0 { ZeroPlace(es, m, j - 1); }
    var i :| 0 <= i < |es| && es[i] == (ZeroKey(j), 0);
    LengthsRise(es, 0, 0, i);
  }

  lemma FullOfZeros(lw: nat, s: Shape, n: Id)
    requires 3 <= lw <= 9 && Struct(s, Normal) && LeavesOk(lw, s) && (iset kv | Holds(lw, s.nodes, kv)) == ZeroKeys(lw)
    requires n in s.nodes && s.nodes[n].Leaf? && s.lo[n] == 0 < s.hi[n] && LeafOk(lw, s.nodes[n], s.lo[n], s.hi[n])
    ensures Stuck(lw, s.nodes[n], s.lo[n], s.hi[n], ZeroKey(lw), lw)
  {
    var es := Entries(lw, s.nodes[n]);
    OnlyZeros(lw, s.nodes, n, lw);
    forall j: nat | j < lw ensures (ZeroKey(j), 0) in es {
      assert (ZeroKey(j), 0) in ZeroKeys(lw);
      var x :| HoldsAt(lw, s.nodes, x, (ZeroKey(j), 0));
      OnlyLeaf(lw, s, n, x, (ZeroKey(j), 0));
    }
    forall j: nat | j < lw ensures j < |es| && es[j] == (ZeroKey(j), 0) { ZeroPlace(es, lw, j); }
    ZeroPlace(es, lw, lw - 1);
    ZeroKeyProper(lw);
  }

  lemma InRanges(s: Shape, n: Id)
    requires Struct(s, Normal) && n in s.nodes
    ensures n in s.lo && n in s.hi
  { }

  // Inserting the empty key and the keys of 1, 2, ... zero bytes into an empty layer of width up to nine leads to a
  // leaf that cannot be split for the next such key.
  method RunIntoStuck(lw: nat, iw: nat) returns (l: Layer, n: Id)
    requires 3 <= lw <= 9 && iw >= 1
    ensures fresh(l) && l.Valid() && l.lw == lw && n in l.nodes && n in l.lo && n in l.hi
      && l.Contents() == ZeroKeys(lw)
    ensures Stuck(lw, l.nodes[n], l.lo[n], l.hi[n], ZeroKey(lw), lw)
  {
    hide Struct; hide LeavesOk; hide NeverStuck; hide Holds; hide WidthsOk; hide IdsOk; hide StartsKept;
    l := new Layer(lw, iw);
    assert ZeroKeys(0) == iset{};
    for m := 0 to lw
      invariant fresh(l) && l.Valid() && l.lw == lw && l.Contents() == ZeroKeys(m)
    {
      RoomForZero(lw, l.Sh(), m);
      ZeroKeyProper(m);
      var inserted := l.Insert(ZeroKey(m), 0);
      assert ZeroKeys(m + 1) == ZeroKeys(m) + iset{(ZeroKey(m), 0)};
    }
    var i, p;
    n, i, p := l.Find(ZeroKey(lw));
    InRanges(l.Sh(), n);
    FullOfZeros(lw, l.Sh(), n);
  }
}
