module LayerModel {
  import opened Options
  import opened PermSpec

  type Id = nat
  type Word = nat

  const TOP: nat := 0x1_0000_0000_0000_0000

  datatype LKey = LKey(ikey: nat, len: nat)

  datatype Node =
    | Leaf(perm: Perm, ikey: seq<nat>, len: seq<nat>, lv: seq<Word>,
           prev: Option<Id>, next: Option<Id>, parent: Option<Id>)
    | Inner(height: nat, keys: seq<nat>, child: seq<Option<Id>>, parent: Option<Id>)

  type Nodes = map<Id, Node>

  datatype Shape = Shape(nodes: Nodes, root: Id, lo: map<Id, nat>, hi: map<Id, nat>)

  datatype Mode = Normal | Pend(n: Id, c: Id) | Hole(dead: Id, r: Option<Id>)

  function Height(n: Node): nat { if n.Leaf? then 0 else n.height }

  ghost predicate Orphan(mode: Mode, x: Id) {
    (mode.Pend? && x == mode.c) || (mode.Hole? && mode.r == Some(x))
  }

  ghost predicate Dead(mode: Mode, x: Id) { mode.Hole? && mode.dead == x }

  ghost function PHi(s: Shape, mode: Mode, x: Id): nat
    requires x in s.hi && (mode.Pend? ==> mode.c in s.hi)
  {
    if mode.Pend? && x == mode.n then s.hi[mode.c] else s.hi[x]
  }

  ghost function Lb(q: Node, lop: nat, j: nat): nat
    requires q.Inner? && j <= |q.keys|
  { if j == 0 then lop else q.keys[j - 1] }

  ghost function Ub(q: Node, hip: nat, j: nat): nat
    requires q.Inner? && j <= |q.keys|
  { if j == |q.keys| then hip else q.keys[j] }

  ghost predicate Domains(s: Shape, mode: Mode) {
    && s.lo.Keys == s.nodes.Keys && s.hi.Keys == s.nodes.Keys && s.root in s.nodes
    && (mode.Pend? ==> mode.n in s.nodes && mode.c in s.nodes)
    && (mode.Hole? ==> mode.dead in s.nodes && (mode.r.Some? ==> mode.r.value in s.nodes))
  }

  ghost predicate ModeOk(s: Shape, mode: Mode)
    requires Domains(s, mode)
  {
    match mode
    case Normal => true
    case Pend(n, c) => n != c && c != s.root && s.hi[n] == s.lo[c] && Height(s.nodes[n]) == Height(s.nodes[c])
    case Hole(n, r) =>
      && n != s.root
      && (r.None? ==> s.lo[n] > 0)
      && (r.Some? ==> r.value != n && r.value != s.root && s.lo[r.value] == s.lo[n] && s.hi[r.value] == s.hi[n]
                      && Height(s.nodes[r.value]) < Height(s.nodes[n]))
  }

  ghost predicate ChildOk(s: Shape, mode: Mode, p: Id, j: nat)
    requires Domains(s, mode)
    requires p in s.nodes && s.nodes[p].Inner? && j <= |s.nodes[p].keys| && |s.nodes[p].child| == |s.nodes[p].keys| + 1
    requires s.nodes[p].child[j].Some?
  {
    var q := s.nodes[p];
    var c := q.child[j].value;
    && c in s.nodes && c != s.root && !Orphan(mode, c)
    && s.nodes[c].parent == Some(p) && Height(s.nodes[c]) < q.height
    && s.lo[c] == Lb(q, s.lo[p], j) && PHi(s, mode, c) == Ub(q, s.hi[p], j)
  }

  ghost predicate Ascending(keys: seq<nat>) {
    forall i, j :: 0 <= i < j < |keys| ==> keys[i] < keys[j]
  }

  ghost predicate InnerOk(s: Shape, mode: Mode, p: Id)
    requires Domains(s, mode)
    requires p in s.nodes && s.nodes[p].Inner?
  {
    var q := s.nodes[p];
    && |q.child| == |q.keys| + 1 && q.height >= 1
    && Ascending(q.keys)
    && (|q.keys| > 0 ==>
          && q.keys[|q.keys| - 1] < s.hi[p]
          && (if q.child[0].None? then q.keys[0] == s.lo[p] else s.lo[p] < q.keys[0]))
    && (|q.keys| == 0 ==> q.child[0].Some?)
    && (q.child[0].None? ==> s.lo[p] > 0)
    && (forall j :: 1 <= j < |q.child| ==> q.child[j].Some?)
    && (forall j {:trigger ChildOk(s, mode, p, j)} :: 0 <= j < |q.child| && q.child[j].Some? ==> ChildOk(s, mode, p, j))
  }

  ghost predicate ParentOk(s: Shape, mode: Mode, x: Id)
    requires Domains(s, mode) && x in s.nodes
  {
    && s.nodes[x].parent.Some?
    && var p := s.nodes[x].parent.value;
       && p in s.nodes && s.nodes[p].Inner? && !Dead(mode, p)
       && Some(x) in s.nodes[p].child
  }

  // an open gap: the dead leaf's range [B, B') now belongs to its list predecessor
  ghost function Shift(s: Shape, mode: Mode, v: nat): nat
    requires Domains(s, mode)
  {
    if mode.Hole? && mode.r.None? && v == s.lo[mode.dead] then s.hi[mode.dead] else v
  }

  ghost predicate ListOk(s: Shape, mode: Mode, l: Id)
    requires Domains(s, mode) && l in s.nodes && s.nodes[l].Leaf?
  {
    var n := s.nodes[l];
    && (match n.next
        case None => Shift(s, mode, s.hi[l]) == TOP
        case Some(m) => m in s.nodes && s.nodes[m].Leaf? && !Dead(mode, m) && s.nodes[m].prev == Some(l)
                        && s.lo[m] == Shift(s, mode, s.hi[l]))
    && (match n.prev
        case None => s.lo[l] == 0
        case Some(m) => s.lo[l] > 0 && m in s.nodes && s.nodes[m].Leaf? && !Dead(mode, m) && s.nodes[m].next == Some(l))
  }

  ghost predicate Base(s: Shape, m: Mode) {
    && Domains(s, m) && ModeOk(s, m)
    && s.lo[s.root] == 0 && PHi(s, m, s.root) == TOP && s.nodes[s.root].parent == None
    && (forall x :: x in s.nodes ==> s.lo[x] < s.hi[x] && Height(s.nodes[x]) <= Height(s.nodes[s.root]))
  }

  ghost predicate InnersOk(s: Shape, m: Mode)
    requires Domains(s, m)
  {
    forall x {:trigger InnerOk(s, m, x)} :: x in s.nodes && s.nodes[x].Inner? && !Dead(m, x) ==> InnerOk(s, m, x)
  }

  ghost predicate ParentsOk(s: Shape, m: Mode)
    requires Domains(s, m)
  {
    forall x {:trigger ParentOk(s, m, x)} :: x in s.nodes && x != s.root && !Orphan(m, x) ==> ParentOk(s, m, x)
  }

  ghost predicate ListsOk(s: Shape, m: Mode)
    requires Domains(s, m)
  {
    forall x {:trigger ListOk(s, m, x)} :: x in s.nodes && s.nodes[x].Leaf? && !Dead(m, x) ==> ListOk(s, m, x)
  }

  ghost predicate Struct(s: Shape, m: Mode) {
    Base(s, m) && InnersOk(s, m) && ParentsOk(s, m) && ListsOk(s, m)
  }

  // ---------- upper bound ----------
  function Upper(keys: seq<nat>, x: nat): (r: nat)
    ensures r <= |keys|
    ensures forall j :: 0 <= j < r ==> keys[j] <= x
    ensures r < |keys| ==> x < keys[r]
  {
    if |keys| == 0 || x < keys[0] then 0 else 1 + Upper(keys[1..], x)
  }

  lemma UpperIs(keys: seq<nat>, x: nat, r: nat)
    requires Ascending(keys) && r <= |keys|
    requires (r > 0 ==> keys[r-1] <= x) && (r < |keys| ==> x < keys[r])
    ensures Upper(keys, x) == r
  { }

  // The child that a search for x takes is never null and its range holds x.
  lemma Step(s: Shape, p: Id, x: nat)
    requires Struct(s, Normal) && p in s.nodes && s.nodes[p].Inner? && s.lo[p] <= x < s.hi[p]
    ensures var j := Upper(s.nodes[p].keys, x);
      && j < |s.nodes[p].child| && s.nodes[p].child[j].Some?
      && var c := s.nodes[p].child[j].value;
         c in s.nodes && s.lo[c] <= x < s.hi[c] && Height(s.nodes[c]) < s.nodes[p].height
           && s.nodes[c].parent == Some(p)
  {
    assert InnerOk(s, Normal, p);
    var j := Upper(s.nodes[p].keys, x);
    if s.nodes[p].child[j].Some? { assert ChildOk(s, Normal, p, j); }
  }

  ghost function Route(s: Shape, n: Id, x: nat): (l: Id)
    requires Struct(s, Normal) && n in s.nodes && s.lo[n] <= x < s.hi[n]
    ensures l in s.nodes && s.nodes[l].Leaf? && s.lo[l] <= x < s.hi[l]
    decreases Height(s.nodes[n])
  {
    if s.nodes[n].Leaf? then n
    else Step(s, n, x); Route(s, s.nodes[n].child[Upper(s.nodes[n].keys, x)].value, x)
  }

  // climbing: whoever holds x in its range lies on the search path for x
  lemma {:induction false} Climb(s: Shape, n: Id, x: nat)
    requires Struct(s, Normal) && n in s.nodes && s.lo[n] <= x < s.hi[n]
    ensures s.lo[s.root] <= x < s.hi[s.root] && Route(s, s.root, x) == Route(s, n, x)
    decreases Height(s.nodes[s.root]) - Height(s.nodes[n])
  {
    if n != s.root {
      assert ParentOk(s, Normal, n);
      var p := s.nodes[n].parent.value;
      var j :| 0 <= j < |s.nodes[p].child| && s.nodes[p].child[j] == Some(n);
      assert InnerOk(s, Normal, p);
      assert ChildOk(s, Normal, p, j);
      var q := s.nodes[p];
      UpperIs(q.keys, x, j);
      assert s.lo[p] <= x < s.hi[p] by {
        if j > 0 { assert s.lo[p] <= q.keys[0] <= q.keys[j-1]; }
        if j < |q.keys| { assert q.keys[j] <= q.keys[|q.keys|-1]; }
      }
      Climb(s, p, x);
    }
  }

  lemma RouteUnique(s: Shape, l: Id, x: nat)
    requires Struct(s, Normal) && l in s.nodes && s.nodes[l].Leaf? && s.lo[l] <= x < s.hi[l]
    ensures s.lo[s.root] <= x < s.hi[s.root] && Route(s, s.root, x) == l
  {
    Climb(s, l, x);
  }
}
