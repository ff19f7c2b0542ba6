// The lock-free doubly linked list of leaves, as a state machine: any number of threads, one atomic load,
// store or compare-and-swap a step.
module LeafList {
  import opened Options

  type Id = nat

  // next_ is a pointer with a mark bit
  datatype Cell = Cell(next: Option<Id>, marked: bool, prev: Option<Id>)

  // what the owner of a node does next
  datatype SplitAt = SetPrev | Lock | StoreNext | StorePrev | Publish
  datatype UnlinkAt = LockOwn | ReadPrev | MarkPrev | BackLink | Bypass

  datatype Op =
    | Split(nr: Id, sat: SplitAt, next: Option<Id>)
    | Unlink(uat: UnlinkAt, next: Option<Id>, prev: Id)

  // cell and op are the memory and the program counters; list and dead are auxiliary: the leaves that belong to
  // the list in order, and those that left it, in the order they left
  datatype State = State(cell: map<Id, Cell>, op: map<Id, Op>, list: seq<Id>, dead: seq<Id>)

  datatype Action = BeginSplit(n: Id, nr: Id) | BeginUnlink(n: Id) | Step(n: Id)

  // ---------- the steps ----------
  function Insert(l: seq<Id>, n: Id, x: Id): seq<Id> {
    if l == [] then [] else if l[0] == n then [n, x] + l[1..] else [l[0]] + Insert(l[1..], n, x)
  }

  function Delete(l: seq<Id>, n: Id): seq<Id> {
    if l == [] then [] else if l[0] == n then l[1..] else [l[0]] + Delete(l[1..], n)
  }

  predicate Fresh(s: State, nr: Id) { nr !in s.cell }

  // a node whose lock another operation holds: n or nr of a link_split, n of an unlink
  ghost predicate Owned(s: State, n: Id) {
    n in s.op || exists m :: m in s.op && s.op[m].Split? && s.op[m].nr == n
  }

  ghost predicate Enabled(s: State, a: Action) {
    match a
    case BeginSplit(n, nr) => n in s.list && !Owned(s, n) && Fresh(s, nr)
    case BeginUnlink(n) => n in s.list && !Owned(s, n) && |s.list| > 0 && n != s.list[0]
    case Step(n) => n in s.op
  }

  // lock_next: done with the pointer, or spin
  function LockNext(s: State, n: Id): (r: (bool, map<Id, Cell>))
    requires n in s.cell
  {
    var c := s.cell[n];
    if c.next.None? then (true, s.cell)
    else if !c.marked then (true, s.cell[n := c.(marked := true)])
    else (false, s.cell)
  }

  ghost predicate StepOk(s: State, n: Id) {
    n in s.op && n in s.cell &&
    match s.op[n]
    case Split(nr, at, next) => nr in s.cell && (next.Some? ==> next.value in s.cell)
    case Unlink(at, next, prev) =>
      && s.cell[n].prev.Some?
      && (at.MarkPrev? || at.BackLink? || at.Bypass? ==> prev in s.cell) && (next.Some? ==> next.value in s.cell)
  }

  ghost function DoSplit(s: State, n: Id): State
    requires StepOk(s, n) && s.op[n].Split?
  {
    var o := s.op[n];
    match o.sat
    case SetPrev => s.(cell := s.cell[o.nr := s.cell[o.nr].(prev := Some(n))], op := s.op[n := o.(sat := Lock)])
    case Lock =>
      var r := LockNext(s, n);
      if r.0 then s.(cell := r.1, op := s.op[n := o.(sat := StoreNext, next := s.cell[n].next)]) else s
    case StoreNext => s.(cell := s.cell[o.nr := s.cell[o.nr].(next := o.next, marked := false)],
      op := s.op[n := o.(sat := StorePrev)])
    case StorePrev =>
      s.(cell := if o.next.Some? then s.cell[o.next.value := s.cell[o.next.value].(prev := Some(o.nr))] else s.cell,
         op := s.op[n := o.(sat := Publish)], list := Insert(s.list, n, o.nr))
    case Publish => s.(cell := s.cell[n := s.cell[n].(next := Some(o.nr), marked := false)], op := s.op - {n})
  }

  ghost function DoUnlink(s: State, n: Id): State
    requires StepOk(s, n) && s.op[n].Unlink?
  {
    var o := s.op[n];
    match o.uat
    case LockOwn =>
      var r := LockNext(s, n);
      if r.0 then s.(cell := r.1, op := s.op[n := o.(uat := ReadPrev, next := s.cell[n].next)]) else s
    case ReadPrev => s.(op := s.op[n := o.(uat := MarkPrev, prev := s.cell[n].prev.value)])
    case MarkPrev =>
      var c := s.cell[o.prev];
      if c.next == Some(n) && !c.marked
      then s.(cell := s.cell[o.prev := c.(marked := true)], op := s.op[n := o.(uat := BackLink)])
      else s.(op := s.op[n := o.(uat := ReadPrev)])
    case BackLink =>
      s.(cell := if o.next.Some? then s.cell[o.next.value := s.cell[o.next.value].(prev := Some(o.prev))] else s.cell,
         op := s.op[n := o.(uat := Bypass)])
    case Bypass =>
      s.(cell := s.cell[o.prev := s.cell[o.prev].(next := o.next, marked := false)], op := s.op - {n},
         list := Delete(s.list, n), dead := s.dead + [n])
  }

  ghost predicate CanStep(s: State, a: Action) { Enabled(s, a) && (a.Step? ==> StepOk(s, a.n)) }

  ghost function Do(s: State, a: Action): State
    requires CanStep(s, a)
  {
    match a
    case BeginSplit(n, nr) => s.(cell := s.cell[nr := Cell(None, false, None)],
      op := s.op[n := Split(nr, SetPrev, None)])
    case BeginUnlink(n) => s.(op := s.op[n := Unlink(LockOwn, None, 0)])
    case Step(n) => if s.op[n].Split? then DoSplit(s, n) else DoUnlink(s, n)
  }

  // ---------- the invariant ----------
  ghost predicate Distinct(l: seq<Id>) { forall i, j :: 0 <= i < j < |l| ==> l[i] != l[j] }

  predicate Splitting(s: State, x: Id) { x in s.op && s.op[x].Split? }
  // link_split has stored next->prev_: nr follows x in the list although x's own pointer does not say so yet
  predicate Late(s: State, x: Id) { Splitting(s, x) && s.op[x].sat.Publish? }
  predicate Locked(s: State, x: Id) {
    x in s.op && (if s.op[x].Split? then !s.op[x].sat.SetPrev? && !s.op[x].sat.Lock? else !s.op[x].uat.LockOwn?)
  }
  // the unlink of h has marked its predecessor's pointer
  predicate Grabbed(s: State, h: Id) { h in s.op && s.op[h].Unlink? && (s.op[h].uat.BackLink? || s.op[h].uat.Bypass?) }

  ghost predicate EdgeOk(s: State, x: Id, y: Id) {
    && x in s.cell && y in s.cell
    && (if Late(s, x) then s.op[x].nr == y else s.cell[x].next == Some(y))
    && s.cell[y].prev == Some(if x in s.op && s.op[x].Unlink? && s.op[x].uat.Bypass? then s.op[x].prev else x)
  }

  ghost predicate EdgeAt(s: State, i: int)
    requires 0 <= i < |s.list| - 1
  { EdgeOk(s, s.list[i], s.list[i+1]) }

  ghost predicate Edges(s: State) {
    && (forall i {:trigger EdgeAt(s, i)} :: 0 <= i < |s.list| - 1 ==> EdgeAt(s, i))
    && |s.list| > 0 && (var z := s.list[|s.list| - 1]; z in s.cell && !Late(s, z) && s.cell[z].next.None?)
  }

  ghost predicate OpOk(s: State, n: Id)
    requires n in s.op
  {
    && n in s.list && n in s.cell
    && (Locked(s, n) ==>
      s.cell[n].next == s.op[n].next && (s.op[n].next.Some? ==> s.cell[n].marked && s.op[n].next.value in s.cell))
    && match s.op[n]
       case Split(nr, at, next) =>
         && nr in s.cell && nr !in s.op && nr !in s.dead && nr != n && (nr in s.list <==> at.Publish?)
         && (!at.SetPrev? ==> s.cell[nr].prev == Some(n))
         && (at.SetPrev? || at.Lock? ==> next.None?)
         && (at.StorePrev? ==> s.cell[nr].next == next && !s.cell[nr].marked)
       case Unlink(at, next, prev) =>
         && n != s.list[0]
         && (at.LockOwn? ==> next.None?)
         && (at.MarkPrev? ==> prev in s.cell && (prev in s.list || prev in s.dead))
         && (Grabbed(s, n) ==>
           prev in s.cell && prev in s.list && s.cell[prev].next == Some(n) && s.cell[prev].marked && !Locked(s, prev))
  }

  ghost predicate Ops(s: State) {
    && |s.list| > 0
    && (forall n {:trigger OpOk(s, n)} :: n in s.op ==> OpOk(s, n))
    && (forall m, n :: m in s.op && n in s.op && s.op[m].Split? && s.op[n].Split? && s.op[m].nr == s.op[n].nr ==>
      m == n)
  }

  // every mark has a holder
  ghost predicate Marks(s: State) {
    forall x :: x in s.list && x in s.cell && s.cell[x].marked ==>
      Locked(s, x) || (s.cell[x].next.Some? && Grabbed(s, s.cell[x].next.value) && s.op[s.cell[x].next.value].prev == x)
  }

  // a leaf that left keeps its last pointer, marked, to a leaf that was in the list then
  ghost predicate DeadOk(s: State, i: int)
    requires 0 <= i < |s.dead|
  {
    && s.dead[i] in s.cell && s.dead[i] !in s.list && s.dead[i] !in s.op
    && var c := s.cell[s.dead[i]];
       c.next.Some? ==> c.marked && (c.next.value in s.list || c.next.value in s.dead[i+1..])
  }

  ghost predicate Deads(s: State) {
    Distinct(s.dead) && forall i {:trigger DeadOk(s, i)} :: 0 <= i < |s.dead| ==> DeadOk(s, i)
  }

  ghost predicate Inv(s: State) {
    && Distinct(s.list) && Edges(s) && Ops(s) && Marks(s) && Deads(s)
  }

  // ---------- the list ----------
  lemma {:induction false} InsertAt(l: seq<Id>, k: nat, x: Id)
    requires Distinct(l) && k < |l| && x !in l
    ensures Insert(l, l[k], x) == l[..k+1] + [x] + l[k+1..] && Distinct(Insert(l, l[k], x))
    ensures forall i {:trigger Insert(l, l[k], x)[i]} :: 0 <= i <= |l| ==>
      Insert(l, l[k], x)[i] == if i <= k then l[i] else if i == k + 1 then x else l[i-1]
  {
    if k > 0 {
      InsertAt(l[1..], k - 1, x);
      assert l[0] != l[k];
      assert l[..k+1] == [l[0]] + l[1..][..k];
      assert l[k+1..] == l[1..][k..];
    }
  }

  lemma {:induction false} DeleteAt(l: seq<Id>, k: nat)
    requires Distinct(l) && k < |l|
    ensures var r := Delete(l, l[k]);
      |r| == |l| - 1 && forall i {:trigger r[i]} :: 0 <= i < |r| ==> r[i] == if i < k then l[i] else l[i+1]
    ensures Delete(l, l[k]) == l[..k] + l[k+1..] && Distinct(Delete(l, l[k])) && l[k] !in Delete(l, l[k])
  {
    if k > 0 {
      DeleteAt(l[1..], k - 1);
      assert l[0] != l[k];
      assert l[..k] == [l[0]] + l[1..][..k-1];
      assert l[k+1..] == l[1..][k..];
    }
  }

  lemma NotDead(s: State, z: Id)
    requires Deads(s) && z in s.dead
    ensures z in s.cell && z !in s.list && z !in s.op && (s.cell[z].next.Some? ==> s.cell[z].marked)
  {
    var i :| 0 <= i < |s.dead| && s.dead[i] == z;
    assert DeadOk(s, i);
  }

  lemma HaveCells(s: State)
    requires Edges(s) && Deads(s)
    ensures forall x :: x in s.list || x in s.dead ==> x in s.cell
  {
    forall x | x in s.list ensures x in s.cell {
      var k := At(s, x);
      if k + 1 < |s.list| { assert EdgeAt(s, k); }
    }
    forall x | x in s.dead ensures x in s.cell { NotDead(s, x); }
  }

  // an unmarked pointer to n, in a node that is or was in the list, is the one before n
  lemma Before(s: State, z: Id, n: Id) returns (k: nat)
    requires Inv(s) && (z in s.list || z in s.dead) && z in s.cell && s.cell[z].next == Some(n)
    requires !s.cell[z].marked || (z in s.list && !Locked(s, z))
    ensures k + 1 < |s.list| && s.list[k] == z && s.list[k+1] == n && !Late(s, z) && z in s.list
  {
    if z in s.dead { NotDead(s, z); }
    k :| 0 <= k < |s.list| && s.list[k] == z;
    assert z in s.op ==> OpOk(s, z);
    if k + 1 < |s.list| { assert EdgeAt(s, k); }
  }

  lemma At(s: State, n: Id) returns (k: nat)
    requires n in s.list
    ensures k < |s.list| && s.list[k] == n
  { k :| 0 <= k < |s.list| && s.list[k] == n; }

  // ---------- every step keeps the invariant ----------
  lemma BeginSplitOk(s: State, n: Id, nr: Id)
    requires Inv(s) && CanStep(s, BeginSplit(n, nr))
    ensures Inv(Do(s, BeginSplit(n, nr)))
  {
    var t := Do(s, BeginSplit(n, nr));
    HaveCells(s);
    forall m | m in s.op ensures OpOk(s, m) { }
    forall i | 0 <= i < |t.list| - 1 ensures EdgeAt(t, i) { assert EdgeAt(s, i); }
    forall i | 0 <= i < |t.dead| ensures DeadOk(t, i) { assert DeadOk(s, i); }
    forall m | m in t.op ensures OpOk(t, m) { if m != n { assert OpOk(s, m); } }
  }

  lemma BeginUnlinkOk(s: State, n: Id)
    requires Inv(s) && CanStep(s, BeginUnlink(n))
    ensures Inv(Do(s, BeginUnlink(n)))
  {
    var t := Do(s, BeginUnlink(n));
    HaveCells(s);
    forall i | 0 <= i < |t.list| - 1 ensures EdgeAt(t, i) { assert EdgeAt(s, i); }
    forall i | 0 <= i < |t.dead| ensures DeadOk(t, i) { assert DeadOk(s, i); }
    forall m | m in t.op ensures OpOk(t, m) { if m != n { assert OpOk(s, m); } }
  }

  ghost predicate AtS(s: State, n: Id, sat: SplitAt) { n in s.op && s.op[n].Split? && s.op[n].sat == sat }
  ghost predicate AtU(s: State, n: Id, uat: UnlinkAt) { n in s.op && s.op[n].Unlink? && s.op[n].uat == uat }

  lemma SetPrevOk(s: State, n: Id)
    requires Inv(s) && StepOk(s, n) && AtS(s, n, SetPrev)
    ensures Inv(DoSplit(s, n))
  {
    var t := DoSplit(s, n);
    assert OpOk(s, n);
    forall i | 0 <= i < |t.list| - 1 ensures EdgeAt(t, i) { assert EdgeAt(s, i); }
    forall i | 0 <= i < |t.dead| ensures DeadOk(t, i) { assert DeadOk(s, i); }
    forall m | m in t.op ensures OpOk(t, m) { assert OpOk(s, m); }
  }

  lemma LockEdges(s: State, n: Id)
    requires Inv(s) && StepOk(s, n) && (AtS(s, n, Lock) || AtU(s, n, LockOwn))
    ensures var t := Do(s, Step(n)); Edges(t) && Deads(t) && Marks(t)
  {
    hide Ops;
    var t := Do(s, Step(n));
    forall i | 0 <= i < |t.list| - 1 ensures EdgeAt(t, i) { assert EdgeAt(s, i); }
    forall i | 0 <= i < |t.dead| ensures DeadOk(t, i) { assert DeadOk(s, i); }
  }

  lemma LockOk(s: State, n: Id)
    requires Inv(s) && StepOk(s, n) && (AtS(s, n, Lock) || AtU(s, n, LockOwn))
    ensures Inv(Do(s, Step(n)))
  {
    LockEdges(s, n);
    HaveCells(s);
    var t := Do(s, Step(n));
    assert s.cell[n].next.Some? ==> s.cell[n].next.value in s.cell by {
      assert OpOk(s, n);
      var k := At(s, n);
      if k + 1 < |s.list| { assert EdgeAt(s, k); }
    }
    hide Edges; hide Marks; hide Deads; hide Distinct;
    forall m | m in t.op ensures OpOk(t, m) { assert OpOk(s, m) && OpOk(s, n); }
  }

  lemma StoreNextOk(s: State, n: Id)
    requires Inv(s) && StepOk(s, n) && AtS(s, n, StoreNext)
    ensures Inv(DoSplit(s, n))
  {
    var t := DoSplit(s, n);
    assert OpOk(s, n);
    forall i | 0 <= i < |t.list| - 1 ensures EdgeAt(t, i) { assert EdgeAt(s, i); }
    forall i | 0 <= i < |t.dead| ensures DeadOk(t, i) { assert DeadOk(s, i); }
    forall m | m in t.op ensures OpOk(t, m) { assert OpOk(s, m); }
  }

  lemma ReadPrevOk(s: State, n: Id)
    requires Inv(s) && StepOk(s, n) && AtU(s, n, ReadPrev)
    ensures Inv(DoUnlink(s, n))
  {
    var t := DoUnlink(s, n);
    assert OpOk(s, n);
    var k := At(s, n);
    assert EdgeAt(s, k-1);
    var x := s.list[k-1];
    if x in s.op { assert OpOk(s, x); }
    forall i | 0 <= i < |t.list| - 1 ensures EdgeAt(t, i) { assert EdgeAt(s, i); }
    forall i | 0 <= i < |t.dead| ensures DeadOk(t, i) { assert DeadOk(s, i); }
    forall m | m in t.op ensures OpOk(t, m) { assert OpOk(s, m); }
  }

  lemma MarkPrevOk(s: State, n: Id)
    requires Inv(s) && StepOk(s, n) && AtU(s, n, MarkPrev)
    ensures Inv(DoUnlink(s, n))
  {
    var t := DoUnlink(s, n);
    assert OpOk(s, n);
    var p := s.op[n].prev;
    if s.cell[p].next == Some(n) && !s.cell[p].marked {
      var k := Before(s, p, n);
      assert p in s.op ==> OpOk(s, p);
    }
    assert Edges(t) by {
      hide Ops; hide Marks; hide Deads; hide Distinct;
      forall i | 0 <= i < |t.list| - 1 ensures EdgeAt(t, i) { assert EdgeAt(s, i); }
    }
    assert Ops(t) by {
      hide Edges; hide Marks; hide Deads; hide Distinct;
      forall m | m in t.op ensures OpOk(t, m) { assert OpOk(s, m); }
    }
    assert Deads(t) by {
      hide Edges; hide Marks; hide Ops;
      forall i | 0 <= i < |t.dead| ensures DeadOk(t, i) { assert DeadOk(s, i); }
    }
  }

  // link_split, next->prev_ = nr: from here on nr is reached from its successor
  lemma StorePrevEdge(s: State, n: Id, x: Id, y: Id)
    requires StepOk(s, n) && AtS(s, n, StorePrev) && n in s.cell && EdgeOk(s, x, y) && x != n
    requires s.op[n].next != Some(y)
    ensures EdgeOk(DoSplit(s, n), x, y)
  { }

  lemma StorePrevLists(s: State, n: Id)
    requires Inv(s) && StepOk(s, n) && AtS(s, n, StorePrev)
    ensures var t := DoSplit(s, n); Deads(t) && Distinct(t.list)
    ensures forall x :: x in DoSplit(s, n).list <==> x in s.list || x == s.op[n].nr
    ensures DoSplit(s, n).list[0] == s.list[0]
  {
    var t := DoSplit(s, n);
    assert OpOk(s, n);
    hide Ops; hide Marks; hide Edges;
    var k := At(s, n);
    InsertAt(s.list, k, s.op[n].nr);
    forall i | 0 <= i < |t.dead| ensures DeadOk(t, i) { assert DeadOk(s, i); }
  }

  lemma StorePrevEdges(s: State, n: Id)
    requires Inv(s) && StepOk(s, n) && AtS(s, n, StorePrev)
    ensures Edges(DoSplit(s, n))
  {
    var t := DoSplit(s, n);
    var nr := s.op[n].nr;
    assert OpOk(s, n);
    hide Ops; hide Marks; hide Deads;
    var k := At(s, n);
    InsertAt(s.list, k, nr);
    hide Insert; hide Edges;
    forall i | 0 <= i < |s.list| - 1 && i != k ensures Holding(t, s.list, i) {
      OldEdge(s, i);
      if k + 1 < |s.list| { OldEdge(s, k); assert s.list[i+1] != s.list[k+1]; }
      assert s.list[i] != n;
      StorePrevEdge(s, n, s.list[i], s.list[i+1]);
    }
    LastCell(s);
    if k + 1 < |s.list| { OldEdge(s, k); }
    EdgesInserted(t, s.list, k, nr);
  }

  ghost predicate Holding(t: State, l: seq<Id>, i: int)
    requires 0 <= i < |l| - 1
  { EdgeOk(t, l[i], l[i+1]) }

  ghost predicate LastOk(t: State, z: Id) { z in t.cell && !Late(t, z) && t.cell[z].next.None? }

  lemma LastCell(s: State)
    requires Edges(s)
    ensures LastOk(s, s.list[|s.list| - 1])
  { }

  lemma EdgesInserted(t: State, l: seq<Id>, k: nat, nr: Id)
    requires k < |l| && |t.list| == |l| + 1
    requires forall i {:trigger t.list[i]} :: 0 <= i < |t.list| ==>
      t.list[i] == if i <= k then l[i] else if i == k + 1 then nr else l[i-1]
    requires forall i {:trigger Holding(t, l, i)} :: 0 <= i < |l| - 1 && i != k ==> Holding(t, l, i)
    requires EdgeOk(t, l[k], nr)
      && (if k + 1 < |l| then EdgeOk(t, nr, l[k+1]) && LastOk(t, l[|l| - 1]) else LastOk(t, nr))
    ensures Edges(t)
  {
    forall i | 0 <= i < |t.list| - 1 ensures EdgeAt(t, i) {
      if i < k { assert Holding(t, l, i); }
      if i > k + 1 { assert Holding(t, l, i - 1); }
    }
  }

  lemma EdgesDeleted(t: State, l: seq<Id>, k: nat)
    requires 0 < k < |l| == |t.list| + 1
    requires forall i {:trigger t.list[i]} :: 0 <= i < |t.list| ==> t.list[i] == if i < k then l[i] else l[i+1]
    requires forall i {:trigger Holding(t, l, i)} :: 0 <= i < |l| - 1 && i != k && i != k - 1 ==> Holding(t, l, i)
    requires if k + 1 < |l| then EdgeOk(t, l[k-1], l[k+1]) && LastOk(t, l[|l| - 1]) else LastOk(t, l[k-1])
    ensures Edges(t)
  {
    forall i | 0 <= i < |t.list| - 1 ensures EdgeAt(t, i) {
      if i < k - 1 { assert Holding(t, l, i); }
      if i >= k { assert Holding(t, l, i + 1); }
    }
  }

  lemma OldEdge(s: State, i: nat)
    requires Edges(s) && i + 1 < |s.list|
    ensures EdgeOk(s, s.list[i], s.list[i+1])
  { assert EdgeAt(s, i); }

  // the successor of n is nobody's new leaf
  lemma NotNew(s: State, n: Id, m: Id)
    requires Inv(s) && AtS(s, n, StorePrev) && m in s.op && s.op[m].Split? && s.op[n].next.Some?
    ensures s.op[m].nr != s.op[n].next.value
  {
    assert OpOk(s, n) && OpOk(s, m);
    var k := At(s, n);
    var j := At(s, m);
    if k + 1 < |s.list| { assert EdgeAt(s, k); }
    if j + 1 < |s.list| { assert EdgeAt(s, j); }
  }

  lemma StorePrevOk(s: State, n: Id)
    requires Inv(s) && StepOk(s, n) && AtS(s, n, StorePrev)
    ensures Inv(DoSplit(s, n))
  {
    var t := DoSplit(s, n);
    StorePrevEdges(s, n);
    StorePrevLists(s, n);
    assert OpOk(s, n);
    forall m | m in s.op && s.op[m].Split? && s.op[n].next.Some? ensures s.op[m].nr != s.op[n].next.value
    { NotNew(s, n, m); }
    hide Edges; hide Deads; hide Distinct; hide Insert;
    forall m | m in t.op ensures OpOk(t, m) { assert OpOk(s, m); }
  }

  lemma PublishOk(s: State, n: Id)
    requires Inv(s) && StepOk(s, n) && AtS(s, n, Publish)
    ensures Inv(DoSplit(s, n))
  {
    var t := DoSplit(s, n);
    assert OpOk(s, n);
    var k := At(s, n);
    if k + 1 < |s.list| { assert EdgeAt(s, k); }
    forall i | 0 <= i < |t.list| - 1 ensures EdgeAt(t, i) { assert EdgeAt(s, i); }
    forall m | m in t.op ensures OpOk(t, m) { assert OpOk(s, m); }
    forall i | 0 <= i < |t.dead| ensures DeadOk(t, i) { assert DeadOk(s, i); }
  }

  lemma BackLinkOk(s: State, n: Id)
    requires Inv(s) && StepOk(s, n) && AtU(s, n, BackLink)
    ensures Inv(DoUnlink(s, n))
  {
    var t := DoUnlink(s, n);
    assert OpOk(s, n);
    var j := Before(s, s.op[n].prev, n);
    if j + 2 < |s.list| { assert EdgeAt(s, j + 1); }
    assert Edges(t) by {
      hide Ops; hide Marks; hide Deads; hide Distinct;
      forall i | 0 <= i < |t.list| - 1 ensures EdgeAt(t, i) { assert EdgeAt(s, i); }
    }
    assert Ops(t) by {
      hide Edges; hide Marks; hide Deads; hide Distinct;
      forall m | m in t.op ensures OpOk(t, m) { assert OpOk(s, m); }
    }
    assert Deads(t) by {
      hide Edges; hide Marks; hide Ops;
      forall i | 0 <= i < |t.dead| ensures DeadOk(t, i) { assert DeadOk(s, i); }
    }
  }

  // unlink, prev->next_ = next: n leaves the list
  lemma BypassEdges(s: State, n: Id)
    requires Inv(s) && StepOk(s, n) && AtU(s, n, Bypass)
    ensures var t := DoUnlink(s, n); Edges(t) && Distinct(t.list)
    ensures forall x :: x in DoUnlink(s, n).list <==> x in s.list && x != n
    ensures |DoUnlink(s, n).list| > 0 && DoUnlink(s, n).list[0] == s.list[0]
  {
    var t := DoUnlink(s, n);
    var p := s.op[n].prev;
    assert OpOk(s, n);
    var j := Before(s, p, n);
    assert p in s.op ==> OpOk(s, p);
    hide Ops; hide Marks; hide Deads;
    DeleteAt(s.list, j + 1);
    hide Delete; hide Edges;
    forall i | 0 <= i < |s.list| - 1 && i != j + 1 && i != j ensures Holding(t, s.list, i) {
      OldEdge(s, i);
      assert s.list[i] != p && s.list[i] != n;
      BypassEdge(s, n, s.list[i], s.list[i+1]);
    }
    LastCell(s);
    OldEdge(s, j);
    if j + 2 < |s.list| { OldEdge(s, j + 1); }
    EdgesDeleted(t, s.list, j + 1);
  }

  lemma BypassEdge(s: State, n: Id, x: Id, y: Id)
    requires StepOk(s, n) && AtU(s, n, Bypass) && EdgeOk(s, x, y) && x != n && x != s.op[n].prev
    ensures EdgeOk(DoUnlink(s, n), x, y)
  { }

  lemma BypassOk(s: State, n: Id)
    requires Inv(s) && StepOk(s, n) && AtU(s, n, Bypass)
    ensures Inv(DoUnlink(s, n))
  {
    var t := DoUnlink(s, n);
    BypassEdges(s, n);
    assert OpOk(s, n);
    assert s.op[n].next.Some? ==> s.op[n].next.value in s.list && s.op[n].next.value != n by {
      var k := At(s, n);
      if k + 1 < |s.list| { assert EdgeAt(s, k); }
    }
    hide Edges; hide Delete; hide Distinct;
    forall m | m in t.op ensures OpOk(t, m) { assert OpOk(s, m); }
    assert Deads(t) by { BypassDeads(s, n); }
  }

  lemma BypassDeads(s: State, n: Id)
    requires Deads(s) && StepOk(s, n) && AtU(s, n, Bypass) && n in s.list && s.op[n].prev != n && s.op[n].prev in s.list
    requires forall x :: x in DoUnlink(s, n).list <==> x in s.list && x != n
    requires s.cell[n].next.Some? ==> s.cell[n].marked && s.cell[n].next.value in s.list && s.cell[n].next.value != n
    ensures Deads(DoUnlink(s, n))
  {
    var t := DoUnlink(s, n);
    if n in s.dead { NotDead(s, n); }
    if s.op[n].prev in s.dead { NotDead(s, s.op[n].prev); }
    forall i | 0 <= i < |t.dead| ensures DeadOk(t, i) {
      if i < |s.dead| {
        assert DeadOk(s, i);
        assert t.dead[i+1..] == s.dead[i+1..] + [n];
      }
    }
  }

  // ---------- the pointers that removed leaves keep ----------
  function IndexOf(l: seq<Id>, x: Id): (k: nat)
    requires x in l
    ensures k < |l| && l[k] == x
  { if l[0] == x then 0 else 1 + IndexOf(l[1..], x) }

  ghost function Age(s: State, z: Option<Id>): nat {
    if z.Some? && z.value in s.dead then |s.dead| - IndexOf(s.dead, z.value) else 0
  }

  lemma Younger(s: State, z: Id)
    requires Deads(s) && z in s.dead
    ensures z in s.cell && Age(s, s.cell[z].next) < Age(s, Some(z))
  {
    var i := IndexOf(s.dead, z);
    assert DeadOk(s, i);
    var w := s.cell[z].next;
    if w.Some? && w.value in s.dead {
      if w.value in s.list { var k := At(s, w.value); NotDead(s, w.value); }
      var j :| 0 <= j < |s.dead[i+1..]| && s.dead[i+1..][j] == w.value;
      assert s.dead[i+1+j] == w.value;
    }
  }

  // from a removed leaf, pointer by pointer, to the leaf of the list that comes next
  ghost function Reach(s: State, z: Option<Id>): (r: Option<Id>)
    requires Deads(s)
    ensures r.Some? ==> r.value !in s.dead
    decreases Age(s, z)
  {
    if z.None? || z.value !in s.dead then z
    else Younger(s, z.value); Reach(s, s.cell[z.value].next)
  }

  ghost function After(s: State, i: nat): Option<Id> {
    if i + 1 < |s.list| then Some(s.list[i+1]) else None
  }

  // while a split is Late, its old pointer leads, through removed leaves only, to the leaf after the new one
  ghost predicate LateOk(s: State, i: int)
    requires Deads(s) && 0 <= i < |s.list|
  {
    Late(s, s.list[i]) ==> Reach(s, s.op[s.list[i]].next) == After(s, i + 1)
  }

  ghost predicate Full(s: State) {
    && Inv(s) && s.list[0] in s.cell && s.cell[s.list[0]].prev.None?
    && forall i {:trigger LateOk(s, i)} :: 0 <= i < |s.list| ==> LateOk(s, i)
  }

  ghost predicate SameDead(s: State, t: State)
    requires Deads(s) && Deads(t)
  { s.dead == t.dead && forall d :: d in s.dead ==> d in t.cell && d in s.cell && t.cell[d].next == s.cell[d].next }

  lemma {:induction false} ReachFrame(s: State, t: State, z: Option<Id>)
    requires Deads(s) && Deads(t) && SameDead(s, t)
    ensures Reach(t, z) == Reach(s, z)
    decreases Age(s, z)
  {
    if z.Some? && z.value in s.dead {
      Younger(s, z.value);
      ReachFrame(s, t, s.cell[z.value].next);
    }
  }

  // a leaf that leaves is stepped over
  lemma {:induction false} ReachBypass(s: State, n: Id, z: Option<Id>)
    requires Inv(s) && StepOk(s, n) && AtU(s, n, Bypass)
    ensures Inv(DoUnlink(s, n))
    ensures Reach(DoUnlink(s, n), z) == if Reach(s, z) == Some(n) then s.cell[n].next else Reach(s, z)
    decreases Age(s, z)
  {
    BypassOk(s, n);
    assert OpOk(s, n);
    var t := DoUnlink(s, n);
    if z.Some? && z.value in s.dead {
      Younger(s, z.value);
      NotDead(s, z.value);
      assert t.cell[z.value] == s.cell[z.value];
      ReachBypass(s, n, s.cell[z.value].next);
    } else if z == Some(n) {
      assert t.cell[n] == s.cell[n];
      var k := At(s, n);
      if k + 1 < |s.list| { OldEdge(s, k); NotInDead(s, s.list[k+1]); }
    }
  }

  lemma NotInDead(s: State, x: Id)
    requires Deads(s) && x in s.list
    ensures x !in s.dead
  { if x in s.dead { NotDead(s, x); } }

  lemma NewNext(s: State, n: Id, k: nat)
    requires Inv(s) && Late(s, n) && k < |s.list| && s.list[k] == n
    ensures k + 1 < |s.list| && s.list[k+1] == s.op[n].nr
  { if k + 1 < |s.list| { OldEdge(s, k); } }

  lemma LateFrame(s: State, t: State)
    requires Full(s) && Inv(t) && t.list == s.list && SameDead(s, t)
    requires s.list[0] in t.cell && t.cell[s.list[0]].prev == s.cell[s.list[0]].prev
    requires forall x :: Late(t, x) ==> Late(s, x) && t.op[x] == s.op[x]
    ensures Full(t)
  {
    hide Edges; hide Ops; hide Marks; hide Distinct;
    forall i | 0 <= i < |t.list| ensures LateOk(t, i) {
      assert LateOk(s, i);
      if Late(t, t.list[i]) { ReachFrame(s, t, t.op[t.list[i]].next); }
    }
  }

  // the node an operation reads or writes exists
  lemma Ready(s: State, n: Id)
    requires Inv(s) && n in s.op
    ensures StepOk(s, n)
  {
    assert OpOk(s, n);
    if s.op[n].Unlink? {
      var k := At(s, n);
      OldEdge(s, k - 1);
    }
  }

  lemma StepInv(s: State, a: Action)
    requires Inv(s) && Enabled(s, a)
    ensures CanStep(s, a) && Inv(Do(s, a))
  {
    match a
    case BeginSplit(n, nr) => BeginSplitOk(s, n, nr);
    case BeginUnlink(n) => BeginUnlinkOk(s, n);
    case Step(n) =>
      Ready(s, n);
      if s.op[n].Split? {
        match s.op[n].sat
        case SetPrev => SetPrevOk(s, n);
        case Lock => LockOk(s, n);
        case StoreNext => StoreNextOk(s, n);
        case StorePrev => StorePrevOk(s, n);
        case Publish => PublishOk(s, n);
      } else {
        match s.op[n].uat
        case LockOwn => LockOk(s, n);
        case ReadPrev => ReadPrevOk(s, n);
        case MarkPrev => MarkPrevOk(s, n);
        case BackLink => BackLinkOk(s, n);
        case Bypass => BypassOk(s, n);
      }
  }

  // neither the list nor the removed leaves change, and no split becomes Late
  ghost predicate Quiet(s: State, a: Action) { a.Step? ==> !AtS(s, a.n, StorePrev) && !AtU(s, a.n, Bypass) }

  lemma QuietFull(s: State, a: Action)
    requires Full(s) && CanStep(s, a) && Inv(Do(s, a)) && Quiet(s, a)
    ensures Full(Do(s, a)) && Do(s, a).list == s.list
  {
    var t := Do(s, a);
    assert a.Step? ==> OpOk(s, a.n);
    HaveCells(s);
    forall d | d in s.dead ensures d in t.cell && t.cell[d].next == s.cell[d].next { NotDead(s, d); }
    var h := s.list[0];
    assert a.Step? && AtU(s, a.n, BackLink) && s.op[a.n].next.Some? ==> s.op[a.n].next.value != h by {
      if a.Step? && AtU(s, a.n, BackLink) {
        var k := At(s, a.n);
        if k + 1 < |s.list| { OldEdge(s, k); }
      }
    }
    LateFrame(s, t);
  }

  lemma StorePrevFull(s: State, n: Id)
    requires Full(s) && StepOk(s, n) && AtS(s, n, StorePrev)
    ensures Full(DoSplit(s, n))
  {
    var t := DoSplit(s, n);
    StorePrevOk(s, n);
    assert OpOk(s, n);
    var nr := s.op[n].nr;
    var k := At(s, n);
    InsertAt(s.list, k, nr);
    if k + 1 < |s.list| { OldEdge(s, k); NotInDead(s, s.list[k+1]); }
    forall d | d in s.dead ensures d in t.cell && t.cell[d].next == s.cell[d].next { NotDead(s, d); }
    forall i | 0 <= i < |t.list| ensures LateOk(t, i) {
      if i < k { NotNewHere(s, n, i, k); StorePrevLate(s, n, i, k, i); }
      if i > k + 1 { StorePrevLate(s, n, i - 1, k, i); }
    }
  }

  lemma NotNewHere(s: State, n: Id, i: nat, k: nat)
    requires Inv(s) && n in s.op && i < k < |s.list| && s.list[k] == n
    ensures Late(s, s.list[i]) ==> i + 1 < k
  {
    if Late(s, s.list[i]) { NewNext(s, s.list[i], i); assert OpOk(s, s.list[i]); }
  }

  lemma StorePrevLate(s: State, n: Id, i: nat, k: nat, j: nat)
    requires Full(s) && StepOk(s, n) && AtS(s, n, StorePrev) && Inv(DoSplit(s, n)) && SameDead(s, DoSplit(s, n))
    requires k < |s.list| && s.list[k] == n && i < |s.list| && i != k && j == (if i < k then i else i + 1)
    requires i < k && Late(s, s.list[i]) ==> i + 1 < k
    requires var t := DoSplit(s, n);
      |t.list| == |s.list| + 1
        && forall i {:trigger t.list[i]} :: 0 <= i < |t.list| ==>
        t.list[i] == if i <= k then s.list[i] else if i == k + 1 then s.op[n].nr else s.list[i-1]
    ensures LateOk(DoSplit(s, n), j)
  {
    var t := DoSplit(s, n);
    var x := s.list[i];
    assert LateOk(s, i);
    if Late(t, x) { ReachFrame(s, t, t.op[x].next); NewNext(s, x, i); }
  }

  lemma BypassLate(s: State, n: Id, j: nat, i: nat, i0: nat)
    requires Full(s) && StepOk(s, n) && AtU(s, n, Bypass) && Inv(DoUnlink(s, n))
    requires j + 1 < |s.list| && s.list[j+1] == n && s.list[j] == s.op[n].prev && !Late(s, s.op[n].prev)
    requires var t := DoUnlink(s, n);
      |t.list| == |s.list| - 1
        && forall i {:trigger t.list[i]} :: 0 <= i < |t.list| ==>
        t.list[i] == if i < j + 1 then s.list[i] else s.list[i+1]
    requires i < |s.list| - 1 && i0 == if i <= j then i else i + 1
    ensures LateOk(DoUnlink(s, n), i)
  {
    hide Delete; hide Marks; hide Distinct;
    var t := DoUnlink(s, n);
    var x := s.list[i0];
    assert LateOk(s, i0) && t.list[i] == x;
    if Late(t, x) {
      NewNext(s, x, i0);
      ReachBypass(s, n, s.op[x].next);
      assert OpOk(s, x) && OpOk(s, n);
      assert i0 + 1 != j + 1 && i0 != j + 1;
      if j + 2 < |s.list| { OldEdge(s, j + 1); }
      OnlyOnce(s, i0 + 2, j + 1);
    }
  }

  lemma OnlyOnce(s: State, a: nat, b: nat)
    requires Distinct(s.list) && b < |s.list|
    ensures a < |s.list| && s.list[a] == s.list[b] ==> a == b
  { }

  lemma BypassFull(s: State, n: Id)
    requires Full(s) && StepOk(s, n) && AtU(s, n, Bypass)
    ensures Full(DoUnlink(s, n))
  {
    var t := DoUnlink(s, n);
    BypassOk(s, n);
    assert OpOk(s, n);
    var j := Before(s, s.op[n].prev, n);
    DeleteAt(s.list, j + 1);
    hide Delete; hide Marks; hide Distinct; hide Edges; hide Ops;
    forall i | 0 <= i < |t.list| ensures LateOk(t, i) {
      BypassLate(s, n, j, i, if i <= j then i else i + 1);
    }
  }

  lemma StepFull(s: State, a: Action)
    requires Full(s) && Enabled(s, a)
    ensures CanStep(s, a) && Full(Do(s, a))
  {
    StepInv(s, a);
    if Quiet(s, a) { QuietFull(s, a); }
    else if s.op[a.n].Split? { StorePrevFull(s, a.n); }
    else { BypassFull(s, a.n); }
  }

  // ---------- runs ----------
  ghost predicate Init(s: State) {
    exists n :: s == State(map[n := Cell(None, false, None)], map[], [n], [])
  }

  ghost predicate Run(s: State, acts: seq<Action>, t: State)
    decreases |acts|
  {
    if acts == [] then s == t
    else CanStep(s, acts[0]) && Run(Do(s, acts[0]), acts[1..], t)
  }

  lemma {:induction false} RunFull(s: State, acts: seq<Action>, t: State)
    requires Full(s) && Run(s, acts, t)
    ensures Full(t)
    decreases |acts|
  {
    if acts != [] {
      StepFull(s, acts[0]);
      RunFull(Do(s, acts[0]), acts[1..], t);
    }
  }

  lemma InitFull(s: State)
    requires Init(s)
    ensures Full(s)
  { }

  // ---------- what a reader sees ----------
  // p is the mark-stripped chain of next pointers from z to its end
  ghost predicate Follows(s: State, z: Option<Id>, p: seq<Id>)
    decreases |p|
  {
    if z.None? then p == []
    else p != [] && p[0] == z.value && z.value in s.cell && Follows(s, s.cell[z.value].next, p[1..])
  }

  lemma {:induction false} FollowsOne(s: State, z: Option<Id>, p: seq<Id>, q: seq<Id>)
    requires Follows(s, z, p) && Follows(s, z, q)
    ensures p == q
    decreases |p|
  {
    if z.Some? { FollowsOne(s, s.cell[z.value].next, p[1..], q[1..]); }
  }

  // nr of a split that has not made its final store
  ghost predicate IsNew(s: State, x: Id) { exists m :: Late(s, m) && s.op[m].nr == x }

  // the list as far as it has been published: the abstract list
  ghost function Pub(s: State, l: seq<Id>): seq<Id> {
    if l == [] then [] else (if IsNew(s, l[0]) then [] else [l[0]]) + Pub(s, l[1..])
  }

  ghost function Live(s: State, p: seq<Id>): seq<Id> {
    if p == [] then [] else (if p[0] in s.dead then [] else [p[0]]) + Live(s, p[1..])
  }

  // a split whose old successor has been unlinked behind its back
  ghost predicate Stale(s: State, x: Id) { Late(s, x) && s.op[x].next.Some? && s.op[x].next.value in s.dead }

  ghost predicate HasDead(s: State, p: seq<Id>) { p != [] && (p[0] in s.dead || HasDead(s, p[1..])) }

  ghost predicate StaleFrom(s: State, i: nat)
    decreases |s.list| - i
  { i < |s.list| && (Stale(s, s.list[i]) || StaleFrom(s, i + 1)) }

  lemma {:induction false} ThroughDead(s: State, z: Option<Id>, q: seq<Id>) returns (p: seq<Id>)
    requires Deads(s) && Follows(s, Reach(s, z), q)
    ensures Follows(s, z, p) && Live(s, p) == Live(s, q)
    ensures HasDead(s, p) <==> (z.Some? && z.value in s.dead) || HasDead(s, q)
    decreases Age(s, z)
  {
    if z.Some? && z.value in s.dead {
      Younger(s, z.value);
      var r := ThroughDead(s, s.cell[z.value].next, q);
      p := [z.value] + r;
      assert p[1..] == r;
    } else {
      p := q;
    }
  }

  lemma NewIsAfterLate(s: State, i: nat)
    requires Full(s) && i < |s.list|
    ensures IsNew(s, s.list[i]) <==> i > 0 && Late(s, s.list[i-1])
  {
    if IsNew(s, s.list[i]) {
      var m :| Late(s, m) && s.op[m].nr == s.list[i];
      assert OpOk(s, m);
      var k := At(s, m);
      NewNext(s, m, k);
    }
    if i > 0 && Late(s, s.list[i-1]) { NewNext(s, s.list[i-1], i - 1); }
  }

  lemma {:induction false} WalkFrom(s: State, i: nat) returns (p: seq<Id>)
    requires Full(s) && i < |s.list| && !IsNew(s, s.list[i])
    ensures Follows(s, Some(s.list[i]), p) && Live(s, p) == Pub(s, s.list[i..])
    ensures HasDead(s, p) <==> StaleFrom(s, i)
    decreases |s.list| - i
  {
    var x := s.list[i];
    NotInDead(s, x);
    if i + 1 == |s.list| {
      p := [x];
      LastCell(s);
      assert p[1..] == [] && s.list[i..][1..] == [];
    } else {
      OldEdge(s, i);
      NewIsAfterLate(s, i + 1);
      assert s.list[i..][1..] == s.list[i+1..];
      var r: seq<Id>;
      if Late(s, x) {
        assert OpOk(s, x) && LateOk(s, i);
        var q := [];
        if i + 2 < |s.list| {
          NewIsAfterLate(s, i + 2);
          NewIsLocked(s, i + 1);
          q := WalkFrom(s, i + 2);
        }
        assert s.list[i+1..][1..] == s.list[i+2..];
        assert StaleFrom(s, i + 1) == StaleFrom(s, i + 2) by { NewIsLocked(s, i + 1); }
        assert Follows(s, After(s, i + 1), q);
        r := ThroughDead(s, s.op[x].next, q);
      } else {
        r := WalkFrom(s, i + 1);
      }
      p := [x] + r;
      assert p[1..] == r;
    }
  }

  lemma NewIsLocked(s: State, i: nat)
    requires Full(s) && 0 < i < |s.list| && Late(s, s.list[i-1])
    ensures s.list[i] !in s.op
  {
    NewNext(s, s.list[i-1], i - 1);
    assert OpOk(s, s.list[i-1]);
  }

  lemma LiveAll(s: State, p: seq<Id>)
    ensures |Live(s, p)| <= |p| && (Live(s, p) == p <==> !HasDead(s, p))
  {
    if p != [] {
      LiveAll(s, p[1..]);
      if p[0] !in s.dead { assert Live(s, p)[1..] == Live(s, p[1..]); }
    }
  }

  lemma StaleIff(s: State, i: nat)
    ensures StaleFrom(s, i) <==> exists k :: i <= k < |s.list| && Stale(s, s.list[k])
    decreases |s.list| - i
  { if i < |s.list| { StaleIff(s, i + 1); } }

  // In every reachable state the next pointers, marks stripped, lead from the leftmost leaf through exactly the
  // published leaves in order, and possibly through leaves that have left; the latter exactly when some split is
  // stale.
  lemma Chain(s: State, p: seq<Id>)
    requires Full(s) && Follows(s, Some(s.list[0]), p)
    ensures Live(s, p) == Pub(s, s.list)
    ensures p == Pub(s, s.list) <==> forall x :: !Stale(s, x)
  {
    NewIsAfterLate(s, 0);
    var q := WalkFrom(s, 0);
    FollowsOne(s, Some(s.list[0]), p, q);
    assert s.list[0..] == s.list;
    LiveAll(s, p);
    StaleIff(s, 0);
    forall x | Stale(s, x) ensures exists k :: 0 <= k < |s.list| && Stale(s, s.list[k]) {
      assert OpOk(s, x);
      var k := At(s, x);
    }
  }

  lemma ChainEnds(s: State)
    requires Full(s)
    ensures exists p :: Follows(s, Some(s.list[0]), p)
  {
    NewIsAfterLate(s, 0);
    var q := WalkFrom(s, 0);
  }

  ghost predicate PointsTo(s: State, x: Id, y: Id) { x in s.cell && s.cell[x].next == Some(y) }
  ghost predicate PointsBack(s: State, y: Id, x: Id) { y in s.cell && s.cell[y].prev == Some(x) }

  lemma Inverse(s: State, x: Id, y: Id)
    requires Full(s) && s.op == map[] && x in s.list && y in s.list
    ensures PointsTo(s, x, y) <==> PointsBack(s, y, x)
  {
    var i := At(s, x);
    var j := At(s, y);
    if i + 1 < |s.list| { OldEdge(s, i); } else { LastCell(s); }
    if j > 0 { OldEdge(s, j - 1); }
  }

  // With no operation under way prev and next are each other's inverse, nothing is marked, and the chain is the list.
  lemma Quiescent(s: State)
    requires Full(s) && s.op == map[]
    ensures forall x, y :: x in s.list && y in s.list ==> (PointsTo(s, x, y) <==> PointsBack(s, y, x))
    ensures forall x :: x in s.list ==> x in s.cell && !s.cell[x].marked
    ensures Pub(s, s.list) == s.list && Follows(s, Some(s.list[0]), s.list)
  {
    HaveCells(s);
    PubAll(s, s.list);
    var p := ThePath(s);
    Chain(s, p);
    hide Edges; hide Distinct; hide Deads; hide LateOk;
    forall x, y | x in s.list && y in s.list ensures PointsTo(s, x, y) <==> PointsBack(s, y, x) {
      Inverse(s, x, y);
    }
  }

  lemma ThePath(s: State) returns (p: seq<Id>)
    requires Full(s)
    ensures Follows(s, Some(s.list[0]), p)
  {
    ChainEnds(s);
    p :| Follows(s, Some(s.list[0]), p);
  }

  lemma PubAll(s: State, l: seq<Id>)
    requires s.op == map[]
    ensures Pub(s, l) == l
  { }

  // ---------- how the abstract list changes ----------
  lemma {:induction false} PubFrame(s: State, t: State, l: seq<Id>)
    requires forall x :: x in l ==> (IsNew(s, x) <==> IsNew(t, x))
    ensures Pub(s, l) == Pub(t, l)
  { if l != [] { PubFrame(s, t, l[1..]); } }

  lemma {:induction false} PubSkip(t: State, l: seq<Id>, n: Id, x: Id)
    requires IsNew(t, x)
    ensures Pub(t, Insert(l, n, x)) == Pub(t, l)
  {
    if l != [] {
      if l[0] == n {
        assert Insert(l, n, x)[1..] == [x] + l[1..];
        assert ([x] + l[1..])[1..] == l[1..];
      } else {
        PubSkip(t, l[1..], n, x);
        assert Insert(l, n, x)[1..] == Insert(l[1..], n, x);
      }
    }
  }

  lemma {:induction false} PubDelete(t: State, l: seq<Id>, n: Id)
    requires !IsNew(t, n)
    ensures Pub(t, Delete(l, n)) == Delete(Pub(t, l), n)
  {
    if l != [] && l[0] != n {
      PubDelete(t, l[1..], n);
      assert Delete(l, n)[0] == l[0] && Delete(l, n)[1..] == Delete(l[1..], n);
      if !IsNew(t, l[0]) { assert Pub(t, l)[0] == l[0] && Pub(t, l)[1..] == Pub(t, l[1..]); }
      else { assert Pub(t, l) == Pub(t, l[1..]); }
    } else if l != [] {
      assert Pub(t, l)[1..] == Pub(t, l[1..]);
    }
  }

  // nr shows right after n
  lemma {:induction false} PubShow(s: State, t: State, l: seq<Id>, k: nat)
    requires k + 1 < |l| && Distinct(l) && IsNew(s, l[k+1]) && !IsNew(s, l[k]) && !IsNew(t, l[k+1])
    requires forall x :: x in l && x != l[k+1] ==> (IsNew(s, x) <==> IsNew(t, x))
    ensures Pub(t, l) == Insert(Pub(s, l), l[k], l[k+1])
  {
    if k == 0 {
      assert l[1..][1..] == l[2..];
      PubFrame(s, t, l[2..]);
      assert Pub(s, l)[1..] == Pub(s, l[1..]);
    } else {
      assert l[1..][k-1] == l[k] && l[1..][k] == l[k+1] && l[0] != l[k] && l[0] != l[k+1];
      PubShow(s, t, l[1..], k - 1);
      if !IsNew(s, l[0]) { assert Pub(s, l)[0] == l[0] && Pub(s, l)[1..] == Pub(s, l[1..]); }
      else { assert Pub(s, l) == Pub(s, l[1..]) && Pub(t, l) == Pub(t, l[1..]); }
    }
  }

  lemma OwnsNotNew(s: State, n: Id)
    requires Full(s) && n in s.op
    ensures !IsNew(s, n)
  {
    forall m | Late(s, m) ensures s.op[m].nr != n { assert OpOk(s, m); }
  }

  // The abstract list changes at the final next store of an operation and at no other step: link_split puts nr right
  // after n, unlink takes n out.
  lemma ListChanges(s: State, a: Action)
    requires Full(s) && Enabled(s, a) && CanStep(s, a) && Full(Do(s, a))
    ensures var t := Do(s, a);
      Pub(t, t.list) ==
        if a.Step? && AtS(s, a.n, Publish) then Insert(Pub(s, s.list), a.n, s.op[a.n].nr)
        else if a.Step? && AtU(s, a.n, Bypass) then Delete(Pub(s, s.list), a.n)
        else Pub(s, s.list)
  {
    var t := Do(s, a);
    match a
    case BeginSplit(n, nr) =>
      SameLates(s, t);
      PubFrame(s, t, s.list);
    case BeginUnlink(n) =>
      SameLates(s, t);
      PubFrame(s, t, s.list);
    case Step(n) =>
      OwnsNotNew(s, n);
      if AtS(s, n, Publish) {
        PublishShows(s, n);
      } else if AtU(s, n, Bypass) {
        SameLates(s, t);
        PubFrame(s, t, s.list);
        PubDelete(t, s.list, n);
      } else if AtS(s, n, StorePrev) {
        StorePrevHides(s, n);
      } else {
        SameLates(s, t);
        PubFrame(s, t, s.list);
      }
  }

  lemma SameLates(s: State, t: State)
    requires forall m :: (Late(s, m) <==> Late(t, m)) && (Late(s, m) ==> s.op[m].nr == t.op[m].nr)
    ensures forall x :: IsNew(s, x) <==> IsNew(t, x)
  {
    forall x ensures IsNew(s, x) <==> IsNew(t, x) {
      if IsNew(s, x) { var m :| Late(s, m) && s.op[m].nr == x; assert Late(t, m); }
      if IsNew(t, x) { var m :| Late(t, m) && t.op[m].nr == x; assert Late(s, m); }
    }
  }

  lemma PublishShows(s: State, n: Id)
    requires Full(s) && StepOk(s, n) && AtS(s, n, Publish)
    ensures var t := DoSplit(s, n); Pub(t, t.list) == Insert(Pub(s, s.list), n, s.op[n].nr)
  {
    var t := DoSplit(s, n);
    assert OpOk(s, n);
    var k := At(s, n);
    NewNext(s, n, k);
    OwnsNotNew(s, n);
    assert Late(s, n);
    forall m | Late(s, m) && s.op[m].nr == s.op[n].nr ensures m == n { assert OpOk(s, m); }
    forall x | x != s.op[n].nr ensures IsNew(s, x) <==> IsNew(t, x) {
      if IsNew(s, x) { var m :| Late(s, m) && s.op[m].nr == x; assert Late(t, m); }
      if IsNew(t, x) { var m :| Late(t, m) && t.op[m].nr == x; assert Late(s, m); }
    }
    PubShow(s, t, s.list, k);
  }

  lemma StorePrevHides(s: State, n: Id)
    requires Full(s) && StepOk(s, n) && AtS(s, n, StorePrev)
    ensures var t := DoSplit(s, n); Pub(t, t.list) == Pub(s, s.list)
  {
    var t := DoSplit(s, n);
    var nr := s.op[n].nr;
    assert OpOk(s, n) && Late(t, n);
    forall x | x in s.list ensures IsNew(s, x) <==> IsNew(t, x) {
      if IsNew(s, x) { var m :| Late(s, m) && s.op[m].nr == x; assert Late(t, m); }
      if IsNew(t, x) { var m :| Late(t, m) && t.op[m].nr == x; assert m != n ==> Late(s, m); }
    }
    PubFrame(s, t, s.list);
    PubSkip(t, s.list, n, nr);
  }

  // ---------- the theorem over runs, and why the removed leaves have to be in it ----------
  ghost predicate Reachable(t: State) { exists s, acts :: Init(s) && Run(s, acts, t) }

  lemma {:induction false} RunSnoc(s: State, acts: seq<Action>, t: State, a: Action)
    requires Run(s, acts, t) && CanStep(t, a)
    ensures Run(s, acts + [a], Do(t, a))
    decreases |acts|
  {
    if acts == [] {
      assert ([] + [a])[1..] == [];
    } else {
      RunSnoc(Do(s, acts[0]), acts[1..], t, a);
      assert (acts + [a])[1..] == acts[1..] + [a];
    }
  }

  lemma ReachStep(s: State, a: Action)
    requires Reachable(s) && CanStep(s, a)
    ensures Reachable(Do(s, a))
  {
    var s0, acts :| Init(s0) && Run(s0, acts, s);
    RunSnoc(s0, acts, s, a);
  }

  lemma ReachFull(t: State)
    requires Reachable(t)
    ensures Full(t)
  {
    var s, acts :| Init(s) && Run(s, acts, t);
    InitFull(s);
    RunFull(s, acts, t);
  }

  // In every state of every run: whoever follows the next pointers from the leftmost leaf meets the abstract list, and
  // besides it only leaves that were unlinked through a leaf not yet published.
  lemma AlwaysChain(t: State)
    requires Reachable(t)
    ensures |t.list| > 0 && exists p :: Follows(t, Some(t.list[0]), p)
    ensures forall p :: Follows(t, Some(t.list[0]), p) ==>
      Live(t, p) == Pub(t, t.list) && (p == Pub(t, t.list) <==> forall x :: !Stale(t, x))
  {
    ReachFull(t);
    ChainEnds(t);
    forall p | Follows(t, Some(t.list[0]), p)
      ensures Live(t, p) == Pub(t, t.list) && (p == Pub(t, t.list) <==> forall x :: !Stale(t, x))
    {
      Chain(t, p);
    }
  }

  // a split that nobody disturbs, up to its final store
  ghost function SplitSolo(s: State, n: Id, nr: Id): State
    requires n in s.cell && nr !in s.cell && (s.cell[n].next.Some? ==> s.cell[n].next.value in s.cell)
  {
    var next := s.cell[n].next;
    var c := s.cell[nr := Cell(next, false, Some(n))][n := s.cell[n].(marked := next.Some?)];
    State(if next.Some? then c[next.value := c[next.value].(prev := Some(nr))] else c,
          s.op[n := Split(nr, Publish, next)], Insert(s.list, n, nr), s.dead)
  }

  lemma SplitSoloRuns(s: State, n: Id, nr: Id)
    requires Reachable(s) && Enabled(s, BeginSplit(n, nr)) && n in s.cell && !s.cell[n].marked
    requires s.cell[n].next.Some? ==> s.cell[n].next.value in s.cell && s.cell[n].next.value != n
    ensures Reachable(SplitSolo(s, n, nr))
  {
    hide Reachable; hide Owned;
    var next := s.cell[n].next;
    ReachStep(s, BeginSplit(n, nr));
    var a := State(s.cell[nr := Cell(None, false, None)], s.op[n := Split(nr, SetPrev, None)], s.list, s.dead);
    ReachStep(a, Step(n));
    var b := State(s.cell[nr := Cell(None, false, Some(n))], s.op[n := Split(nr, Lock, None)], s.list, s.dead);
    assert Do(a, Step(n)) == b;
    ReachStep(b, Step(n));
    var c := State(b.cell[n := s.cell[n].(marked := next.Some?)], s.op[n := Split(nr, StoreNext, next)], s.list,
      s.dead);
    assert Do(b, Step(n)) == c;
    ReachStep(c, Step(n));
    var d := State(s.cell[nr := Cell(next, false, Some(n))][n := s.cell[n].(marked := next.Some?)],
      s.op[n := Split(nr, StorePrev, next)], s.list, s.dead);
    assert Do(c, Step(n)) == d;
    ReachStep(d, Step(n));
    assert Do(d, Step(n)) == SplitSolo(s, n, nr);
  }

  // an unlink that nobody disturbs
  ghost function UnlinkSolo(s: State, n: Id, p: Id): State
    requires n in s.cell && p in s.cell && (s.cell[n].next.Some? ==> s.cell[n].next.value in s.cell)
  {
    var next := s.cell[n].next;
    var c := s.cell[n := s.cell[n].(marked := next.Some?)][p := s.cell[p].(marked := true)];
    var d := if next.Some? then c[next.value := c[next.value].(prev := Some(p))] else c;
    State(d[p := d[p].(next := next, marked := false)], s.op - {n}, Delete(s.list, n), s.dead + [n])
  }

  lemma UnlinkSoloRuns(s: State, n: Id, p: Id)
    requires Reachable(s) && Enabled(s, BeginUnlink(n)) && n in s.cell && !s.cell[n].marked
      && s.cell[n].prev == Some(p) && p != n
    requires s.cell[n].next.Some? ==>
      s.cell[n].next.value in s.cell && s.cell[n].next.value != n && s.cell[n].next.value != p
    requires p in s.cell && s.cell[p].next == Some(n) && !s.cell[p].marked
    requires n !in s.op
    ensures Reachable(UnlinkSolo(s, n, p))
  {
    hide Reachable; hide Owned;
    var next := s.cell[n].next;
    ReachStep(s, BeginUnlink(n));
    var a := State(s.cell, s.op[n := Unlink(LockOwn, None, 0)], s.list, s.dead);
    ReachStep(a, Step(n));
    var b := State(s.cell[n := s.cell[n].(marked := next.Some?)], s.op[n := Unlink(ReadPrev, next, 0)], s.list, s.dead);
    assert Do(a, Step(n)) == b;
    ReachStep(b, Step(n));
    var c := State(b.cell, s.op[n := Unlink(MarkPrev, next, p)], s.list, s.dead);
    assert Do(b, Step(n)) == c;
    ReachStep(c, Step(n));
    var d := State(b.cell[p := s.cell[p].(marked := true)], s.op[n := Unlink(BackLink, next, p)], s.list, s.dead);
    assert Do(c, Step(n)) == d;
    ReachStep(d, Step(n));
    var f := State(if next.Some? then d.cell[next.value := d.cell[next.value].(prev := Some(p))] else d.cell,
                   s.op[n := Unlink(Bypass, next, p)], s.list, s.dead);
    assert Do(d, Step(n)) == f;
    ReachStep(f, Step(n));
    assert f.op - {n} == s.op - {n};
    assert Do(f, Step(n)) == UnlinkSolo(s, n, p);
  }

  // A stale split does occur: leaf 1 is unlinked through leaf 2 before 0 points to 2, so 0 still points to 1.
  lemma StaleHappens() returns (t: State)
    ensures Reachable(t) && Stale(t, 0) && Pub(t, t.list) == [0] && Follows(t, Some(0), [0, 1])
  {
    hide Reachable;
    var s0 := State(map[0 := Cell(None, false, None)], map[], [0], []);
    assert Reachable(s0) by { StartReachable(s0); }
    var s1 := AfterFirst(s0);
    SplitSoloRuns(s1, 0, 2);
    var s2 := State(map[0 := Cell(Some(1), true, None), 1 := Cell(None, false, Some(2)),
      2 := Cell(Some(1), false, Some(0))],
                    map[0 := Split(2, Publish, Some(1))], [0, 2, 1], []);
    assert SplitSolo(s1, 0, 2) == s2;
    UnlinkSoloRuns(s2, 1, 2);
    t := State(s2.cell[2 := Cell(None, false, Some(0))], s2.op, [0, 2], [1]);
    assert UnlinkSolo(s2, 1, 2) == t;
    StaleSeen(t);
  }

  lemma StartReachable(s: State)
    requires Init(s)
    ensures Reachable(s)
  { assert Run(s, [], s); }

  lemma AfterFirst(s0: State) returns (s1: State)
    requires s0 == State(map[0 := Cell(None, false, None)], map[], [0], []) && Reachable(s0)
    ensures s1 == State(map[0 := Cell(Some(1), false, None), 1 := Cell(None, false, Some(0))], map[], [0, 1], [])
      && Reachable(s1)
  {
    hide Reachable;
    SplitSoloRuns(s0, 0, 1);
    var a := State(map[0 := Cell(None, false, None), 1 := Cell(None, false, Some(0))],
      map[0 := Split(1, Publish, None)], [0, 1], []);
    assert SplitSolo(s0, 0, 1) == a;
    ReachStep(a, Step(0));
    s1 := State(map[0 := Cell(Some(1), false, None), 1 := Cell(None, false, Some(0))], map[], [0, 1], []);
    assert Do(a, Step(0)) == s1;
  }

  lemma StaleSeen(t: State)
    requires t == State(map[0 := Cell(Some(1), true, None), 1 := Cell(None, false, Some(2)),
      2 := Cell(None, false, Some(0))],
                        map[0 := Split(2, Publish, Some(1))], [0, 2], [1])
    ensures Stale(t, 0) && Pub(t, t.list) == [0] && Follows(t, Some(0), [0, 1])
  {
    assert Late(t, 0) && IsNew(t, 2) && !IsNew(t, 0);
    assert t.list[1..] == [2] && [2][1..] == [];
    assert Pub(t, [2]) == Pub(t, []) == [];
    assert [0, 1][1..] == [1] && [1][1..] == [];
  }

  // ---------- no deadlock ----------
  // n's operation finishes within j steps of its own if nobody else moves
  ghost predicate Solo(s: State, n: Id, j: nat)
    decreases j
  {
    n !in s.op || (j > 0 && CanStep(s, Step(n)) && Solo(Do(s, Step(n)), n, j - 1))
  }

  function SplitLeft(at: SplitAt): nat {
    match at case SetPrev => 5 case Lock => 4 case StoreNext => 3 case StorePrev => 2 case Publish => 1
  }

  ghost predicate Free(s: State, n: Id) { n in s.cell && (Locked(s, n) || !s.cell[n].marked) }

  lemma {:induction false} SplitFinishes(s: State, n: Id)
    requires Full(s) && n in s.op && s.op[n].Split? && Free(s, n)
    ensures Solo(s, n, SplitLeft(s.op[n].sat))
    decreases SplitLeft(s.op[n].sat)
  {
    StepFull(s, Step(n));
    var t := Do(s, Step(n));
    assert OpOk(s, n);
    hide Inv; hide Full;
    if !s.op[n].sat.Publish? { SplitFinishes(t, n); }
  }

  lemma {:induction false} UnlinkEnds(s: State, n: Id)
    requires Full(s) && Grabbed(s, n)
    ensures Solo(s, n, if s.op[n].uat.BackLink? then 2 else 1)
    decreases s.op[n].uat.BackLink?
  {
    StepFull(s, Step(n));
    hide Inv; hide Full;
    if s.op[n].uat.BackLink? { UnlinkEnds(Do(s, Step(n)), n); }
  }

  function UnlinkLeft(o: Op, p: Id): nat
    requires o.Unlink?
  {
    match o.uat
    case LockOwn => 5
    case ReadPrev => 4
    case MarkPrev => if o.prev == p then 3 else 5
    case BackLink => 2
    case Bypass => 1
  }

  lemma {:induction false} UnlinkFinishes(s: State, n: Id, k: nat)
    requires Full(s) && n in s.op && s.op[n].Unlink? && Free(s, n)
    requires k + 1 < |s.list| && s.list[k+1] == n && s.list[k] !in s.op
    ensures Solo(s, n, UnlinkLeft(s.op[n], s.list[k]))
    decreases UnlinkLeft(s.op[n], s.list[k])
  {
    if Grabbed(s, n) { UnlinkEnds(s, n); return; }
    StepFull(s, Step(n));
    var t := Do(s, Step(n));
    assert OpOk(s, n);
    OldEdge(s, k);
    var x := s.list[k];
    assert s.cell[x].marked ==> Locked(s, x) || Grabbed(s, n);
    if AtU(s, n, MarkPrev) && s.cell[s.op[n].prev].next == Some(n) && !s.cell[s.op[n].prev].marked {
      var j := Before(s, s.op[n].prev, n);
      OnlyOnce(s, j + 1, k + 1);
    }
    if Grabbed(t, n) { UnlinkEnds(t, n); } else { UnlinkFinishes(t, n, k); }
  }

  lemma Leftmost(s: State) returns (i: nat)
    requires Full(s) && s.op != map[]
    ensures i < |s.list| && s.list[i] in s.op && forall j :: 0 <= j < i ==> s.list[j] !in s.op
  {
    var n :| n in s.op;
    assert OpOk(s, n);
    var k := At(s, n);
    i := 0;
    while s.list[i] !in s.op
      invariant i <= k && forall j :: 0 <= j < i ==> s.list[j] !in s.op
      decreases k - i
    { i := i + 1; }
  }

  // Whenever operations are under way, one of them finishes in at most five steps of its own.
  lemma NoDeadlock(s: State) returns (n: Id, j: nat)
    requires Full(s) && s.op != map[]
    ensures n in s.op && j <= 5 && Solo(s, n, j)
  {
    var i := Leftmost(s);
    n := s.list[i];
    HaveCells(s);
    if !Free(s, n) {
      n := s.cell[n].next.value;
      UnlinkEnds(s, n);
      j := if s.op[n].uat.BackLink? then 2 else 1;
    } else if s.op[n].Split? {
      SplitFinishes(s, n);
      j := SplitLeft(s.op[n].sat);
    } else {
      assert OpOk(s, n);
      UnlinkFinishes(s, n, i - 1);
      j := UnlinkLeft(s.op[n], s.list[i-1]);
    }
  }
}
