// Epoch-based reclamation across threads, one load or store a step. Several scans of the thread list may be under way
// at once, and a thread may sleep between any load and the store that depends on it.
module Epochs {
  import opened Options

  type Tid = nat
  type Obj = nat
  type ScanId = nat
  type Epoch = nat

  // rcu_start is a load of globalepoch and then a store of gc_epoch_. A section was entered at the epoch loaded for it;
  // a thread that starts again from a section has left that one, but its gc_epoch_ is still the old one.
  datatype Phase = Idle | Starting(loaded: Epoch, from: Option<Epoch>) | InSection(entered: Epoch)

  // bound is hard_rcu_quiesce's local epoch_bound while it frees
  datatype Thread = Thread(gcEpoch: Epoch, phase: Phase, bound: Option<int>)

  // min_active_epoch in progress: the minimum so far and the threads not looked at yet
  datatype Scan = Scan(min: Epoch, todo: set<Tid>)

  // holders: the threads whose section began before the record and has not ended
  datatype Recorded = Recorded(epoch: Epoch, owner: Tid, holders: set<Tid>)

  datatype State = State(global: Epoch, active: Epoch, threads: map<Tid, Thread>, scans: map<ScanId, Scan>,
                         limbo: map<Obj, Recorded>, freed: set<Obj>)

  datatype Action =
    | Advance(e: Epoch)
    | BeginScan(id: ScanId) | ScanThread(id: ScanId, t: Tid) | EndScan(id: ScanId)
    | NewThread(t: Tid) | LoadGlobal(t: Tid) | StoreEpoch(t: Tid) | Stop(t: Tid)
    | Record(t: Tid, o: Obj)
    | LoadBound(t: Tid) | Free(t: Tid, o: Obj) | EndFree(t: Tid)

  function Init(): State { State(1, 1, map[], map[], map[], {}) }

  predicate Enabled(s: State, a: Action) {
    match a
    case Advance(e) => e > s.global
    case BeginScan(id) => id !in s.scans
    case ScanThread(id, t) => id in s.scans && t in s.scans[id].todo && t in s.threads
    case EndScan(id) => id in s.scans && s.scans[id].todo == {}
    case NewThread(t) => t !in s.threads
    case LoadGlobal(t) => t in s.threads && !s.threads[t].phase.Starting? && s.threads[t].bound.None?
    case StoreEpoch(t) => t in s.threads && s.threads[t].phase.Starting?
    case Stop(t) => t in s.threads && s.threads[t].phase.InSection? && s.threads[t].bound.None?
    case Record(t, o) => t in s.threads && o !in s.limbo
    case LoadBound(t) => t in s.threads && s.threads[t].bound.None?
    case Free(t, o) =>
      t in s.threads && s.threads[t].bound.Some? && o in s.limbo && o !in s.freed
      && s.limbo[o].owner == t && s.limbo[o].epoch <= s.threads[t].bound.value
    case EndFree(t) => t in s.threads && s.threads[t].bound.Some?
  }

  function InSections(s: State): set<Tid> { set t | t in s.threads && s.threads[t].phase.InSection? }

  // a thread that ends its section or begins another holds nothing from before
  function Release(limbo: map<Obj, Recorded>, t: Tid): map<Obj, Recorded> {
    map o | o in limbo :: limbo[o].(holders := limbo[o].holders - {t})
  }

  function Do(s: State, a: Action): State
    requires Enabled(s, a)
  {
    match a
    case Advance(e) => s.(global := e)
    case BeginScan(id) => s.(scans := s.scans[id := Scan(s.global, s.threads.Keys)])
    case ScanThread(id, t) =>
      var te := s.threads[t].gcEpoch;
      var c := s.scans[id];
      s.(scans := s.scans[id := Scan(if te != 0 && te < c.min then te else c.min, c.todo - {t})])
    case EndScan(id) => s.(active := s.scans[id].min, scans := s.scans - {id})
    case NewThread(t) => s.(threads := s.threads[t := Thread(0, Idle, None)])
    case LoadGlobal(t) =>
      var p := s.threads[t].phase;
      var next := Starting(s.global, if p.InSection? then Some(p.entered) else None);
      s.(threads := s.threads[t := s.threads[t].(phase := next)], limbo := Release(s.limbo, t))
    case StoreEpoch(t) =>
      var loaded := s.threads[t].phase.loaded;
      s.(threads := s.threads[t := s.threads[t].(gcEpoch := loaded, phase := InSection(loaded))])
    case Stop(t) => s.(threads := s.threads[t := s.threads[t].(gcEpoch := 0, phase := Idle)],
      limbo := Release(s.limbo, t))
    case Record(t, o) => s.(limbo := s.limbo[o := Recorded(s.global, t, InSections(s))])
    case LoadBound(t) => s.(threads := s.threads[t := s.threads[t].(bound := Some(s.active - 1))])
    case Free(t, o) => s.(freed := s.freed + {o})
    case EndFree(t) => s.(threads := s.threads[t := s.threads[t].(bound := None)])
  }

  // ---------- the invariant ----------
  // gc_epoch_ of a thread: the epoch of its section, or of the one it starts again from, and 0 if there is none
  function Shown(p: Phase): Epoch {
    match p
    case Idle => 0
    case Starting(_, from) => if from.Some? then from.value else 0
    case InSection(e) => e
  }

  ghost predicate Clock(s: State) {
    && 1 <= s.active <= s.global
    && (forall t :: t in s.threads ==> s.threads[t].gcEpoch == Shown(s.threads[t].phase) <= s.global)
    && (forall t :: t in s.threads && s.threads[t].phase.Starting? ==> 1 <= s.threads[t].phase.loaded <= s.global)
    && (forall t :: t in s.threads && s.threads[t].phase.InSection? ==> 1 <= s.threads[t].phase.entered)
    && (forall t :: t in s.threads && s.threads[t].bound.Some? ==> s.threads[t].bound.value < s.global)
    && (forall id :: id in s.scans ==> 1 <= s.scans[id].min <= s.global && s.scans[id].todo <= s.threads.Keys)
  }

  // while t may still use o, nobody's bound has reached o, and no scan can end beyond it
  ghost predicate Protected(s: State, o: Obj, t: Tid)
    requires o in s.limbo
  {
    var e := s.limbo[o].epoch;
    && t in s.threads && s.threads[t].phase.InSection? && s.threads[t].gcEpoch <= e
    && s.active <= e
    && (forall u :: u in s.threads && s.threads[u].bound.Some? ==> s.threads[u].bound.value < e)
    && (forall id :: id in s.scans ==> s.scans[id].min <= e || t in s.scans[id].todo)
  }

  ghost predicate Inv(s: State) {
    && Clock(s)
    && (forall o, t {:trigger Protected(s, o, t)} :: o in s.limbo && t in s.limbo[o].holders ==> Protected(s, o, t))
    && (forall o :: o in s.freed ==> o in s.limbo && s.limbo[o].holders == {})
  }

  lemma StepClock(s: State, a: Action)
    requires Clock(s) && Enabled(s, a)
    ensures Clock(Do(s, a))
  { }

  lemma StepProtects(s: State, a: Action, o: Obj, t: Tid)
    requires Inv(s) && Enabled(s, a) && o in Do(s, a).limbo && t in Do(s, a).limbo[o].holders
    ensures Protected(Do(s, a), o, t)
  {
    if o in s.limbo { assert Protected(s, o, t); }
  }

  lemma FreeIsSafe(s: State, t: Tid, o: Obj)
    requires Inv(s) && Enabled(s, Free(t, o))
    ensures s.limbo[o].holders == {}
  {
    forall u ensures u !in s.limbo[o].holders {
      assert u in s.limbo[o].holders ==> Protected(s, o, u);
    }
  }

  lemma StepInv(s: State, a: Action)
    requires Inv(s) && Enabled(s, a)
    ensures Inv(Do(s, a))
  {
    StepClock(s, a);
    var t := Do(s, a);
    forall o, u | o in t.limbo && u in t.limbo[o].holders ensures Protected(t, o, u) { StepProtects(s, a, o, u); }
    if a.Free? { FreeIsSafe(s, a.t, a.o); }
  }

  // ---------- runs ----------
  ghost predicate Run(s: State, acts: seq<Action>, t: State)
    decreases |acts|
  {
    if acts == [] then s == t else Enabled(s, acts[0]) && Run(Do(s, acts[0]), acts[1..], t)
  }

  lemma {:induction false} RunInv(s: State, acts: seq<Action>, t: State)
    requires Inv(s) && Run(s, acts, t)
    ensures Inv(t) && s.global <= t.global && s.freed <= t.freed
    decreases |acts|
  {
    if acts != [] {
      StepInv(s, acts[0]);
      RunInv(Do(s, acts[0]), acts[1..], t);
    }
  }

  // What t held stays among its holders as long as t takes no step that ends its section.
  ghost predicate Leaves(a: Action, t: Tid) { a == LoadGlobal(t) || a == Stop(t) }

  lemma {:induction false} StillHolds(s: State, acts: seq<Action>, u: State, o: Obj, t: Tid)
    requires Run(s, acts, u) && o in s.limbo && t in s.limbo[o].holders
      && (forall k :: 0 <= k < |acts| ==> !Leaves(acts[k], t))
    ensures o in u.limbo && t in u.limbo[o].holders
    decreases |acts|
  {
    if acts != [] {
      assert !Leaves(acts[0], t);
      StillHolds(Do(s, acts[0]), acts[1..], u, o, t);
    }
  }

  // The safety theorem. In any run, if t is in a section when o is recorded, and t does not end that section in what
  // follows, then o is not freed, by any thread, at any point of what follows.
  lemma NotFreedUnderFoot(before: seq<Action>, s: State, r: Tid, o: Obj, after: seq<Action>, u: State, t: Tid)
    requires Run(Init(), before, s) && Enabled(s, Record(r, o)) && t in InSections(s)
    requires Run(Do(s, Record(r, o)), after, u) && forall k :: 0 <= k < |after| ==> !Leaves(after[k], t)
    ensures o !in u.freed
  {
    RunInv(Init(), before, s);
    StepInv(s, Record(r, o));
    StillHolds(Do(s, Record(r, o)), after, u, o, t);
    RunInv(Do(s, Record(r, o)), after, u);
  }

  // ---------- the other direction: nothing is kept for ever ----------
  // no thread is in, or starting again from, a section entered by epoch e
  predicate Over(p: Phase, e: Epoch) {
    match p
    case Idle => true
    case Starting(_, from) => from.Some? ==> from.value > e
    case InSection(entered) => entered > e
  }

  ghost predicate Past(s: State, e: Epoch) {
    s.global > e && forall t :: t in s.threads ==> Over(s.threads[t].phase, e)
  }

  // a scan over the threads one after the other
  function ScanAll(id: ScanId, ts: seq<Tid>): seq<Action> {
    if ts == [] then [EndScan(id)] else [ScanThread(id, ts[0])] + ScanAll(id, ts[1..])
  }

  lemma {:induction false} ScanRaises(s: State, id: ScanId, ts: seq<Tid>, e: Epoch) returns (t: State)
    requires Clock(s) && Past(s, e) && id in s.scans && s.scans[id].min > e && s.scans[id].todo == (set x | x in ts)
    requires forall i, j :: 0 <= i < j < |ts| ==> ts[i] != ts[j]
    ensures Run(s, ScanAll(id, ts), t) && t.active > e && t.limbo == s.limbo && t.freed == s.freed
      && t.threads == s.threads
    decreases |ts|
  {
    if ts == [] {
      assert s.scans[id].todo == {};
      t := Do(s, EndScan(id));
      assert ScanAll(id, ts)[1..] == [];
    } else {
      assert ts[0] in s.scans[id].todo;
      var s1 := Do(s, ScanThread(id, ts[0]));
      StepClock(s, ScanThread(id, ts[0]));
      assert s1.scans[id].todo == (set x | x in ts[1..]) by {
        forall x ensures x in s1.scans[id].todo <==> x in ts[1..] {
          if x in ts[1..] { var j :| 1 <= j < |ts| && ts[j] == x; assert ts[0] != x; }
          if x in s1.scans[id].todo { var j :| 0 <= j < |ts| && ts[j] == x; assert ts[1..][j-1] == x; }
        }
      }
      t := ScanRaises(s1, id, ts[1..], e);
      assert ScanAll(id, ts)[1..] == ScanAll(id, ts[1..]);
    }
  }

  // Once every section entered by epoch e is over, one scan makes everything recorded by then free for its owner.
  lemma OneScan(s: State, id: ScanId, ts: seq<Tid>, o: Obj) returns (t: State)
    requires Inv(s) && o in s.limbo && o !in s.freed && Past(s, s.limbo[o].epoch) && id !in s.scans
    requires s.limbo[o].owner in s.threads && s.threads[s.limbo[o].owner].bound.None?
    requires (forall i, j :: 0 <= i < j < |ts| ==> ts[i] != ts[j]) && s.threads.Keys == (set x | x in ts)
    ensures Run(s, [BeginScan(id)] + ScanAll(id, ts), t)
    ensures Enabled(t, LoadBound(s.limbo[o].owner))
      && Enabled(Do(t, LoadBound(s.limbo[o].owner)), Free(s.limbo[o].owner, o))
  {
    var s1 := Do(s, BeginScan(id));
    t := ScanRaises(s1, id, ts, s.limbo[o].epoch);
    assert ([BeginScan(id)] + ScanAll(id, ts))[1..] == ScanAll(id, ts);
  }

  // in acts, t ends its section, or completes an rcu_start that begins there
  ghost predicate Renewed(acts: seq<Action>, t: Tid) {
    exists k :: 0 <= k < |acts| && (acts[k] == Stop(t) || (acts[k] == StoreEpoch(t) && LoadsBefore(acts, k, t)))
  }

  ghost predicate LoadsBefore(acts: seq<Action>, k: nat, t: Tid)
    requires k <= |acts|
  { exists j :: 0 <= j < k && acts[j] == LoadGlobal(t) }

  // t has nothing to do with sections entered by epoch e, and will not enter one
  predicate Clear(p: Phase, e: Epoch) { Over(p, e) && (p.Starting? ==> p.loaded > e) }

  lemma StaysClear(s: State, a: Action, t: Tid, e: Epoch)
    requires Enabled(s, a) && s.global > e && (t in s.threads ==> Clear(s.threads[t].phase, e)) && t in Do(s, a).threads
    ensures Clear(Do(s, a).threads[t].phase, e)
  { }

  lemma {:induction false} RunClear(s: State, acts: seq<Action>, u: State, t: Tid, e: Epoch)
    requires Run(s, acts, u) && s.global > e && (t in s.threads ==> Clear(s.threads[t].phase, e)) && t in u.threads
    ensures Clear(u.threads[t].phase, e)
    decreases |acts|
  {
    if acts != [] {
      if t in Do(s, acts[0]).threads { StaysClear(s, acts[0], t, e); }
      RunClear(Do(s, acts[0]), acts[1..], u, t, e);
    }
  }

  // t has loaded an epoch beyond e, and goes on to store it
  lemma {:induction false} StoresIt(s: State, acts: seq<Action>, u: State, t: Tid, e: Epoch, k: nat)
    requires Run(s, acts, u) && s.global > e && t in s.threads && t in u.threads
    requires s.threads[t].phase.Starting? && s.threads[t].phase.loaded > e
    requires k < |acts| && (acts[k] == Stop(t) || acts[k] == StoreEpoch(t))
    ensures Clear(u.threads[t].phase, e)
    decreases |acts|
  {
    var s1 := Do(s, acts[0]);
    if acts[0] == StoreEpoch(t) { RunClear(s1, acts[1..], u, t, e); }
    else { StoresIt(s1, acts[1..], u, t, e, k - 1); }
  }

  lemma {:induction false} RenewedIsClear(s: State, acts: seq<Action>, u: State, t: Tid, e: Epoch)
    requires Run(s, acts, u) && s.global > e && t in s.threads && t in u.threads && Renewed(acts, t)
    ensures Clear(u.threads[t].phase, e)
    decreases |acts|
  {
    var k :| 0 <= k < |acts| && (acts[k] == Stop(t) || (acts[k] == StoreEpoch(t) && LoadsBefore(acts, k, t)));
    var s1 := Do(s, acts[0]);
    if acts[0] == Stop(t) { RunClear(s1, acts[1..], u, t, e); }
    else if acts[0] == LoadGlobal(t) { StoresIt(s1, acts[1..], u, t, e, k - 1); }
    else {
      assert acts[1..][k - 1] == acts[k];
      if acts[k] != Stop(t) {
        var j :| 0 <= j < k && acts[j] == LoadGlobal(t);
        assert acts[1..][j - 1] == LoadGlobal(t);
      }
      RenewedIsClear(s1, acts[1..], u, t, e);
    }
  }

  // a record keeps its epoch and its owner, and no thread goes away
  lemma {:induction false} RunKeeps(s: State, acts: seq<Action>, u: State)
    requires Run(s, acts, u)
    ensures s.threads.Keys <= u.threads.Keys && s.limbo.Keys <= u.limbo.Keys
    ensures forall o :: o in s.limbo ==> u.limbo[o].epoch == s.limbo[o].epoch && u.limbo[o].owner == s.limbo[o].owner
    decreases |acts|
  { if acts != [] { RunKeeps(Do(s, acts[0]), acts[1..], u); } }

  // The other theorem. r records o; later the epoch has moved on; after that, every thread that was in a section, or
  // about to enter one, has ended it or entered another. Then one scan lets r free o.
  lemma Reclaimable(before: seq<Action>, s: State, r: Tid, o: Obj, wait: seq<Action>, s1: State, leave: seq<Action>,
                    u: State, id: ScanId, ts: seq<Tid>) returns (t: State)
    requires Run(Init(), before, s) && Enabled(s, Record(r, o))
    requires Run(Do(s, Record(r, o)), wait, s1) && s1.global > s.global
    requires Run(s1, leave, u) && forall x :: x in s1.threads && !s1.threads[x].phase.Idle? ==> Renewed(leave, x)
    requires o !in u.freed && id !in u.scans && (r in u.threads ==> u.threads[r].bound.None?)
    requires (forall i, j :: 0 <= i < j < |ts| ==> ts[i] != ts[j]) && u.threads.Keys == (set x | x in ts)
    ensures Run(u, [BeginScan(id)] + ScanAll(id, ts), t)
    ensures Enabled(t, LoadBound(r)) && Enabled(Do(t, LoadBound(r)), Free(r, o))
      && o in Do(Do(t, LoadBound(r)), Free(r, o)).freed
  {
    assert Inv(Init());
    hide Inv; hide Renewed; hide Past;
    var s0 := Do(s, Record(r, o));
    RunInv(Init(), before, s);
    StepInv(s, Record(r, o));
    RunInv(s0, wait, s1);
    RunInv(s1, leave, u);
    RunKeeps(s0, wait, s1);
    RunKeeps(s1, leave, u);
    assert Past(u, s.global) by { AllClear(s1, leave, u, s.global); }
    t := OneScan(u, id, ts, o);
  }

  lemma AllClear(s: State, acts: seq<Action>, u: State, e: Epoch)
    requires Run(s, acts, u) && e < s.global <= u.global
    requires forall x :: x in s.threads && !s.threads[x].phase.Idle? ==> Renewed(acts, x)
    ensures Past(u, e)
  {
    forall x | x in u.threads ensures Over(u.threads[x].phase, e) {
      if x in s.threads && !s.threads[x].phase.Idle? { RenewedIsClear(s, acts, u, x, e); }
      else { RunClear(s, acts, u, x, e); }
    }
  }
}
