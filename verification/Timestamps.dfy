// Timestamps that one key's successive operations get, from any threads, while leaves split, empty leaves go and
// layers come. A leaf's phantom epoch stands for the removals in its range. Phantom epochs are read and written in
// separate steps here, as the code does.
module Timestamps {
  import opened Options

  type Key = nat
  type Id = nat
  type Tid = nat
  type Stamp = nat   // the code compares modulo 2^64; no wrap is modelled

  // a remove between its test of the phantom epoch and its store; a split between its copy and the link
  datatype Pending = Removing(key: Key, store: Option<Stamp>) | Splitting(copy: Stamp)

  // owner: the leaf responsible for a key. row: timestamp of the key's row. last: the key's last timestamp ever.
  datatype State = State(owner: imap<Key, Id>, phantom: map<Id, Stamp>, row: map<Key, Stamp>, last: map<Key, Stamp>,
                         clock: map<Tid, Stamp>, pending: map<Id, Pending>)

  datatype Action =
    | NewThread(t: Tid)
    | Write(t: Tid, k: Key)                       // put or replace
    | RemoveTest(t: Tid, k: Key) | RemoveStore(n: Id)
    | SplitCopy(n: Id) | SplitLink(n: Id, nr: Id, moved: iset<Key>)
    | HandOver(l: Id, p: Id) | Absorb(l: Id, p: Id)

  function Max(a: nat, b: nat): nat { if a < b then b else a }

  // threadinfo::update_timestamp(x)
  function Update(clock: Stamp, x: Stamp): (r: Stamp)
    requires clock % 2 == 0
    ensures r > x && r >= clock && r % 2 == 0
    ensures forall y :: y > x && y >= clock && y % 2 == 0 ==> r <= y
  { if clock <= x then (if x % 2 == 0 then x + 2 else x + 1) else clock }

  ghost predicate Owned(s: State, n: Id) { n in s.phantom && n !in s.pending }

  ghost predicate Enabled(s: State, a: Action) {
    match a
    case NewThread(t) => t !in s.clock
    case Write(t, k) => t in s.clock && s.clock[t] % 2 == 0 && k in s.owner && Owned(s, s.owner[k])
    case RemoveTest(t, k) => t in s.clock && s.clock[t] % 2 == 0 && k in s.owner && Owned(s, s.owner[k]) && k in s.row
    case RemoveStore(n) => n in s.phantom && n in s.pending && s.pending[n].Removing?
    case SplitCopy(n) => Owned(s, n)
    case SplitLink(n, nr, moved) =>
      n in s.phantom && n in s.pending && s.pending[n].Splitting? && nr !in s.phantom
    case HandOver(l, p) => Owned(s, l) && p in s.phantom && p != l
    case Absorb(l, p) =>
      && Owned(s, l) && p in s.phantom && p != l
      && forall k :: k in s.owner && s.owner[k] == l ==> k !in s.row
  }

  // the timestamp the operation of t on k gets
  ghost function Assigned(s: State, t: Tid, k: Key): Stamp
    requires t in s.clock && s.clock[t] % 2 == 0 && k in s.owner && s.owner[k] in s.phantom
  {
    if k in s.row then Update(s.clock[t], s.row[k])
    else Max(s.clock[t], s.phantom[s.owner[k]])      // observe_phantoms, then update_timestamp()
  }

  ghost function Do(s: State, a: Action): State
    requires Enabled(s, a)
  {
    match a
    case NewThread(t) => s.(clock := s.clock[t := 2])
    case Write(t, k) =>
      var ts := Assigned(s, t, k);
      s.(row := s.row[k := ts], last := s.last[k := ts], clock := s.clock[t := ts])
    case RemoveTest(t, k) =>
      var ts := Assigned(s, t, k);
      var n := s.owner[k];
      s.(last := s.last[k := ts], clock := s.clock[t := ts],
         pending := s.pending[n := Removing(k, if s.phantom[n] <= ts then Some(ts + 2) else None)])
    case RemoveStore(n) =>
      var o := s.pending[n];
      s.(phantom := if o.store.Some? then s.phantom[n := o.store.value] else s.phantom,
         row := s.row - {o.key}, pending := s.pending - {n})
    case SplitCopy(n) => s.(pending := s.pending[n := Splitting(s.phantom[n])])
    case SplitLink(n, nr, moved) =>
      s.(phantom := s.phantom[nr := s.pending[n].copy], pending := s.pending - {n},
         owner := imap k | k in s.owner :: if s.owner[k] == n && k in moved then nr else s.owner[k])
    case HandOver(l, p) => s.(phantom := s.phantom[p := Max(s.phantom[p], s.phantom[l])])
    case Absorb(l, p) =>
      s.(owner := imap k | k in s.owner :: if s.owner[k] == l then p else s.owner[k], phantom := s.phantom - {l})
  }

  // ---------- the invariant ----------
  ghost predicate InTransit(s: State, k: Key) {
    k in s.owner && s.owner[k] in s.pending && s.pending[s.owner[k]].Removing? && s.pending[s.owner[k]].key == k
  }

  // the phantom epoch that leaf n will have when it is unlocked, whatever is stored into it until then
  ghost function Epoch(s: State, n: Id): Stamp
    requires n in s.phantom
  {
    if n in s.pending && s.pending[n].Removing? && s.pending[n].store.Some? then s.pending[n].store.value
    else s.phantom[n]
  }

  ghost predicate Gone(s: State, k: Key) { k in s.owner && k !in s.row && k in s.last }

  // a key that is gone has a smaller timestamp than its leaf's epoch
  ghost predicate KeyOk(s: State, k: Key)
    requires k in s.owner
  {
    && s.owner[k] in s.phantom
    && (k in s.row ==> k in s.last && (if InTransit(s, k) then s.row[k] < s.last[k] else s.row[k] == s.last[k]))
    && (k !in s.row && k in s.last ==> s.last[k] < Epoch(s, s.owner[k]))
  }

  // epochs are even, and 0 or above the first timestamp
  predicate Even(x: Stamp) { x % 2 == 0 && (x == 0 || x >= 4) }

  ghost predicate PendingOk(s: State, n: Id)
    requires n in s.pending && n in s.phantom
  {
    match s.pending[n]
    case Removing(key, store) =>
      && key in s.owner && s.owner[key] == n && key in s.row && key in s.last && s.last[key] < Epoch(s, n)
      && (store.Some? ==> Even(store.value))
    case Splitting(copy) => Even(copy)
  }

  ghost predicate Inv(s: State) {
    && (forall t :: t in s.clock ==> s.clock[t] % 2 == 0 && s.clock[t] >= 2)
    && (forall n :: n in s.phantom ==> Even(s.phantom[n]))
    && (forall k :: k in s.owner ==> KeyOk(s, k))
    && (forall k :: k in s.row ==> k in s.owner)
    && (forall k :: k in s.last ==> s.last[k] >= 2)
    && (forall n :: n in s.pending ==> n in s.phantom && PendingOk(s, n))
  }

  // What has to hold where a leaf becomes responsible for keys: its epoch is above the timestamp of each of them that
  // is gone.
  ghost predicate Covers(s: State, a: Action)
    requires Enabled(s, a)
  {
    match a
    case SplitLink(n, nr, moved) => forall k :: Gone(s, k) && s.owner[k] == n && k in moved ==>
      s.last[k] < s.pending[n].copy
    case Absorb(l, p) => forall k :: Gone(s, k) && s.owner[k] == l ==> s.last[k] < Epoch(s, p)
    case _ => true
  }

  // The same on what the code has at hand: the epoch copied for a new right half is still the left one's, and the leaf
  // that takes over from an emptied one ends up with at least its epoch.
  ghost predicate Kept(s: State, a: Action)
    requires Enabled(s, a)
  {
    match a
    case SplitLink(n, nr, moved) => s.phantom[n] <= s.pending[n].copy
    case Absorb(l, p) => s.phantom[l] <= Epoch(s, p)
    case _ => true
  }

  lemma KeptCovers(s: State, a: Action)
    requires Inv(s) && Enabled(s, a) && Kept(s, a)
    ensures Covers(s, a)
  {
    forall k | k in s.owner ensures KeyOk(s, k) { }
  }

  // Without knowing the keys' histories nothing weaker will do: if it fails, a key without a row may have such a
  // history that the step does not cover it.
  lemma KeptIsNeeded(s: State, a: Action, k: Key)
    requires Inv(s) && Enabled(s, a) && !Kept(s, a) && k in s.owner && k !in s.row
    requires if a.SplitLink? then s.owner[k] == a.n && k in a.moved else a.Absorb? && s.owner[k] == a.l
    ensures var l := s.owner[k]; l in s.phantom && s.phantom[l] >= 4
    ensures var r := s.(last := s.last[k := s.phantom[s.owner[k]] - 2]); Inv(r) && Enabled(r, a) && !Covers(r, a)
  {
    hide *;
    NotKept(s, a, s.owner[k]);
    AnyHistory(s, k, s.phantom[s.owner[k]] - 2);
    HistoryShows(s, a, k, s.phantom[s.owner[k]] - 2);
  }

  lemma NotKept(s: State, a: Action, l: Id)
    requires Inv(s) && Enabled(s, a) && !Kept(s, a) && (if a.SplitLink? then a.n == l else a.Absorb? && a.l == l)
    ensures l in s.phantom && s.phantom[l] >= 4 && s.phantom[l] <= Epoch(s, l)
    ensures if a.SplitLink? then s.pending[l].copy <= s.phantom[l] - 2 else Epoch(s, a.p) <= s.phantom[l] - 2
  {
    assert Even(s.phantom[l]);
    if a.SplitLink? { assert PendingOk(s, l); } else { EpochEven(s, a.p); }
  }

  lemma EpochEven(s: State, n: Id)
    requires Inv(s) && n in s.phantom
    ensures Even(Epoch(s, n))
  { if n in s.pending { assert PendingOk(s, n); } }

  lemma HistoryShows(s: State, a: Action, k: Key, x: Stamp)
    requires Enabled(s, a) && k in s.owner && k !in s.row
    requires if a.SplitLink? then s.owner[k] == a.n && k in a.moved && s.pending[a.n].copy <= x
             else a.Absorb? && s.owner[k] == a.l && Epoch(s, a.p) <= x
    ensures var r := s.(last := s.last[k := x]); Enabled(r, a) && !Covers(r, a)
  { assert Gone(s.(last := s.last[k := x]), k); }

  // a key without a row may have had any timestamp below its leaf's epoch
  lemma AnyHistory(s: State, k: Key, x: Stamp)
    requires Inv(s) && k in s.owner && k !in s.row && s.owner[k] in s.phantom && 2 <= x < Epoch(s, s.owner[k])
    ensures Inv(s.(last := s.last[k := x]))
  {
    var r := s.(last := s.last[k := x]);
    forall j | j in r.owner ensures KeyOk(r, j) { assert KeyOk(s, j); }
    forall n | n in r.pending ensures n in r.phantom && PendingOk(r, n) { assert PendingOk(s, n); }
    hide KeyOk; hide PendingOk;
  }

  ghost predicate Assigns(s: State, a: Action, k: Key) { (a.Write? && a.k == k) || (a.RemoveTest? && a.k == k) }

  // Each operation on a key gets a larger timestamp than the one before.
  lemma StampGrows(s: State, a: Action)
    requires Inv(s) && Enabled(s, a) && (a.Write? || a.RemoveTest?)
    ensures a.k in s.last ==> s.last[a.k] < Assigned(s, a.t, a.k)
    ensures Assigned(s, a.t, a.k) == Do(s, a).last[a.k] >= 2 && Assigned(s, a.t, a.k) % 2 == 0
  {
    assert KeyOk(s, a.k);
    assert Even(s.phantom[s.owner[a.k]]);
  }

  // It is the least even one that its thread's clock and the key's row, or the leaf's epoch if there is no row, allow.
  lemma LeastStamp(s: State, t: Tid, k: Key, y: Stamp)
    requires Inv(s) && t in s.clock && k in s.owner && s.owner[k] in s.phantom
    requires y % 2 == 0 && s.clock[t] <= y && if k in s.row then s.row[k] < y else s.phantom[s.owner[k]] <= y
    ensures Assigned(s, t, k) <= y
  { }

  lemma StepKeyAssigned(s: State, a: Action, k: Key)
    requires Enabled(s, a) && (a.Write? || a.RemoveTest?) && k in s.owner && KeyOk(s, k) && KeyOk(s, a.k)
    requires a.k in s.last ==> s.last[a.k] < Assigned(s, a.t, a.k)
    ensures KeyOk(Do(s, a), k)
  {
    hide Assigned;
  }

  lemma StepKeyStored(s: State, a: Action, k: Key)
    requires Enabled(s, a) && a.RemoveStore? && k in s.owner && KeyOk(s, k) && PendingOk(s, a.n)
    ensures KeyOk(Do(s, a), k)
  { hide Even; }

  lemma StepKey(s: State, a: Action, k: Key)
    requires Inv(s) && Enabled(s, a) && Covers(s, a) && k in Do(s, a).owner
    ensures KeyOk(Do(s, a), k)
  {
    assert KeyOk(s, k);
    if a.Write? || a.RemoveTest? {
      StampGrows(s, a);
      StepKeyAssigned(s, a, k);
    } else if a.RemoveStore? {
      StepKeyStored(s, a, k);
    } else {
      StepKeyMoved(s, a, k);
    }
  }

  lemma StepKeyMoved(s: State, a: Action, k: Key)
    requires Enabled(s, a) && !a.Write? && !a.RemoveTest? && !a.RemoveStore? && Covers(s, a)
    requires k in s.owner && KeyOk(s, k) && forall n :: n in s.pending ==> n in s.phantom
    ensures KeyOk(Do(s, a), k)
  { assert Gone(s, k) <==> k !in s.row && k in s.last; }

  lemma StepPending(s: State, a: Action, n: Id)
    requires Inv(s) && Enabled(s, a) && n in Do(s, a).pending
    ensures n in Do(s, a).phantom && PendingOk(Do(s, a), n)
  {
    if a.Write? || a.RemoveTest? { StampGrows(s, a); }
    if n in s.pending { assert PendingOk(s, n); } else { assert n in s.phantom && Even(s.phantom[n]); }
    hide Inv; hide KeyOk;
    if a.RemoveTest? { assert Even(s.phantom[n]); }
  }

  lemma StepPhantom(s: State, a: Action, n: Id)
    requires Inv(s) && Enabled(s, a) && n in Do(s, a).phantom
    ensures Even(Do(s, a).phantom[n])
  {
    if a.RemoveStore? { assert PendingOk(s, a.n); }
    if a.SplitLink? { assert PendingOk(s, a.n); }
  }

  lemma StepTimes(s: State, a: Action)
    requires Inv(s) && Enabled(s, a)
    ensures var t := Do(s, a);
      && (forall t' :: t' in t.clock ==> t.clock[t'] % 2 == 0 && t.clock[t'] >= 2)
      && (forall k :: k in t.row ==> k in t.owner)
      && (forall k :: k in t.last ==> t.last[k] >= 2)
  {
    if a.Write? || a.RemoveTest? { StampGrows(s, a); }
    hide KeyOk; hide PendingOk; hide Even; hide Assigned;
  }

  // From a good state a step leads to a good state exactly when it covers the keys that change hands.
  lemma StepIff(s: State, a: Action)
    requires Inv(s) && Enabled(s, a)
    ensures Inv(Do(s, a)) <==> Covers(s, a)
  {
    var t := Do(s, a);
    StepTimes(s, a);
    if Covers(s, a) {
      forall k | k in t.owner ensures KeyOk(t, k) { StepKey(s, a, k); }
      forall n | n in t.pending ensures n in t.phantom && PendingOk(t, n) { StepPending(s, a, n); }
      forall n | n in t.phantom ensures Even(t.phantom[n]) { StepPhantom(s, a, n); }
    }
    if Inv(t) { NotCovered(s, a); }
    hide Do; hide KeyOk; hide PendingOk; hide Even; hide Covers; hide Enabled;
  }

  // the keys that make the difference
  lemma NotCovered(s: State, a: Action)
    requires Inv(s) && Enabled(s, a) && (forall k :: k in Do(s, a).owner ==> KeyOk(Do(s, a), k))
    ensures Covers(s, a)
  {
    var t := Do(s, a);
    match a
    case SplitLink(n, nr, moved) =>
      assert nr in s.pending ==> nr in s.phantom;
      forall k | Gone(s, k) && s.owner[k] == n && k in moved ensures s.last[k] < s.pending[n].copy
      { assert KeyOk(t, k); }
    case Absorb(l, p) =>
      forall k | Gone(s, k) && s.owner[k] == l ensures s.last[k] < Epoch(s, p) { assert KeyOk(t, k); }
    case _ =>
  }

  // ---------- runs ----------
  ghost predicate Legal(s: State, acts: seq<Action>)
    decreases |acts|
  { acts == [] || (Enabled(s, acts[0]) && Legal(Do(s, acts[0]), acts[1..])) }

  ghost function After(s: State, acts: seq<Action>): State
    requires Legal(s, acts)
    decreases |acts|
  { if acts == [] then s else After(Do(s, acts[0]), acts[1..]) }

  ghost predicate Covered(s: State, acts: seq<Action>)
    requires Legal(s, acts)
    decreases |acts|
  { acts == [] || (Covers(s, acts[0]) && Covered(Do(s, acts[0]), acts[1..])) }

  // the timestamps the operations on k get, in order
  ghost function Stamps(s: State, acts: seq<Action>, k: Key): seq<Stamp>
    requires Legal(s, acts)
    decreases |acts|
  {
    if acts == [] then []
    else (if Assigns(s, acts[0], k) then [Assigned(s, acts[0].t, k)] else []) + Stamps(Do(s, acts[0]), acts[1..], k)
  }

  ghost predicate Increasing(q: seq<Stamp>, above: Option<Stamp>) {
    && (forall i, j :: 0 <= i < j < |q| ==> q[i] < q[j])
    && (above.Some? ==> forall i :: 0 <= i < |q| ==> above.value < q[i])
  }

  ghost function LastOf(s: State, k: Key): Option<Stamp> { if k in s.last then Some(s.last[k]) else None }

  lemma Prepend(x: Stamp, q: seq<Stamp>, above: Option<Stamp>)
    requires Increasing(q, Some(x)) && (above.Some? ==> above.value < x)
    ensures Increasing([x] + q, above)
  {
    var r := [x] + q;
    assert forall i :: 0 <= i < |r| ==> r[i] == if i == 0 then x else q[i-1];
  }

  lemma {:induction false} Join(s: State, a: seq<Action>, b: seq<Action>)
    ensures Legal(s, a + b) <==> Legal(s, a) && Legal(After(s, a), b)
    ensures Legal(s, a + b) ==> After(s, a + b) == After(After(s, a), b)
    ensures Legal(s, a + b) ==> (Covered(s, a + b) <==> Covered(s, a) && Covered(After(s, a), b))
    ensures Legal(s, a + b) ==> forall k :: Stamps(s, a + b, k) == Stamps(s, a, k) + Stamps(After(s, a), b, k)
    decreases |a|
  {
    if a == [] { assert a + b == b; }
    else {
      assert (a + b)[1..] == a[1..] + b;
      if Enabled(s, a[0]) { Join(Do(s, a[0]), a[1..], b); }
    }
  }

  lemma {:induction false} RunInv(s: State, acts: seq<Action>)
    requires Inv(s) && Legal(s, acts) && Covered(s, acts)
    ensures Inv(After(s, acts))
    decreases |acts|
  {
    if acts != [] {
      StepIff(s, acts[0]);
      RunInv(Do(s, acts[0]), acts[1..]);
    }
  }

  // Over any run whose steps cover the keys that change hands, by any number of threads, whatever leaves split, go or
  // come: the timestamps of one key strictly increase, across removal and re-insertion.
  lemma {:induction false} StampsIncrease(s: State, acts: seq<Action>, k: Key)
    requires Inv(s) && Legal(s, acts) && Covered(s, acts)
    ensures Increasing(Stamps(s, acts, k), LastOf(s, k))
    decreases |acts|
  {
    if acts != [] {
      var a := acts[0];
      var t := Do(s, a);
      StepIff(s, a);
      StampsIncrease(t, acts[1..], k);
      if a.Write? || a.RemoveTest? { StampGrows(s, a); }
      hide Inv; hide Covered; hide Covers; hide Increasing;
      if Assigns(s, a, k) {
        Prepend(Assigned(s, a.t, k), Stamps(t, acts[1..], k), LastOf(s, k));
      } else {
        assert LastOf(t, k) == LastOf(s, k);
        assert [] + Stamps(t, acts[1..], k) == Stamps(t, acts[1..], k);
      }
    }
  }

  // ---------- what holds of every run ----------
  // the timestamps that thread t's operations get, on whatever keys
  ghost function ThreadStamps(s: State, acts: seq<Action>, t: Tid): seq<Stamp>
    requires Legal(s, acts)
    decreases |acts|
  {
    if acts == [] then []
    else (if By(acts[0], t) then [Assigned(s, t, acts[0].k)] else []) + ThreadStamps(Do(s, acts[0]), acts[1..], t)
  }

  predicate By(a: Action, t: Tid) { (a.Write? && a.t == t) || (a.RemoveTest? && a.t == t) }

  ghost predicate InOrder(q: seq<Stamp>, least: Stamp) {
    && (forall i, j :: 0 <= i < j < |q| ==> q[i] <= q[j])
    && forall i :: 0 <= i < |q| ==> least <= q[i]
  }

  lemma ClocksGrow(s: State, a: Action)
    requires Enabled(s, a)
    ensures forall t :: t in s.clock ==> t in Do(s, a).clock && s.clock[t] <= Do(s, a).clock[t]
    ensures a.Write? || a.RemoveTest? ==>
      a.t in s.clock && s.clock[a.t] <= Assigned(s, a.t, a.k) == Do(s, a).clock[a.t]
  { }

  lemma InOrderPrepend(x: Stamp, q: seq<Stamp>, least: Stamp)
    requires InOrder(q, x) && least <= x
    ensures InOrder([x] + q, least)
  {
    var r := [x] + q;
    assert forall i :: 0 <= i < |r| ==> r[i] == if i == 0 then x else q[i-1];
  }

  ghost function ClockOf(s: State, t: Tid): Stamp { if t in s.clock then s.clock[t] else 0 }

  // A thread's own timestamps never go back, in any run at all.
  lemma {:induction false} ThreadInOrder(s: State, acts: seq<Action>, t: Tid)
    requires Legal(s, acts)
    ensures InOrder(ThreadStamps(s, acts, t), ClockOf(s, t))
    decreases |acts|
  {
    if acts != [] {
      var a, u := acts[0], Do(s, acts[0]);
      ClocksGrow(s, a);
      ThreadInOrder(u, acts[1..], t);
      var r := ThreadStamps(u, acts[1..], t);
      hide InOrder; hide Do; hide Assigned; hide Enabled;
      if By(a, t) {
        InOrderPrepend(Assigned(s, t, a.k), r, ClockOf(s, t));
      } else {
        assert [] + r == r;
        InOrderLess(r, ClockOf(u, t), ClockOf(s, t));
      }
    }
  }

  lemma InOrderLess(q: seq<Stamp>, x: Stamp, least: Stamp)
    requires InOrder(q, x) && least <= x
    ensures InOrder(q, least)
  { }

  // x is no more than two beyond the clock of some thread
  ghost predicate Near(s: State, x: Stamp) { x == 0 || exists t :: t in s.clock && x <= s.clock[t] + 2 }

  ghost predicate EpochsNear(s: State) {
    && (forall n :: n in s.phantom ==> Near(s, s.phantom[n]))
    && (forall n :: n in s.pending ==>
          match s.pending[n]
          case Removing(_, store) => store.Some? ==> Near(s, store.value)
          case Splitting(copy) => Near(s, copy))
  }

  lemma NearStays(s: State, a: Action, x: Stamp)
    requires Enabled(s, a) && Near(s, x)
    ensures Near(Do(s, a), x)
  {
    ClocksGrow(s, a);
    if x != 0 {
      var t :| t in s.clock && x <= s.clock[t] + 2;
      hide Enabled;
      assert t in Do(s, a).clock;
    }
  }

  // Phantom epochs do not run ahead: none is ever more than two beyond the newest timestamp.
  lemma {:induction false} RunEpochsNear(s: State, acts: seq<Action>)
    requires EpochsNear(s) && Legal(s, acts)
    ensures EpochsNear(After(s, acts))
    decreases |acts|
  {
    if acts != [] {
      StepEpochsNear(s, acts[0]);
      RunEpochsNear(Do(s, acts[0]), acts[1..]);
    }
  }

  lemma StepEpochsNear(s: State, a: Action)
    requires EpochsNear(s) && Enabled(s, a)
    ensures EpochsNear(Do(s, a))
  {
    var u := Do(s, a);
    ClocksGrow(s, a);
    forall x | Near(s, x) ensures Near(u, x) { NearStays(s, a, x); }
    if a.RemoveTest? { assert u.clock[a.t] == Assigned(s, a.t, a.k); }
    hide Near;
    forall n | n in u.phantom ensures Near(u, u.phantom[n]) { }
    if a.RemoveTest? { StoreNear(s, a); }
  }

  lemma StoreNear(s: State, a: Action)
    requires Enabled(s, a) && a.RemoveTest?
    ensures Near(Do(s, a), Assigned(s, a.t, a.k) + 2)
  { assert a.t in Do(s, a).clock; }

  // ---------- exactly these runs ----------
  // the last timestamp is the last stamp of the run
  lemma {:induction false} LastStamp(s: State, acts: seq<Action>, k: Key)
    requires Legal(s, acts)
    ensures var q := Stamps(s, acts, k); LastOf(After(s, acts), k) == if q == [] then LastOf(s, k) else Some(q[|q| - 1])
    decreases |acts|
  {
    if acts != [] {
      var t := Do(s, acts[0]);
      LastStamp(t, acts[1..], k);
      OneStamp(s, acts, k);
    }
  }

  lemma OneStamp(s: State, acts: seq<Action>, k: Key)
    requires Legal(s, acts) && acts != []
    ensures var t := Do(s, acts[0]); var q, r := Stamps(s, acts, k), Stamps(t, acts[1..], k);
      && (Assigns(s, acts[0], k) ==> q == [LastOf(t, k).value] + r && LastOf(t, k).Some?)
      && (!Assigns(s, acts[0], k) ==> q == r && LastOf(t, k) == LastOf(s, k))
  { assert [] + Stamps(Do(s, acts[0]), acts[1..], k) == Stamps(Do(s, acts[0]), acts[1..], k); }

  // a number outside a finite set
  lemma {:induction false} Fresh(s: set<nat>) returns (n: nat)
    ensures forall x :: x in s ==> x < n
    decreases |s|
  {
    if s == {} { n := 0; }
    else {
      var x :| x in s;
      var m := Fresh(s - {x});
      n := Max(m, x + 1);
      forall y | y in s ensures y < n { assert y == x || y in s - {x}; }
    }
  }

  // how to get a leaf unlocked: let its owner finish
  ghost function Release(s: State, n: Id, nr: Id): seq<Action> {
    if n !in s.pending then [] else if s.pending[n].Removing? then [RemoveStore(n)] else [SplitLink(n, nr, iset{})]
  }

  // If a key that is gone has no smaller timestamp than its leaf's epoch, then a thread that has just started can
  // give it one that is no larger: it only has to wait for the leaf.
  lemma Goes(s: State, k: Key, nr: Id, t: Tid)
    requires Gone(s, k) && s.owner[k] in s.phantom && Epoch(s, s.owner[k]) <= s.last[k] && s.last[k] >= 2
    requires nr !in s.phantom && nr !in s.pending && t !in s.clock
    ensures var more := Release(s, s.owner[k], nr) + [NewThread(t), Write(t, k)];
      Legal(s, more) && Covered(s, more) && |Stamps(s, more, k)| > 0 && Stamps(s, more, k)[0] <= s.last[k]
  {
    var r, b := Release(s, s.owner[k], nr), [NewThread(t), Write(t, k)];
    Released(s, k, nr);
    var u := After(s, r);
    WriteNow(u, k, t);
    hide Legal; hide Covered; hide Stamps; hide After;
    Join(s, r, b);
    assert [] + Stamps(u, b, k) == Stamps(u, b, k);
  }

  lemma Released(s: State, k: Key, nr: Id)
    requires Gone(s, k) && s.owner[k] in s.phantom && nr !in s.phantom && nr !in s.pending
    ensures var n := s.owner[k]; var r := Release(s, n, nr);
      && Legal(s, r) && Covered(s, r) && Stamps(s, r, k) == []
      && var u := After(s, r);
         u.clock == s.clock && k in u.owner && u.owner[k] == n && k !in u.row && Owned(u, n)
           && u.phantom[n] == Epoch(s, n)
  {
    var n := s.owner[k];
    var r := Release(s, n, nr);
    if n in s.pending {
      var a := r[0];
      assert r[1..] == [];
      assert Enabled(s, a) && Covers(s, a);
      var u := Do(s, a);
      assert Legal(u, []) && Covered(u, []);
      assert Stamps(s, r, k) == [] + [];
      assert After(s, r) == u;
    }
  }

  lemma WriteNow(u: State, k: Key, t: Tid)
    requires t !in u.clock && k in u.owner && k !in u.row && Owned(u, u.owner[k])
    ensures var b := [NewThread(t), Write(t, k)];
      Legal(u, b) && Covered(u, b) && Stamps(u, b, k) == [Max(2, u.phantom[u.owner[k]])]
  {
    var b := [NewThread(t), Write(t, k)];
    var v := Do(u, b[0]);
    assert b[1..] == [b[1]] && b[1..][1..] == [];
    assert Enabled(v, b[1]);
    assert Legal(v, b[1..]);
    assert Stamps(v, b[1..], k) == [Assigned(v, t, k)] + [];
    assert [] + Stamps(v, b[1..], k) == Stamps(v, b[1..], k);
  }

  // after the first i steps, nothing that a covering continuation does gives a key a timestamp out of order
  ghost predicate SafeAt(s: State, acts: seq<Action>, i: nat, more: seq<Action>)
    requires i <= |acts|
  {
    Legal(s, acts[..i]) && Legal(After(s, acts[..i]), more) && Covered(After(s, acts[..i]), more) ==>
      forall k :: Increasing(Stamps(s, acts[..i], k) + Stamps(After(s, acts[..i]), more, k), LastOf(s, k))
  }

  // A run is safe, at each of its points and whatever covering steps follow, exactly when all its steps cover the
  // keys that change hands.
  lemma RunIff(s: State, acts: seq<Action>)
    requires Inv(s) && Legal(s, acts)
    ensures Covered(s, acts) <==> forall i: nat, more :: i <= |acts| ==> SafeAt(s, acts, i, more)
  {
    if Covered(s, acts) {
      forall i: nat, more | i <= |acts| ensures SafeAt(s, acts, i, more) { CoveredIsSafe(s, acts, i, more); }
    } else {
      var j := FirstBad(s, acts);
      var more := BadEnd(s, acts, j);
      assert !SafeAt(s, acts, j + 1, more);
    }
  }

  lemma CoveredIsSafe(s: State, acts: seq<Action>, i: nat, more: seq<Action>)
    requires Inv(s) && Legal(s, acts) && Covered(s, acts) && i <= |acts|
    ensures SafeAt(s, acts, i, more)
  {
    hide Increasing; hide Inv; hide Covered; hide Legal; hide Stamps; hide After;
    assert acts == acts[..i] + acts[i..];
    Join(s, acts[..i], acts[i..]);
    var a, u := acts[..i], After(s, acts[..i]);
    if Legal(u, more) && Covered(u, more) {
      Join(s, a, more);
      forall k ensures Increasing(Stamps(s, a, k) + Stamps(u, more, k), LastOf(s, k))
      { StampsIncrease(s, a + more, k); }
    }
  }

  lemma {:induction false} FirstBad(s: State, acts: seq<Action>) returns (j: nat)
    requires Legal(s, acts) && !Covered(s, acts)
    ensures j < |acts| && Legal(s, acts[..j]) && Covered(s, acts[..j])
    ensures Enabled(After(s, acts[..j]), acts[j]) && !Covers(After(s, acts[..j]), acts[j])
    ensures Legal(s, acts[..j + 1]) && After(s, acts[..j + 1]) == Do(After(s, acts[..j]), acts[j])
    decreases |acts|
  {
    if !Covers(s, acts[0]) {
      j := 0;
      assert acts[..0] == [] && acts[..1] == [acts[0]] && [acts[0]][1..] == [];
    } else {
      j := FirstBad(Do(s, acts[0]), acts[1..]);
      j := j + 1;
      assert acts[..j][1..] == acts[1..][..j - 1] && acts[..j + 1][1..] == acts[1..][..j];
    }
  }

  lemma BadKey(u: State, a: Action) returns (k: Key)
    requires Inv(u) && Enabled(u, a) && !Covers(u, a)
    ensures var v := Do(u, a);
      Gone(v, k) && v.owner[k] in v.phantom && Epoch(v, v.owner[k]) <= v.last[k] && v.last[k] >= 2
  {
    if a.SplitLink? {
      k :| Gone(u, k) && u.owner[k] == a.n && k in a.moved && u.last[k] >= u.pending[a.n].copy;
      assert a.nr !in u.pending;
    } else {
      k :| Gone(u, k) && u.owner[k] == a.l && u.last[k] >= Epoch(u, a.p);
    }
  }

  lemma BadEnd(s: State, acts: seq<Action>, j: nat) returns (more: seq<Action>)
    requires Inv(s) && j < |acts| && Legal(s, acts[..j]) && Covered(s, acts[..j])
    requires Enabled(After(s, acts[..j]), acts[j]) && !Covers(After(s, acts[..j]), acts[j])
    requires Legal(s, acts[..j + 1]) && After(s, acts[..j + 1]) == Do(After(s, acts[..j]), acts[j])
    ensures !SafeAt(s, acts, j + 1, more)
  {
    RunInv(s, acts[..j]);
    var k := BadKey(After(s, acts[..j]), acts[j]);
    hide Inv; hide Covered; hide Legal; hide Stamps; hide After; hide Covers; hide Enabled;
    var a := acts[..j + 1];
    var v := After(s, a);
    var nr := Fresh(v.phantom.Keys + v.pending.Keys);
    var t := Fresh(v.clock.Keys);
    assert nr !in v.phantom && nr !in v.pending && t !in v.clock;
    Goes(v, k, nr, t);
    more := Release(v, v.owner[k], nr) + [NewThread(t), Write(t, k)];
    LastStamp(s, a, k);
    NotIncreasing(Stamps(s, a, k), Stamps(v, more, k), LastOf(s, k), v.last[k]);
  }

  lemma NotIncreasing(p: seq<Stamp>, q: seq<Stamp>, above: Option<Stamp>, last: Stamp)
    requires q != [] && q[0] <= last && (if p == [] then above == Some(last) else p[|p| - 1] == last)
    ensures !Increasing(p + q, above)
  {
    var r := p + q;
    assert r[|p|] == q[0];
    if p != [] { assert r[|p| - 1] == last; }
  }

  // ---------- whole operations, one at a time ----------
  datatype Operation =
    | Arrive(t: Tid) | Put(t: Tid, k: Key) | Remove(t: Tid, k: Key, n: Id)
    | Split(n: Id, nr: Id, moved: iset<Key>)     // also a new layer: its leaf takes over keys and the epoch
    | Drop(l: Id, p: Id)                         // remove_leaf; also gc_layer into the leaf above

  function Steps(op: Operation): seq<Action> {
    match op
    case Arrive(t) => [NewThread(t)]
    case Put(t, k) => [Write(t, k)]
    case Remove(t, k, n) => [RemoveTest(t, k), RemoveStore(n)]
    case Split(n, nr, moved) => [SplitCopy(n), SplitLink(n, nr, moved)]
    case Drop(l, p) => [HandOver(l, p), Absorb(l, p)]
  }

  function AllSteps(ops: seq<Operation>): seq<Action> { if ops == [] then [] else Steps(ops[0]) + AllSteps(ops[1..]) }

  // the second half of an operation finds what the first half left
  lemma SecondHalf(s: State, a: Action, b: Action)
    requires Inv(s) && s.pending == map[] && Enabled(s, a) && Enabled(Do(s, a), b)
    requires (a.RemoveTest? && b.RemoveStore?) || (a.SplitCopy? && b.SplitLink?)
      || (a.HandOver? && b.Absorb? && a.l == b.l && a.p == b.p)
    ensures Covers(s, a) && Kept(Do(s, a), b) && Do(Do(s, a), b).pending == map[]
  {
    if a.HandOver? { assert a.p in s.phantom; }
  }

  lemma TwoSteps(s: State, a: Action, b: Action)
    requires Enabled(s, a) && Enabled(Do(s, a), b)
    ensures Legal(s, [a, b]) && After(s, [a, b]) == Do(Do(s, a), b)
    ensures Covers(s, a) && Covers(Do(s, a), b) ==> Covered(s, [a, b])
  {
    var q := [a, b];
    assert q[1..] == [b];
    OneStep(Do(s, a), b);
  }

  lemma OneStep(s: State, a: Action)
    requires Enabled(s, a)
    ensures Legal(s, [a]) && After(s, [a]) == Do(s, a)
    ensures Covers(s, a) ==> Covered(s, [a])
  { assert [a][1..] == []; }

  lemma BothEnabled(s: State, a: Action, b: Action)
    requires Legal(s, [a, b])
    ensures Enabled(s, a) && Enabled(Do(s, a), b)
  {
    var q := [a, b];
    assert q[1..] == [b];
    assert Legal(Do(s, a), q[1..]);
  }

  lemma OperationCovers(s: State, op: Operation)
    requires Inv(s) && s.pending == map[] && Legal(s, Steps(op))
    ensures Covered(s, Steps(op)) && Inv(After(s, Steps(op))) && After(s, Steps(op)).pending == map[]
  {
    var acts := Steps(op);
    var a := acts[0];
    assert Enabled(s, a);
    if |acts| == 2 {
      var b := acts[1];
      assert acts == [a, b];
      BothEnabled(s, a, b);
      SecondHalf(s, a, b);
      hide Kept; hide Inv; hide Enabled; hide Legal; hide After; hide Covered; hide Covers;
      StepIff(s, a);
      KeptCovers(Do(s, a), b);
      StepIff(Do(s, a), b);
      TwoSteps(s, a, b);
    } else {
      assert acts == [a];
      StepIff(s, a);
      OneStep(s, a);
    }
  }

  lemma {:induction false} AtomicCovers(s: State, ops: seq<Operation>)
    requires Inv(s) && s.pending == map[] && Legal(s, AllSteps(ops))
    ensures Covered(s, AllSteps(ops))
    decreases |ops|
  {
    if ops != [] {
      Join(s, Steps(ops[0]), AllSteps(ops[1..]));
      OperationCovers(s, ops[0]);
      AtomicCovers(After(s, Steps(ops[0])), ops[1..]);
    }
  }

  // Taken one operation at a time every step covers its keys, so the timestamps of each key increase.
  lemma AtomicStampsIncrease(s: State, ops: seq<Operation>, k: Key)
    requires Inv(s) && s.pending == map[] && Legal(s, AllSteps(ops))
    ensures Covered(s, AllSteps(ops)) && Increasing(Stamps(s, AllSteps(ops), k), LastOf(s, k))
  {
    AtomicCovers(s, ops);
    StampsIncrease(s, AllSteps(ops), k);
  }

  // ---------- interleaved, a step may not cover its keys ----------
  function Side(k: Key): Id { if k < 10 then 1 else 2 }

  ghost function Start(): State {
    State(imap k: Key {:trigger Side(k)} :: Side(k), map[1 := 0, 2 := 0], map[], map[], map[], map[])
  }

  lemma StartInv()
    ensures Inv(Start())
  { }

  // reached by steps that all cover their keys
  ghost predicate Reachable(t: State)
  { exists acts :: Legal(Start(), acts) && Covered(Start(), acts) && After(Start(), acts) == t }

  lemma ReachInv(t: State)
    requires Reachable(t)
    ensures Inv(t)
  {
    var acts :| Legal(Start(), acts) && Covered(Start(), acts) && After(Start(), acts) == t;
    StartInv();
    RunInv(Start(), acts);
  }

  lemma Then(t: State, a: Action)
    requires Reachable(t) && Enabled(t, a) && Covers(t, a)
    ensures Reachable(Do(t, a))
  {
    var acts :| Legal(Start(), acts) && Covered(Start(), acts) && After(Start(), acts) == t;
    OneStep(t, a);
    hide Legal; hide Covered; hide After; hide Stamps;
    Join(Start(), acts, [a]);
  }

  // Key 20 has been removed twice from leaf 2, the last time at 8; key 5 is in leaf 1.
  lemma Prelude() returns (s: State)
    ensures Reachable(s) && s.owner == Start().owner
    ensures s.phantom == map[1 := 0, 2 := 10] && s.row == map[5 := 2] && s.last == map[20 := 8, 5 := 2]
    ensures s.clock == map[1 := 8, 2 := 2, 3 := 2] && s.pending == map[]
  {
    hide Reachable;
    s := Start();
    assert Reachable(s) by { Zero(); }
    Then(s, NewThread(1)); s := Do(s, NewThread(1));
    Then(s, NewThread(2)); s := Do(s, NewThread(2));
    Then(s, NewThread(3)); s := Do(s, NewThread(3));
    s := WriteAndRemove(s, 2, 4, 0, 6);
    s := WriteAndRemove(s, 6, 8, 6, 10);
    Then(s, Write(2, 5)); s := Do(s, Write(2, 5));
  }

  lemma Zero()
    ensures Reachable(Start())
  { assert Legal(Start(), []) && Covered(Start(), []) && After(Start(), []) == Start(); }

  lemma WriteAndRemove(s: State, w: Stamp, r: Stamp, p: Stamp, p': Stamp) returns (t: State)
    requires Reachable(s) && s.owner == Start().owner && s.phantom == map[1 := 0, 2 := p] && s.row == map[]
      && s.pending == map[]
    requires 1 in s.clock && s.clock[1] % 2 == 0 && w == Max(s.clock[1], p) && w % 2 == 0 && r == w + 2 && p <= r
      && p' == r + 2
    ensures Reachable(t) && t.owner == s.owner && t.phantom == map[1 := 0, 2 := p'] && t.row == map[]
      && t.pending == map[]
    ensures t.last == s.last[20 := r] && t.clock == s.clock[1 := r]
  {
    hide Reachable;
    Then(s, Write(1, 20));
    var a := Do(s, Write(1, 20));
    assert a.row == map[20 := w] && a.clock[1] == w;
    Then(a, RemoveTest(1, 20));
    var b := Do(a, RemoveTest(1, 20));
    Then(b, RemoveStore(2));
    t := Do(b, RemoveStore(2));
    assert t.phantom == map[1 := 0, 2 := p'];
    assert t.row == map[];
    assert t.pending == map[];
  }

  // step a leads from a good state to one where a thread that has just started gives key 20 a timestamp that goes back
  ghost predicate GoesBack(s: State, a: Action) {
    && Enabled(s, a) && !Covers(s, a)
    && var t := Do(s, a);
       Enabled(t, Write(3, 20)) && 20 in t.last && Assigned(t, 3, 20) < t.last[20]
  }

  lemma LosesTwenty(s: State, p: Id)
    requires p != 2 && s.pending == map[] && 2 in s.phantom && p in s.phantom && s.phantom[p] < 8
    requires s.last == map[20 := 8, 5 := 4] || s.last == map[20 := 8, 5 := 2]
    requires 3 in s.clock && s.clock[3] == 2
    requires 20 in s.owner && s.owner[20] == 2 && (forall k :: k in s.owner && s.owner[k] == 2 ==> k !in s.row)
    ensures GoesBack(s, Absorb(2, p))
  { assert Gone(s, 20); }

  // apply_remove tests the epoch, remove_leaf raises it, apply_remove stores over it.
  lemma StoreLost() returns (s: State)
    ensures Reachable(s) && Inv(s) && GoesBack(s, Absorb(2, 1))
  {
    hide Reachable;
    s := Prelude();
    Then(s, RemoveTest(2, 5)); s := Do(s, RemoveTest(2, 5));
    assert s.pending == map[1 := Removing(5, Some(6))];
    Then(s, HandOver(2, 1)); s := Do(s, HandOver(2, 1));
    Then(s, RemoveStore(1)); s := Do(s, RemoveStore(1));
    ReachInv(s);
    hide Inv;
    LosesTwenty(s, 1);
  }

  // make_split copies the epoch into the new leaf, remove_leaf raises it in the old one, and unlink finds the new one
  // as predecessor.
  lemma HeirNotHanded() returns (s: State)
    ensures Reachable(s) && Inv(s) && GoesBack(s, Absorb(2, 3))
  {
    hide Reachable;
    s := Prelude();
    Then(s, SplitCopy(1)); s := Do(s, SplitCopy(1));
    Then(s, HandOver(2, 1)); s := Do(s, HandOver(2, 1));
    Then(s, SplitLink(1, 3, iset{7, 8, 9})); s := Do(s, SplitLink(1, 3, iset{7, 8, 9}));
    ReachInv(s);
    hide Inv;
    LosesTwenty(s, 3);
  }
}
