// Replay of one key's log records in any order: the chain of delta markers in front of the key's row.
module LogReplay {
  import opened Options

  type Payload = seq<int>

  // What a row holds, as a term over the row type's create, create1 and update: equal terms are equal rows
  // whatever those operations do.
  datatype Content = Created(change: Payload) | Created1(value: Payload) | Gone | Updated(of: Content, change: Payload)

  datatype Record =
    | Put(ts: nat, change: Payload)
    | Replace(ts: nat, value: Payload)
    | Remove(ts: nat)
    | Modify(ts: nat, prev: nat, change: Payload)

  // A key's value: delta markers, newest first, then at most one row.
  datatype Entry = Row(content: Content, ts: nat) | Delta(change: Payload, ts: nat, prev: nat)

  function Mark(ts: nat): nat { if ts % 2 == 0 then ts + 1 else ts }   // ts | 1

  // logrecord::run gives a remove an odd timestamp
  function Stamp(r: Record): nat { if r.Remove? then Mark(r.ts) else r.ts }

  ghost predicate ChainOk(c: seq<Entry>) {
    forall i :: 0 <= i < |c| ==> (c[i].Row? ==> i == |c| - 1) && (c[i].Delta? ==> c[i].ts % 2 == 1)
  }

  // ---------- logrecord::apply ----------
  function Skip(c: seq<Entry>, ts: nat): (k: nat)
    ensures k <= |c| && forall i :: 0 <= i < k ==> c[i].Delta? && c[i].ts > ts
    ensures k < |c| ==> c[k].Row? || c[k].ts <= ts
  {
    if c == [] || c[0].Row? || c[0].ts <= ts then 0 else 1 + Skip(c[1..], ts)
  }

  function Deltas(c: seq<Entry>): (k: nat)
    ensures k <= |c| && forall i :: 0 <= i < k ==> c[i].Delta?
    ensures k < |c| ==> c[k].Row?
  {
    if c == [] || c[0].Row? then 0 else 1 + Deltas(c[1..])
  }

  predicate Joins(c: seq<Entry>, k: nat) {
    0 < k < |c| && c[k].Row? && c[k-1].Delta? && c[k-1].prev == c[k].ts && c[k-1].ts > 0
  }

  // the oldest delta joins the row it was waiting for
  function Join(c: seq<Entry>, k: nat): seq<Entry>
    requires Joins(c, k)
  {
    c[..k-1] + [Row(Updated(c[k].content, c[k-1].change), c[k-1].ts - 1)] + c[k+1..]
  }

  function Clean(c: seq<Entry>): seq<Entry>
    decreases |c|
  {
    var k := Deltas(c);
    if Joins(c, k) then Clean(Join(c, k)) else c
  }

  function NewRow(r: Record): Entry
    requires !r.Modify?
  {
    Row(match r case Put(_, ch) => Created(ch) case Replace(_, v) => Created1(v) case Remove(_) => Gone, Stamp(r))
  }

  predicate Fits(c: seq<Entry>, k: nat, r: Record)
    requires r.Modify?
  { k < |c| && c[k].Row? && c[k].ts == r.prev }

  function Store(c: seq<Entry>, k: nat, r: Record): seq<Entry>
    requires k <= |c|
  {
    if !r.Modify? then c[..k] + [NewRow(r)]
    else if Fits(c, k, r) then c[..k] + [Row(Updated(c[k].content, r.change), r.ts)] + c[k+1..]
    else c[..k] + [Delta(r.change, Mark(r.ts), r.prev)] + c[k..]
  }

  function Applied(c: seq<Entry>, r: Record): seq<Entry> {
    var k := Skip(c, Stamp(r));
    if k < |c| && c[k].ts >= Stamp(r) then c else Clean(Store(c, k, r))
  }

  lemma SkipIs(c: seq<Entry>, ts: nat, k: nat)
    requires k <= |c| && (forall i :: 0 <= i < k ==> c[i].Delta? && c[i].ts > ts)
      && (k < |c| ==> c[k].Row? || c[k].ts <= ts)
    ensures Skip(c, ts) == k
  { if k > 0 { SkipIs(c[1..], ts, k - 1); } }

  lemma DeltasIs(c: seq<Entry>, k: nat)
    requires k <= |c| && (forall i :: 0 <= i < k ==> c[i].Delta?) && (k < |c| ==> c[k].Row?)
    ensures Deltas(c) == k
  { if k > 0 { DeltasIs(c[1..], k - 1); } }

  class Replayed {
    var chain: seq<Entry>

    constructor ()
      ensures chain == []
    { chain := []; }

    // find point to insert change (may be after some delta markers)
    method FindPoint(ts: nat) returns (cur: nat)
      ensures cur == Skip(chain, ts)
    {
      cur := 0;
      while cur < |chain| && chain[cur].Delta? && chain[cur].ts > ts
        invariant cur <= |chain| && forall i :: 0 <= i < cur ==> chain[i].Delta? && chain[i].ts > ts
      {
        cur := cur + 1;
      }
      SkipIs(chain, ts, cur);
    }

    // delete everything earlier
    method DeleteEarlier(cur: nat)
      requires ChainOk(chain) && cur <= |chain|
      modifies this
      ensures chain == old(chain)[..cur]
    {
      while cur < |chain|
        invariant cur <= |chain| && chain[..cur] == old(chain)[..cur] && ChainOk(chain)
        decreases |chain|
      {
        if chain[cur].Delta? {
          chain := chain[..cur] + chain[cur+1..];
        } else {
          chain := chain[..cur];
        }
      }
    }

    // clean up: while the oldest delta was waiting for the row, merge them
    method CleanUp()
      requires ChainOk(chain)
      modifies this
      ensures chain == Clean(old(chain))
    {
      while |chain| > 0 && chain[0].Delta?
        invariant Clean(chain) == Clean(old(chain)) && ChainOk(chain)
        decreases |chain|
      {
        var trav := 0;
        while trav < |chain| && chain[trav].Delta?
          invariant trav <= |chain| && forall i :: 0 <= i < trav ==> chain[i].Delta?
        {
          trav := trav + 1;
        }
        DeltasIs(chain, trav);
        if trav > 0 && trav < |chain| && chain[trav-1].prev == chain[trav].ts {
          assert Joins(chain, trav);
          chain := chain[..trav-1] + [Row(Updated(chain[trav].content, chain[trav-1].change),
            chain[trav-1].ts - 1)] + chain[trav+1..];
        } else {
          break;
        }
      }
    }

    // The deltas are odd-stamped and a modify names an even stamp, so cur never matches a delta.
    method Apply(r: Record)
      requires ChainOk(chain) && (r.Modify? ==> r.prev % 2 == 0)
      modifies this
      ensures chain == Applied(old(chain), r) && ChainOk(chain)
    {
      var ts := Stamp(r);
      var cur := FindPoint(ts);
      // check out of date
      if cur < |chain| && chain[cur].ts >= ts { return; }
      if !r.Modify? {
        DeleteEarlier(cur);
        chain := chain + [NewRow(r)];
      } else if cur < |chain| && chain[cur].ts == r.prev {
        chain := chain[..cur] + [Row(Updated(chain[cur].content, r.change), ts)] + chain[cur+1..];
      } else {
        chain := chain[..cur] + [Delta(r.change, Mark(ts), r.prev)] + chain[cur..];
      }
      assert chain == Store(old(chain), cur, r);
      StoreOk(old(chain), cur, r);
      CleanOk(chain);
      CleanUp();
    }
  }

  lemma StoreOk(c: seq<Entry>, k: nat, r: Record)
    requires ChainOk(c) && k <= |c| && (forall i :: 0 <= i < k ==> c[i].Delta?)
    ensures ChainOk(Store(c, k, r))
  { }

  lemma {:induction false} CleanOk(c: seq<Entry>)
    requires ChainOk(c)
    ensures ChainOk(Clean(c))
    decreases |c|
  {
    var k := Deltas(c);
    if Joins(c, k) { CleanOk(Join(c, k)); }
  }

  // ---------- one key's history ----------
  ghost predicate Follows(h: seq<Record>, i: int)
    requires 0 <= i < |h| && h[i].Modify?
  { i > 0 && h[i].prev == h[i-1].ts && !h[i-1].Remove? }

  // Strictly increasing even timestamps; a modify names its predecessor's and never follows a remove.
  ghost predicate HistoryOk(h: seq<Record>) {
    && (forall i :: 0 <= i < |h| ==> h[i].ts % 2 == 0)
    && (forall i, j :: 0 <= i < j < |h| ==> h[i].ts < h[j].ts)
    && (forall i {:trigger Follows(h, i)} :: 0 <= i < |h| && h[i].Modify? ==> Follows(h, i))
  }

  // the row after records 0..m in timestamp order
  ghost function Value(h: seq<Record>, m: nat): Content
    requires HistoryOk(h) && m < |h|
  {
    match h[m]
    case Put(_, ch) => Created(ch)
    case Replace(_, v) => Created1(v)
    case Remove(_) => Gone
    case Modify(_, _, ch) => assert Follows(h, m); Updated(Value(h, m - 1), ch)
  }

  ghost function RowOf(h: seq<Record>, m: nat): Entry
    requires HistoryOk(h) && m < |h|
  { Row(Value(h, m), Stamp(h[m])) }

  // the modifies of s between lo and n, newest first, as delta markers
  ghost function Waiting(h: seq<Record>, s: set<nat>, lo: nat, n: nat): seq<Entry>
    requires n <= |h|
  {
    if n <= lo then []
    else
      (if n - 1 in s && h[n-1].Modify? then [Delta(h[n-1].change, Mark(h[n-1].ts), h[n-1].prev)] else [])
      + Waiting(h, s, lo, n - 1)
  }

  // the newest record of s below n that is not a modify
  ghost function Base(h: seq<Record>, s: set<nat>, n: nat): (r: Option<nat>)
    requires n <= |h|
    ensures r.Some? ==> r.value < n && r.value in s && !h[r.value].Modify?
    ensures forall i :: 0 <= i < n && i in s && !h[i].Modify? ==> r.Some? && i <= r.value
  {
    if n == 0 then None else if n - 1 in s && !h[n-1].Modify? then Some(n - 1) else Base(h, s, n - 1)
  }

  // how far the records of s carry the row at m without a gap
  ghost function Carry(h: seq<Record>, s: set<nat>, m: nat): (r: nat)
    requires m < |h|
    ensures m <= r < |h|
    ensures forall i :: m < i <= r ==> i in s && h[i].Modify?
    ensures r + 1 < |h| ==> r + 1 !in s || !h[r+1].Modify?
    decreases |h| - m
  {
    if m + 1 < |h| && m + 1 in s && h[m+1].Modify? then Carry(h, s, m + 1) else m
  }

  // the chain once the records of s have been applied, in whatever order
  ghost function Canon(h: seq<Record>, s: set<nat>): seq<Entry>
    requires HistoryOk(h)
  {
    match Base(h, s, |h|)
    case None => Waiting(h, s, 0, |h|)
    case Some(b) => var m := Carry(h, s, b); Waiting(h, s, m + 1, |h|) + [RowOf(h, m)]
  }

  // ---------- facts about waiting deltas ----------
  lemma {:induction false} WaitingSplit(h: seq<Record>, s: set<nat>, lo: nat, mid: nat, n: nat)
    requires lo <= mid <= n <= |h|
    ensures Waiting(h, s, lo, n) == Waiting(h, s, mid, n) + Waiting(h, s, lo, mid)
  { if n > mid { WaitingSplit(h, s, lo, mid, n - 1); } }

  lemma {:induction false} WaitingSame(h: seq<Record>, s: set<nat>, t: set<nat>, lo: nat, n: nat)
    requires n <= |h| && forall i :: lo <= i < n ==> (i in s <==> i in t)
    ensures Waiting(h, s, lo, n) == Waiting(h, t, lo, n)
  {
    if n > lo {
      WaitingSame(h, s, t, lo, n - 1);
      assert (n - 1 in s && h[n-1].Modify?) == (n - 1 in t && h[n-1].Modify?);
      WaitingStep(h, s, lo, n);
      WaitingStep(h, t, lo, n);
      hide Waiting;
    }
  }

  lemma WaitingStep(h: seq<Record>, s: set<nat>, lo: nat, n: nat)
    requires lo < n <= |h|
    ensures Waiting(h, s, lo, n) ==
      if n - 1 in s && h[n-1].Modify?
      then [Delta(h[n-1].change, Mark(h[n-1].ts), h[n-1].prev)] + Waiting(h, s, lo, n - 1)
      else Waiting(h, s, lo, n - 1)
  { }

  ghost predicate Waits(h: seq<Record>, s: set<nat>, lo: nat, n: nat, i: nat, e: Entry) {
    lo <= i < n && i in s && i < |h| && h[i].Modify? && e == Delta(h[i].change, h[i].ts + 1, h[i].prev)
  }

  lemma WaitingAdd(h: seq<Record>, s: set<nat>, i: nat, lo: nat, n: nat)
    requires n <= |h| && (i < lo || n <= i)
    ensures Waiting(h, s + {i}, lo, n) == Waiting(h, s, lo, n)
  { WaitingSame(h, s, s + {i}, lo, n); }

  // the record behind a waiting delta
  lemma {:induction false} WaitingAt(h: seq<Record>, s: set<nat>, lo: nat, n: nat, j: nat) returns (i: nat)
    requires n <= |h| && HistoryOk(h) && j < |Waiting(h, s, lo, n)|
    ensures Waits(h, s, lo, n, i, Waiting(h, s, lo, n)[j])
  {
    var here := n - 1 in s && h[n-1].Modify?;
    if here && j == 0 { i := n - 1; }
    else { i := WaitingAt(h, s, lo, n - 1, if here then j - 1 else j); }
  }

  lemma Above(h: seq<Record>, s: set<nat>, i: nat, lo: nat, n: nat)
    requires HistoryOk(h) && i < |h| && lo > i && n <= |h|
    ensures var w := Waiting(h, s, lo, n); forall j :: 0 <= j < |w| ==> w[j].Delta? && w[j].ts > Stamp(h[i])
  {
    var w := Waiting(h, s, lo, n);
    forall j: nat | 0 <= j < |w| ensures w[j].Delta? && w[j].ts > Stamp(h[i]) { var k := WaitingAt(h, s, lo, n, j); }
  }

  lemma Below(h: seq<Record>, s: set<nat>, i: nat, lo: nat, n: nat)
    requires HistoryOk(h) && i < |h| && n <= i
    ensures var w := Waiting(h, s, lo, n); forall j :: 0 <= j < |w| ==> w[j].Delta? && w[j].ts < Stamp(h[i])
  {
    var w := Waiting(h, s, lo, n);
    forall j: nat | 0 <= j < |w| ensures w[j].Delta? && w[j].ts < Stamp(h[i]) { var k := WaitingAt(h, s, lo, n, j); }
  }

  lemma AllDeltas(h: seq<Record>, s: set<nat>, lo: nat, n: nat)
    requires HistoryOk(h) && n <= |h|
    ensures var w := Waiting(h, s, lo, n); forall j :: 0 <= j < |w| ==> w[j].Delta?
  {
    var w := Waiting(h, s, lo, n);
    forall j: nat | 0 <= j < |w| ensures w[j].Delta? { var k := WaitingAt(h, s, lo, n, j); }
  }

  // ---------- clean up ----------
  lemma CleanStep(c: seq<Entry>, k: nat)
    requires Deltas(c) == k && Joins(c, k)
    ensures Clean(c) == Clean(Join(c, k))
  { }

  // one more delta joins the row
  lemma CleanOne(v: seq<Entry>, d: Entry, e: Entry)
    requires (forall i :: 0 <= i < |v| ==> v[i].Delta?) && d.Delta? && e.Row? && d.prev == e.ts && d.ts > 0
    ensures Clean(v + [d, e]) == Clean(v + [Row(Updated(e.content, d.change), d.ts - 1)])
  {
    hide Clean;
    var c := v + [d, e];
    assert forall i :: 0 <= i < |v| ==> c[i] == v[i];
    assert c[|v|] == d && c[|v|+1] == e;
    DeltasIs(c, |v| + 1);
    CleanStep(c, |v| + 1);
    assert c[..|v|] == v && c[|v|+2..] == [];
    assert Join(c, |v| + 1) == v + [Row(Updated(e.content, d.change), d.ts - 1)];
  }

  lemma CleanNone(v: seq<Entry>, e: Entry)
    requires (forall i :: 0 <= i < |v| ==> v[i].Delta?) && e.Row? && (|v| > 0 ==> v[|v|-1].prev != e.ts)
    ensures Clean(v + [e]) == v + [e]
  { DeltasIs(v + [e], |v|); }

  // deltas that wait for an older row than m's do not join it
  lemma {:induction false} CleanCanon(h: seq<Record>, s: set<nat>, m: nat)
    requires HistoryOk(h) && m < |h| && (forall i :: m < i < |h| && i in s ==> h[i].Modify?)
    ensures Clean(Waiting(h, s, m + 1, |h|) + [RowOf(h, m)]) ==
      Waiting(h, s, Carry(h, s, m) + 1, |h|) + [RowOf(h, Carry(h, s, m))]
    decreases |h| - m
  {
    hide Clean;
    if m + 1 < |h| && m + 1 in s {
      CleanFirst(h, s, m);
      CleanCanon(h, s, m + 1);
    } else {
      CleanLast(h, s, m);
    }
  }

  // the lowest waiting delta joins the row
  lemma CleanFirst(h: seq<Record>, s: set<nat>, m: nat)
    requires HistoryOk(h) && m + 1 < |h| && m + 1 in s && h[m + 1].Modify?
    ensures Clean(Waiting(h, s, m + 1, |h|) + [RowOf(h, m)]) == Clean(Waiting(h, s, m + 2, |h|) + [RowOf(h, m + 1)])
  {
    hide Clean;
    AllDeltas(h, s, m + 1, |h|);
    var w, v := Waiting(h, s, m + 1, |h|), Waiting(h, s, m + 2, |h|);
    var d := Delta(h[m+1].change, Mark(h[m+1].ts), h[m+1].prev);
    WaitingSplit(h, s, m + 1, m + 2, |h|);
    WaitingPush(h, s, m + 1, m + 1);
    hide Waiting;
    assert w == v + [d];
    assert Follows(h, m + 1);
    assert w + [RowOf(h, m)] == v + [d, RowOf(h, m)];
    assert forall i :: 0 <= i < |v| ==> v[i] == w[i];
    CleanOne(v, d, RowOf(h, m));
  }

  // or nothing does
  lemma CleanLast(h: seq<Record>, s: set<nat>, m: nat)
    requires HistoryOk(h) && m < |h| && (m + 1 in s ==> m + 1 >= |h|)
    ensures Clean(Waiting(h, s, m + 1, |h|) + [RowOf(h, m)]) == Waiting(h, s, m + 1, |h|) + [RowOf(h, m)]
  {
    hide Clean; hide Waiting;
    var w := Waiting(h, s, m + 1, |h|);
    AllDeltas(h, s, m + 1, |h|);
    if |w| > 0 {
      var i := WaitingAt(h, s, m + 1, |h|, |w| - 1);
      assert Follows(h, i);
      assert h[m].ts < h[i-1].ts && h[m].ts % 2 == 0 && h[i-1].ts % 2 == 0;
    }
    CleanNone(w, RowOf(h, m));
  }

  lemma CleanDeltas(c: seq<Entry>)
    requires forall i :: 0 <= i < |c| ==> c[i].Delta?
    ensures Clean(c) == c
  { DeltasIs(c, |c|); }

  // ---------- one record more ----------
  lemma AppliedAt(c: seq<Entry>, r: Record, k: nat)
    requires k <= |c| && (forall i :: 0 <= i < k ==> c[i].Delta? && c[i].ts > Stamp(r))
      && (k < |c| ==> c[k].Row? || c[k].ts <= Stamp(r))
    ensures Applied(c, r) == if k < |c| && c[k].ts >= Stamp(r) then c else Clean(Store(c, k, r))
  { SkipIs(c, Stamp(r), k); }

  lemma CanonAt(h: seq<Record>, s: set<nat>, b: nat)
    requires HistoryOk(h) && Base(h, s, |h|) == Some(b)
    ensures Canon(h, s) == Waiting(h, s, Carry(h, s, b) + 1, |h|) + [RowOf(h, Carry(h, s, b))]
  { }

  lemma WaitingSkip(h: seq<Record>, s: set<nat>, lo: nat, i: nat)
    requires i < |h| && i !in s && lo <= i + 1
    ensures Waiting(h, s, lo, i + 1) == Waiting(h, s, lo, i)
  { }

  lemma WaitingPush(h: seq<Record>, s: set<nat>, lo: nat, i: nat)
    requires i < |h| && i in s && h[i].Modify? && lo <= i
    ensures Waiting(h, s, lo, i + 1) == [Delta(h[i].change, Mark(h[i].ts), h[i].prev)] + Waiting(h, s, lo, i)
    ensures Waiting(h, s, i, i) == []
  { }

  lemma DropAtRow(w: seq<Entry>, row: Entry, r: Record)
    requires (forall j :: 0 <= j < |w| ==> w[j].Delta? && w[j].ts > Stamp(r)) && row.Row? && row.ts >= Stamp(r)
    ensures Applied(w + [row], r) == w + [row]
  { AppliedAt(w + [row], r, |w|); }

  // a record older than the row is dropped
  lemma Outdated(h: seq<Record>, s: set<nat>, i: nat)
    requires HistoryOk(h) && i < |h| && i !in s && Base(h, s, |h|).Some? && i < Base(h, s, |h|).value
    ensures Applied(Canon(h, s), h[i]) == Canon(h, s + {i})
  {
    hide Applied; hide Clean; hide Waiting; hide Base; hide Carry; hide Canon;
    var b := Base(h, s, |h|).value;
    var m := Carry(h, s, b);
    CanonAt(h, s, b);
    Above(h, s, i, m + 1, |h|);
    assert h[i].ts < h[m].ts && h[i].ts % 2 == 0 && h[m].ts % 2 == 0;
    DropAtRow(Waiting(h, s, m + 1, |h|), RowOf(h, m), h[i]);
    BaseSame(h, s, i, |h|);
    CarrySame(h, s, i, b);
    WaitingSame(h, s, s + {i}, m + 1, |h|);
    CanonAt(h, s + {i}, b);
  }

  lemma {:induction false} BaseSame(h: seq<Record>, s: set<nat>, i: nat, n: nat)
    requires n <= |h| && i < |h| && (h[i].Modify? || (Base(h, s, n).Some? && i < Base(h, s, n).value))
    ensures Base(h, s + {i}, n) == Base(h, s, n)
  {
    if n > 0 && !(n - 1 in s && !h[n-1].Modify?) {
      BaseSame(h, s, i, n - 1);
    }
  }

  lemma {:induction false} CarrySame(h: seq<Record>, s: set<nat>, i: nat, m: nat)
    requires m < |h| && (i <= m || i > Carry(h, s, m) + 1)
    ensures Carry(h, s + {i}, m) == Carry(h, s, m)
    decreases |h| - m
  {
    if m + 1 < |h| && m + 1 in s && h[m+1].Modify? { CarrySame(h, s, i, m + 1); }
  }

  // what a newer record does: the deltas of still newer ones stay in front
  lemma StoreBehind(w: seq<Entry>, rest: seq<Entry>, r: Record)
    requires (forall j :: 0 <= j < |w| ==> w[j].Delta? && w[j].ts > Stamp(r)) && (rest != [] ==> rest[0].ts < Stamp(r))
    ensures Applied(w + rest, r) == Clean(Store(w + rest, |w|, r))
    ensures !r.Modify? ==> Store(w + rest, |w|, r) == w + [NewRow(r)]
    ensures r.Modify? && rest != [] && rest[0].Row? && rest[0].ts == r.prev ==>
      Store(w + rest, |w|, r) == w + ([Row(Updated(rest[0].content, r.change), r.ts)] + rest[1..])
    ensures r.Modify? && !(rest != [] && rest[0].Row? && rest[0].ts == r.prev) ==>
      Store(w + rest, |w|, r) == w + ([Delta(r.change, Mark(r.ts), r.prev)] + rest)
  {
    hide Clean; hide Applied;
    var c := w + rest;
    assert rest != [] ==> c[|w|] == rest[0];
    assert c[..|w|] == w && c[|w|..] == rest;
    AppliedAt(c, r, |w|);
  }

  // a put, replace or remove newer than every other one becomes the row, and the deltas waiting for it join
  lemma Rebase(h: seq<Record>, s: set<nat>, i: nat)
    requires HistoryOk(h) && i < |h| && i !in s && !h[i].Modify?
    requires Base(h, s, |h|).Some? ==> Base(h, s, |h|).value < i
    ensures Applied(Canon(h, s), h[i]) == Canon(h, s + {i})
  {
    hide Applied; hide Clean; hide Waiting; hide Base; hide Carry; hide Canon; hide Store;
    var w := Waiting(h, s, i + 1, |h|);
    var rest := RestBelow(h, s, i);
    Above(h, s, i, i + 1, |h|);
    StoreBehind(w, rest, h[i]);
    assert RowOf(h, i) == NewRow(h[i]);
    CleanCanon(h, s, i);
    assert Base(h, s + {i}, |h|) == Some(i);
    CarrySame(h, s, i, i);
    WaitingSame(h, s, s + {i}, Carry(h, s, i) + 1, |h|);
    CanonAt(h, s + {i}, i);
  }

  // what stands behind the deltas newer than i is older than i
  lemma RestBelow(h: seq<Record>, s: set<nat>, i: nat) returns (rest: seq<Entry>)
    requires HistoryOk(h) && i < |h| && i !in s
    requires Base(h, s, |h|).Some? ==> Base(h, s, |h|).value < i
    ensures Canon(h, s) == Waiting(h, s, i + 1, |h|) + rest
    ensures rest != [] ==> rest[0].ts < Stamp(h[i])
    ensures match Base(h, s, |h|)
      case None => rest == Waiting(h, s, 0, i)
      case Some(b) => Carry(h, s, b) < i && rest == Waiting(h, s, Carry(h, s, b) + 1, i) + [RowOf(h, Carry(h, s, b))]
  {
    if Base(h, s, |h|).None? {
      hide Waiting; hide Base; hide Carry;
      WaitingSplit(h, s, 0, i + 1, |h|);
      WaitingSkip(h, s, 0, i);
      rest := Waiting(h, s, 0, i);
      Below(h, s, i, 0, i);
    } else {
      hide Waiting; hide Base; hide Carry; hide Canon;
      var b := Base(h, s, |h|).value;
      var m := Carry(h, s, b);
      assert m < i;
      rest := Waiting(h, s, m + 1, i) + [RowOf(h, m)];
      RestRow(h, s, i, m);
      CanonAt(h, s, b);
    }
  }

  lemma RestRow(h: seq<Record>, s: set<nat>, i: nat, m: nat)
    requires HistoryOk(h) && m < i < |h| && i !in s
    ensures Waiting(h, s, m + 1, |h|) + [RowOf(h, m)] ==
      Waiting(h, s, i + 1, |h|) + (Waiting(h, s, m + 1, i) + [RowOf(h, m)])
    ensures (Waiting(h, s, m + 1, i) + [RowOf(h, m)])[0].ts < Stamp(h[i])
  {
    hide Waiting;
    var w := Waiting(h, s, m + 1, i);
    WaitingSplit(h, s, m + 1, i + 1, |h|);
    WaitingSkip(h, s, m + 1, i);
    Below(h, s, i, m + 1, i);
    assert h[m].ts < h[i].ts && h[m].ts % 2 == 0 && h[i].ts % 2 == 0;
    assert (w + [RowOf(h, m)])[0] == if |w| > 0 then w[0] else RowOf(h, m);
  }

  // a modify before any row waits
  lemma ExtendNone(h: seq<Record>, s: set<nat>, i: nat)
    requires HistoryOk(h) && i < |h| && i !in s && h[i].Modify? && Base(h, s, |h|).None?
    ensures Applied(Canon(h, s), h[i]) == Canon(h, s + {i})
  {
    hide Applied; hide Clean; hide Waiting; hide Base; hide Carry; hide Store;
    var t := s + {i};
    var w := Waiting(h, s, i + 1, |h|);
    var rest := RestBelow(h, s, i);
    Above(h, s, i, i + 1, |h|);
    AllDeltas(h, s, 0, i);
    StoreBehind(w, rest, h[i]);
    BaseSame(h, s, i, |h|);
    WaitingSame(h, s, t, i + 1, |h|);
    WaitingSame(h, s, t, 0, i);
    WaitingSplit(h, t, 0, i + 1, |h|);
    WaitingPush(h, t, 0, i);
    AllDeltas(h, t, 0, |h|);
    CleanDeltas(Waiting(h, t, 0, |h|));
  }

  // a modify whose predecessor is the row joins it
  lemma ExtendNext(h: seq<Record>, s: set<nat>, i: nat, b: nat)
    requires HistoryOk(h) && i < |h| && i !in s && h[i].Modify?
    requires Base(h, s, |h|) == Some(b) && b < i && Carry(h, s, b) + 1 == i
    ensures Applied(Canon(h, s), h[i]) == Canon(h, s + {i})
  {
    hide Applied; hide Clean; hide Waiting; hide Base; hide Carry; hide Canon; hide Store;
    var t := s + {i};
    var w := Waiting(h, s, i + 1, |h|);
    var rest := RestBelow(h, s, i);
    Above(h, s, i, i + 1, |h|);
    WaitingNil(h, s, i);
    assert Follows(h, i) && rest == [RowOf(h, i - 1)];
    StoreBehind(w, rest, h[i]);
    assert [RowOf(h, i)] + rest[1..] == [RowOf(h, i)];
    hide RowOf; hide HistoryOk; hide Follows;
    CleanCanon(h, s, i);
    BaseSame(h, s, i, |h|);
    CarryOn(h, s, i, b);
    WaitingSame(h, s, t, Carry(h, s, i) + 1, |h|);
    CanonAt(h, t, b);
  }

  lemma WaitingNil(h: seq<Record>, s: set<nat>, i: nat)
    requires i <= |h|
    ensures Waiting(h, s, i, i) == []
  { }

  lemma {:induction false} CarryOn(h: seq<Record>, s: set<nat>, i: nat, b: nat)
    requires b < |h| && i < |h| && i !in s && i == Carry(h, s, b) + 1 && h[i].Modify?
    ensures Carry(h, s + {i}, b) == Carry(h, s, i)
    decreases |h| - b
  {
    if b + 1 == i { CarrySame(h, s, i, i); } else { CarryOn(h, s, i, b + 1); }
  }

  lemma Regroup(w: seq<Entry>, d: Entry, v: seq<Entry>, row: Entry)
    ensures w + ([d] + (v + [row])) == (w + ([d] + v)) + [row]
  { }

  lemma NotFirst(h: seq<Record>, m: nat, i: nat, v: seq<Entry>, rest: seq<Entry>)
    requires HistoryOk(h) && m + 1 < i < |h| && h[i].Modify? && rest == v + [RowOf(h, m)] && (|v| > 0 ==> v[0].Delta?)
    ensures rest != [] && !(rest[0].Row? && rest[0].ts == h[i].prev)
  {
    assert Follows(h, i) && h[m].ts < h[i-1].ts && h[m].ts % 2 == 0 && h[i-1].ts % 2 == 0;
    assert rest[0] == if |v| > 0 then v[0] else RowOf(h, m);
  }

  lemma FarBase(h: seq<Record>, s: set<nat>, i: nat, b: nat)
    requires i < |h| && h[i].Modify? && Base(h, s, |h|) == Some(b) && b < i && Carry(h, s, b) + 1 < i
    ensures Base(h, s + {i}, |h|) == Some(b) && Carry(h, s + {i}, b) == Carry(h, s, b)
  {
    hide Base; hide Carry;
    BaseSame(h, s, i, |h|);
    CarrySame(h, s, i, b);
  }

  lemma FarCanon(h: seq<Record>, s: set<nat>, i: nat, m: nat, row: Entry)
    requires i < |h| && i !in s && h[i].Modify? && m + 1 < i
    ensures Waiting(h, s + {i}, m + 1, |h|) + [row] ==
      Waiting(h, s, i + 1, |h|) + ([Delta(h[i].change, Mark(h[i].ts), h[i].prev)] + (Waiting(h, s, m + 1, i) + [row]))
  {
    hide Waiting;
    FarWaiting(h, s, i, m);
    Regroup(Waiting(h, s, i + 1, |h|), Delta(h[i].change, Mark(h[i].ts), h[i].prev), Waiting(h, s, m + 1, i), row);
  }

  lemma FarWaiting(h: seq<Record>, s: set<nat>, i: nat, m: nat)
    requires i < |h| && i !in s && h[i].Modify? && m + 1 < i
    ensures Waiting(h, s + {i}, m + 1, |h|) ==
      Waiting(h, s, i + 1, |h|) + ([Delta(h[i].change, Mark(h[i].ts), h[i].prev)] + Waiting(h, s, m + 1, i))
  {
    hide Waiting;
    var t := s + {i};
    WaitingAdd(h, s, i, i + 1, |h|);
    WaitingAdd(h, s, i, m + 1, i);
    WaitingSplit(h, t, m + 1, i + 1, |h|);
    WaitingPush(h, t, m + 1, i);
  }

  // any other modify waits, and no waiting delta fits the row
  lemma ExtendFar(h: seq<Record>, s: set<nat>, i: nat, b: nat)
    requires HistoryOk(h) && i < |h| && i !in s && h[i].Modify?
    requires Base(h, s, |h|) == Some(b) && b < i && Carry(h, s, b) + 1 < i
    ensures Applied(Canon(h, s), h[i]) == Canon(h, s + {i})
  {
    hide Applied; hide Clean; hide Waiting; hide Base; hide Carry; hide Canon; hide Store; hide HistoryOk;
    var t := s + {i};
    var m := Carry(h, s, b);
    var w, v := Waiting(h, s, i + 1, |h|), Waiting(h, s, m + 1, i);
    var rest := RestBelow(h, s, i);
    Above(h, s, i, i + 1, |h|);
    AllDeltas(h, s, m + 1, i);
    NotFirst(h, m, i, v, rest);
    StoreBehind(w, rest, h[i]);
    FarBase(h, s, i, b);
    FarCanon(h, s, i, m, RowOf(h, m));
    CanonAt(h, t, b);
    CleanCanon(h, t, m);
    CarryStops(h, t, b);
  }

  lemma CarryStops(h: seq<Record>, s: set<nat>, b: nat)
    requires b < |h|
    ensures Carry(h, s, Carry(h, s, b)) == Carry(h, s, b)
  { }

  lemma OneMore(h: seq<Record>, s: set<nat>, i: nat)
    requires HistoryOk(h) && i < |h| && i !in s
    ensures Applied(Canon(h, s), h[i]) == Canon(h, s + {i})
  {
    if Base(h, s, |h|).Some? && i < Base(h, s, |h|).value { Outdated(h, s, i); }
    else if !h[i].Modify? { Rebase(h, s, i); }
    else if Base(h, s, |h|).None? { ExtendNone(h, s, i); }
    else if Carry(h, s, Base(h, s, |h|).value) + 1 == i { ExtendNext(h, s, i, Base(h, s, |h|).value); }
    else { ExtendFar(h, s, i, Base(h, s, |h|).value); }
  }

  // ---------- any order ----------
  ghost function Replay(c: seq<Entry>, h: seq<Record>, order: seq<nat>): seq<Entry>
    requires forall k :: 0 <= k < |order| ==> order[k] < |h|
  {
    if order == [] then c else Applied(Replay(c, h, order[..|order|-1]), h[order[|order|-1]])
  }

  ghost predicate Permutation(order: seq<nat>, n: nat) {
    && (forall k :: 0 <= k < |order| ==> order[k] < n)
    && (forall j, k :: 0 <= j < k < |order| ==> order[j] != order[k])
    && (forall i :: 0 <= i < n ==> i in order)
  }

  ghost function Seen(order: seq<nat>): set<nat> { set i | i in order }

  lemma SeenSnoc(order: seq<nat>, i: nat)
    ensures Seen(order + [i]) == Seen(order) + {i}
  {
    forall x | x in Seen(order) + {i} ensures x in Seen(order + [i]) {
      if x == i { assert (order + [i])[|order|] == i; }
    }
  }

  lemma {:induction false} ReplayCanon(h: seq<Record>, order: seq<nat>)
    requires HistoryOk(h) && (forall k :: 0 <= k < |order| ==> order[k] < |h|)
      && (forall j, k :: 0 <= j < k < |order| ==> order[j] != order[k])
    ensures Replay([], h, order) == Canon(h, Seen(order))
  {
    if order == [] {
      NothingYet(h, |h|);
      assert Seen(order) == {};
    } else {
      hide Applied; hide Canon; hide HistoryOk;
      var rest, i := order[..|order|-1], order[|order|-1];
      assert order == rest + [i] && i !in Seen(rest);
      assert Replay([], h, order) == Applied(Replay([], h, rest), h[i]);
      hide Replay; hide Seen;
      ReplayCanon(h, rest);
      OneMore(h, Seen(rest), i);
      SeenSnoc(rest, i);
    }
  }

  lemma {:induction false} NothingYet(h: seq<Record>, n: nat)
    requires n <= |h|
    ensures Waiting(h, {}, 0, n) == [] && Base(h, {}, n) == None
  { if n > 0 { NothingYet(h, n - 1); } }

  lemma {:induction false} AllSeen(h: seq<Record>, s: set<nat>, m: nat)
    requires HistoryOk(h) && m < |h| && (forall i :: m <= i < |h| ==> i in s)
      && (forall i :: m < i < |h| ==> h[i].Modify?)
    ensures Carry(h, s, m) == |h| - 1
    decreases |h| - m
  { if m + 1 < |h| { AllSeen(h, s, m + 1); } }

  lemma {:induction false} Grounded(h: seq<Record>, s: set<nat>, n: nat)
    requires HistoryOk(h) && 0 < n <= |h| && (forall i :: 0 <= i < n ==> i in s)
    ensures Base(h, s, n).Some?
  {
    if h[n-1].Modify? {
      assert Follows(h, n - 1);
      Grounded(h, s, n - 1);
    }
  }

  // Every record once, in any order: the key ends with the row that timestamp order gives, and no delta is left.
  lemma OrderDoesNotMatter(h: seq<Record>, order: seq<nat>)
    requires HistoryOk(h) && Permutation(order, |h|)
    ensures Replay([], h, order) == if h == [] then [] else [RowOf(h, |h| - 1)]
  {
    ReplayCanon(h, order);
    assert forall i :: 0 <= i < |h| ==> i in Seen(order);
    hide Replay; hide Seen; hide HistoryOk;
    CanonOfAll(h, Seen(order));
  }

  lemma CanonOfAll(h: seq<Record>, s: set<nat>)
    requires HistoryOk(h) && forall i :: 0 <= i < |h| ==> i in s
    ensures Canon(h, s) == if h == [] then [] else [RowOf(h, |h| - 1)]
  {
    if h != [] {
      Grounded(h, s, |h|);
      hide HistoryOk; hide Waiting;
      var b := Base(h, s, |h|).value;
      AllSeen(h, s, b);
      WaitingNil(h, s, |h|);
    }
  }

  // ---------- what the running system logs ----------
  // One key's operations: put, replace and remove on a row, each with a newer even timestamp (kvrow.hh).
  datatype Operation = DoPut(change: Payload) | DoReplace(value: Payload) | DoRemove

  datatype Live = Live(row: Option<Entry>, log: seq<Record>)

  // query::apply_put, apply_replace, apply_remove, and the record loginfo::record writes for each
  function Perform(l: Live, op: Operation, ts: nat): Live {
    match op
    case DoPut(ch) =>
      if l.row.None? then Live(Some(Row(Created(ch), ts)), l.log + [Put(ts, ch)])
      else if l.row.value.ts % 2 == 1 then Live(Some(Row(Created(ch), ts)), l.log + [Put(ts, ch)])
      else Live(Some(Row(Updated(Held(l.row.value), ch), ts)),
        l.log + [if l.row.value.ts != 0 then Modify(ts, l.row.value.ts, ch) else Put(ts, ch)])
    case DoReplace(v) => Live(Some(Row(Created1(v), ts)), l.log + [Replace(ts, v)])
    case DoRemove => if l.row.None? then l else Live(None, l.log + [Remove(ts)])
  }

  function Held(e: Entry): Content { if e.Row? then e.content else Gone }

  // what the log stands for
  ghost predicate Logged(l: Live) {
    && HistoryOk(l.log) && (forall i :: 0 <= i < |l.log| ==> l.log[i].ts > 0)
    && (if l.log == [] || l.log[|l.log|-1].Remove? then l.row == None else l.row == Some(RowOf(l.log, |l.log| - 1)))
  }

  ghost predicate Newer(l: Live, ts: nat) { ts > 0 && ts % 2 == 0 && forall i :: 0 <= i < |l.log| ==> l.log[i].ts < ts }

  lemma {:induction false} ValuePrefix(h: seq<Record>, r: Record, m: nat)
    requires HistoryOk(h) && HistoryOk(h + [r]) && m < |h|
    ensures Value(h + [r], m) == Value(h, m)
  {
    if h[m].Modify? { assert Follows(h, m); ValuePrefix(h, r, m - 1); }
  }

  lemma PerformLogged(l: Live, op: Operation, ts: nat)
    requires Logged(l) && Newer(l, ts)
    ensures Logged(Perform(l, op, ts))
  {
    var t := Perform(l, op, ts);
    if t != l {
      var n := |l.log|;
      var r := t.log[n];
      assert t.log == l.log + [r];
      forall i | 0 <= i < |t.log| && t.log[i].Modify? ensures Follows(t.log, i) {
        if i < n { assert Follows(l.log, i); }
      }
      if r.Modify? { ValuePrefix(l.log, r, n - 1); }
    }
  }

  ghost predicate Runs(l: Live, ops: seq<(Operation, nat)>, t: Live)
    decreases |ops|
  {
    if ops == [] then l == t
    else Newer(l, ops[0].1) && Runs(Perform(l, ops[0].0, ops[0].1), ops[1..], t)
  }

  lemma {:induction false} RunLogged(l: Live, ops: seq<(Operation, nat)>, t: Live)
    requires Logged(l) && Runs(l, ops, t)
    ensures Logged(t)
    decreases |ops|
  {
    if ops != [] {
      PerformLogged(l, ops[0].0, ops[0].1);
      RunLogged(Perform(l, ops[0].0, ops[0].1), ops[1..], t);
    }
  }

  // Any operations on a key, logged, then replayed from nothing in any order: the key has the row it had, or the marker
  // of its removal, or nothing if it never had one.
  lemma LogThenReplay(ops: seq<(Operation, nat)>, t: Live, order: seq<nat>)
    requires Runs(Live(None, []), ops, t) && Permutation(order, |t.log|)
    ensures Replay([], t.log, order) ==
      match t.row case Some(row) => [row] case None => if t.log == [] then [] else [Row(Gone, t.log[|t.log|-1].ts + 1)]
  {
    RunLogged(Live(None, []), ops, t);
    OrderDoesNotMatter(t.log, order);
  }

  // ---------- what the operations do to a row's columns ----------
  // what a change writes, and what a row made from one value holds: any functions will do
  datatype Reading = Reading(change: Payload -> map<nat, Payload>, whole: Payload -> map<nat, Payload>)

  function Pick(m: map<nat, Payload>, x: nat): Option<Payload> { if x in m then Some(m[x]) else None }

  // create starts from empty columns, update overwrites some of them, create1 sets the row as a whole
  function Column(rd: Reading, c: Content, x: nat): Option<Payload> {
    match c
    case Created(ch) => Pick(rd.change(ch), x)
    case Created1(v) => Pick(rd.whole(v), x)
    case Gone => None
    case Updated(of, ch) => if x in rd.change(ch) then Some(rd.change(ch)[x]) else Column(rd, of, x)
  }

  function RowColumn(rd: Reading, row: Option<Entry>, x: nat): Option<Payload> {
    if row.None? then None else Column(rd, Held(row.value), x)
  }

  // an operation settles column x: a put that writes it, any replace or remove
  predicate Settles(rd: Reading, op: Operation, x: nat) { op.DoPut? ==> x in rd.change(op.change) }

  ghost predicate Last(rd: Reading, ops: seq<(Operation, nat)>, x: nat, i: nat) {
    i < |ops| && Settles(rd, ops[i].0, x) && forall j :: i < j < |ops| ==> !Settles(rd, ops[j].0, x)
  }

  function Given(rd: Reading, op: Operation, x: nat): Option<Payload> {
    match op
    case DoPut(ch) => Pick(rd.change(ch), x)
    case DoReplace(v) => Pick(rd.whole(v), x)
    case DoRemove => None
  }

  predicate HasRow(ops: seq<(Operation, nat)>) { ops != [] && !ops[|ops| - 1].0.DoRemove? }

  // The log that the operations call for: a put on a key that has a row modifies the version of the operation before
  // it; removing an absent key logs nothing.
  function Records(ops: seq<(Operation, nat)>): seq<Record> {
    if ops == [] then []
    else
      var n := |ops| - 1;
      var before, ts := ops[..n], ops[n].1;
      Records(before) +
      match ops[n].0
      case DoPut(ch) => [if HasRow(before) then Modify(ts, before[n - 1].1, ch) else Put(ts, ch)]
      case DoReplace(v) => [Replace(ts, v)]
      case DoRemove => if HasRow(before) then [Remove(ts)] else []
  }

  lemma {:induction false} RunsSnoc(l: Live, ops: seq<(Operation, nat)>, t: Live) returns (u: Live)
    requires ops != [] && Runs(l, ops, t)
    ensures var n := |ops| - 1; Runs(l, ops[..n], u) && Newer(u, ops[n].1) && t == Perform(u, ops[n].0, ops[n].1)
    decreases |ops|
  {
    var n := |ops| - 1;
    if n == 0 {
      u := l;
      assert ops[1..] == [] && ops[..0] == [];
      assert Runs(Perform(l, ops[0].0, ops[0].1), ops[1..], t);
    } else {
      u := RunsSnoc(Perform(l, ops[0].0, ops[0].1), ops[1..], t);
      assert ops[..n][1..] == ops[1..][..n - 1] && ops[..n][0] == ops[0];
    }
  }

  // The log of any run is the one its operations call for, and the key has a row exactly when the last of them left
  // one.
  lemma {:induction false} LogIsRecords(ops: seq<(Operation, nat)>, t: Live)
    requires Runs(Live(None, []), ops, t)
    ensures t.log == Records(ops) && (t.row.Some? <==> HasRow(ops))
    ensures HasRow(ops) ==> t.row.value.Row? && t.row.value.ts == ops[|ops| - 1].1 > 0 && ops[|ops| - 1].1 % 2 == 0
    decreases |ops|
  {
    if ops != [] {
      var n := |ops| - 1;
      var u := RunsSnoc(Live(None, []), ops, t);
      LogIsRecords(ops[..n], u);
    }
  }

  // After any run a column holds what the last operation that settled it gave: the last put that wrote it, unless a
  // replace or a remove came later. A column that nothing settled is empty.
  lemma {:induction false} LastWriteWins(rd: Reading, ops: seq<(Operation, nat)>, t: Live, x: nat)
    requires Runs(Live(None, []), ops, t)
    ensures forall i: nat :: Last(rd, ops, x, i) ==> RowColumn(rd, t.row, x) == Given(rd, ops[i].0, x)
    ensures (forall i :: 0 <= i < |ops| ==> !Settles(rd, ops[i].0, x)) ==> RowColumn(rd, t.row, x) == None
    decreases |ops|
  {
    if ops != [] {
      var n := |ops| - 1;
      var u := RunsSnoc(Live(None, []), ops, t);
      LastWriteWins(rd, ops[..n], u, x);
      LogIsRecords(ops[..n], u);
      OneMoreColumn(rd, u, ops[n].0, ops[n].1, x);
      forall i: nat | Last(rd, ops, x, i) ensures RowColumn(rd, t.row, x) == Given(rd, ops[i].0, x) {
        if i < n { assert Last(rd, ops[..n], x, i); }
      }
    }
  }

  lemma OneMoreColumn(rd: Reading, u: Live, op: Operation, ts: nat, x: nat)
    requires u.row.Some? ==> u.row.value.Row? && u.row.value.ts % 2 == 0
    ensures RowColumn(rd, Perform(u, op, ts).row, x) ==
      if Settles(rd, op, x) then Given(rd, op, x) else RowColumn(rd, u.row, x)
  { }

  // The same of the row that replay makes of the log, in whatever order the records come.
  lemma ReplayedColumns(rd: Reading, ops: seq<(Operation, nat)>, t: Live, order: seq<nat>, x: nat, i: nat)
    requires Runs(Live(None, []), ops, t) && Permutation(order, |Records(ops)|) && HasRow(ops)
    requires Last(rd, ops, x, i)
    ensures |t.log| == |Records(ops)|
    ensures var c := Replay([], t.log, order); |c| == 1 && Column(rd, Held(c[0]), x) == Given(rd, ops[i].0, x)
  {
    LogIsRecords(ops, t);
    LogThenReplay(ops, t, order);
    LastWriteWins(rd, ops, t, x);
  }
}
