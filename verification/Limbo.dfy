// One thread's limbo list: groups of recorded entries, cleaned in place and recycled behind the tail.
module Limbo {
  import opened Options

  type Epoch = nat

  // Freeing an entry may run a callback that records further entries. wait is how far the global epoch moves on
  // before the entry is recorded: every load of globalepoch may return a later value than the one before.
  datatype Item = Item(id: nat, wait: nat, spawn: seq<Item>)

  datatype Elem = Mark(epoch: Epoch) | Held(item: Item)

  // live entries are e[head..tail); epoch is the last mark pushed
  datatype Group = Group(head: nat, tail: nat, epoch: Epoch, e: seq<Elem>)

  function Empty(cap: nat): Group { Group(0, 0, 0, seq(cap, _ => Mark(0))) }

  function Live(g: Group): seq<Elem> { if g.head <= g.tail <= |g.e| then g.e[g.head..g.tail] else [] }

  // ---------- the queue a stretch of elements stands for ----------
  function Flat(es: seq<Elem>, ep: Epoch): seq<(Item, Epoch)> {
    if es == [] then []
    else match es[0]
      case Mark(x) => Flat(es[1..], x)
      case Held(i) => [(i, ep)] + Flat(es[1..], ep)
  }

  function Last(es: seq<Elem>, ep: Epoch): Epoch {
    if es == [] then ep else Last(es[1..], if es[0].Mark? then es[0].epoch else ep)
  }

  lemma {:induction false} FlatAppend(a: seq<Elem>, b: seq<Elem>, ep: Epoch)
    ensures Flat(a + b, ep) == Flat(a, ep) + Flat(b, Last(a, ep)) && Last(a + b, ep) == Last(b, Last(a, ep))
  {
    if a == [] {
      assert a + b == b;
    } else {
      FlatAppend(a[1..], b, if a[0].Mark? then a[0].epoch else ep);
      assert (a + b)[1..] == a[1..] + b;
    }
  }

  // ---------- the specification: a plain queue ----------
  // each entry's epoch is read when it is recorded
  function Recordings(items: seq<Item>, ge: Epoch): (r: (seq<(Item, Epoch)>, Epoch))
    ensures r.1 >= ge
  {
    if items == [] then ([], ge)
    else
      var now := ge + items[0].wait;
      var r := Recordings(items[1..], now);
      ([(items[0], now)] + r.0, r.1)
  }

  datatype Drained = Drained(freed: seq<(Item, Epoch)>, queue: seq<(Item, Epoch)>, count: nat, ge: Epoch)

  // free entries from the front, at most count, none above the bound; callbacks record at the back
  function Drain(q: seq<(Item, Epoch)>, bound: int, count: nat, ge: Epoch): Drained
    decreases count
  {
    if count == 0 || q == [] || q[0].1 > bound then Drained([], q, count, ge)
    else
      var r := Recordings(q[0].0.spawn, ge);
      var d := Drain(q[1..] + r.0, bound, count - 1, r.1);
      d.(freed := [q[0]] + d.freed)
  }

  ghost predicate Ascending(q: seq<(Item, Epoch)>) { forall i, j :: 0 <= i < j < |q| ==> q[i].1 <= q[j].1 }

  lemma {:induction false} RecordingsAscend(items: seq<Item>, ge: Epoch)
    ensures var r := Recordings(items, ge); Ascending(r.0) && forall i :: 0 <= i < |r.0| ==> ge <= r.0[i].1 <= r.1
  { if items != [] { RecordingsAscend(items[1..], ge + items[0].wait); } }

  // No entry above the bound is freed, and a call that stops short of its count leaves no entry at or below it.
  lemma {:induction false} DrainBound(q: seq<(Item, Epoch)>, bound: int, count: nat, ge: Epoch)
    requires Ascending(q) && (forall i :: 0 <= i < |q| ==> q[i].1 <= ge) && bound < ge
    ensures var d := Drain(q, bound, count, ge);
      && |d.freed| + d.count == count && ge <= d.ge && Ascending(d.queue)
      && (forall i :: 0 <= i < |d.queue| ==> d.queue[i].1 <= d.ge)
      && (forall i :: 0 <= i < |d.freed| ==> d.freed[i].1 <= bound)
      && (d.count > 0 ==> forall i :: 0 <= i < |d.queue| ==> d.queue[i].1 > bound)
    decreases count
  {
    if !(count == 0 || q == [] || q[0].1 > bound) {
      var r := Recordings(q[0].0.spawn, ge);
      RecordingsAscend(q[0].0.spawn, ge);
      DrainBound(q[1..] + r.0, bound, count - 1, r.1);
    }
  }

  // what the callbacks of a drain record
  function Spawned(q: seq<(Item, Epoch)>, bound: int, count: nat, ge: Epoch): seq<(Item, Epoch)>
    decreases count
  {
    if count == 0 || q == [] || q[0].1 > bound then []
    else
      var r := Recordings(q[0].0.spawn, ge);
      r.0 + Spawned(q[1..] + r.0, bound, count - 1, r.1)
  }

  // Everything recorded, in the order it was recorded, is what was freed followed by what still waits.
  lemma {:induction false} DrainOrder(q: seq<(Item, Epoch)>, bound: int, count: nat, ge: Epoch)
    ensures var d := Drain(q, bound, count, ge); q + Spawned(q, bound, count, ge) == d.freed + d.queue
    decreases count
  {
    if count == 0 || q == [] || q[0].1 > bound {
    } else {
      var r := Recordings(q[0].0.spawn, ge);
      var rest := q[1..] + r.0;
      DrainOrder(rest, bound, count - 1, r.1);
      var more, d := Spawned(rest, bound, count - 1, r.1), Drain(rest, bound, count - 1, r.1);
      assert q == [q[0]] + q[1..];
      assert q + (r.0 + more) == [q[0]] + (rest + more);
      assert [q[0]] + (d.freed + d.queue) == [q[0]] + d.freed + d.queue;
    }
  }

  // ---------- runs of the plain queue ----------
  const RCU_FREE_COUNT: nat := 128

  // now is globalepoch, as it stands when active_epoch is loaded for the second time; seen is the first load
  datatype Call = Record(item: Item) | Quiesce(now: Epoch, seen: Epoch, active: Epoch)

  datatype Plain = Plain(queue: seq<(Item, Epoch)>, freed: seq<(Item, Epoch)>, recorded: seq<(Item, Epoch)>, ge: Epoch,
    perform: int)

  // the global epoch only grows, and active_epoch never passes it
  predicate Allowed(p: Plain, c: Call) { c.Quiesce? ==> p.ge <= c.now && c.active <= c.now }

  function Perform(p: Plain, c: Call): Plain {
    match c
    case Record(item) =>
      var now := p.ge + item.wait;
      p.(queue := p.queue + [(item, now)], recorded := p.recorded + [(item, now)], ge := now)
    case Quiesce(now, seen, active) =>
      if p.perform == seen then p.(ge := now)
      else
        var d := Drain(p.queue, active - 1, RCU_FREE_COUNT, now);
        Plain(d.queue, p.freed + d.freed, p.recorded + Spawned(p.queue, active - 1, RCU_FREE_COUNT, now), d.ge,
              if d.count == 0 then active - 1 else active)
  }

  ghost predicate InStep(p: Plain) {
    p.recorded == p.freed + p.queue && Ascending(p.queue) && forall i :: 0 <= i < |p.queue| ==> p.queue[i].1 <= p.ge
  }

  lemma PerformInStep(p: Plain, c: Call)
    requires InStep(p) && Allowed(p, c)
    ensures var q := Perform(p, c); InStep(q) && p.freed <= q.freed && p.recorded <= q.recorded && p.ge <= q.ge
  {
    match c
    case Record(item) =>
      assert p.recorded + [(item, p.ge + item.wait)] == p.freed + (p.queue + [(item, p.ge + item.wait)]);
    case Quiesce(now, seen, active) =>
      if p.perform != seen {
        DrainBound(p.queue, active - 1, RCU_FREE_COUNT, now);
        DrainOrder(p.queue, active - 1, RCU_FREE_COUNT, now);
        hide Drain; hide Spawned; hide Ascending;
        Conserved(p.freed, p.queue, Spawned(p.queue, active - 1, RCU_FREE_COUNT, now),
          Drain(p.queue, active - 1, RCU_FREE_COUNT, now));
      }
  }

  ghost predicate Calls(p: Plain, cs: seq<Call>)
    decreases |cs|
  { cs == [] || (Allowed(p, cs[0]) && Calls(Perform(p, cs[0]), cs[1..])) }

  ghost function After(p: Plain, cs: seq<Call>): Plain
    decreases |cs|
  { if cs == [] then p else After(Perform(p, cs[0]), cs[1..]) }

  // Over any run of records and quiesces, whatever the epochs do: entries are freed in the order they were recorded,
  // each recording at most once, and what has been freed or recorded stays so.
  lemma {:induction false} FirstInFirstOut(p: Plain, cs: seq<Call>)
    requires InStep(p) && Calls(p, cs)
    ensures var q := After(p, cs);
      && InStep(q) && q.freed <= q.recorded && p.freed <= q.freed && p.recorded <= q.recorded && p.ge <= q.ge
    decreases |cs|
  {
    if cs != [] {
      PerformInStep(p, cs[0]);
      FirstInFirstOut(Perform(p, cs[0]), cs[1..]);
    }
  }

  // Each call of a run frees at most 128 entries, none recorded at or after the active epoch, and leaves no earlier
  // one if it stops short of 128. A call that sees the epoch of the last complete pass does nothing.
  lemma EachQuiesce(p: Plain, cs: seq<Call>, c: Call)
    requires InStep(p) && Calls(p, cs) && c.Quiesce? && Allowed(After(p, cs), c)
    ensures var q := After(p, cs); var r := Perform(q, c);
      && |q.freed| <= |r.freed| <= |q.freed| + RCU_FREE_COUNT
      && (forall i :: |q.freed| <= i < |r.freed| ==> r.freed[i].1 < c.active)
      && (q.perform == c.seen ==> r == q.(ge := c.now))
      && (q.perform != c.seen && |r.freed| < |q.freed| + RCU_FREE_COUNT ==>
            r.perform == c.active && forall i :: 0 <= i < |r.queue| ==> r.queue[i].1 >= c.active)
      && (q.perform != c.seen && |r.freed| == |q.freed| + RCU_FREE_COUNT ==> r.perform == c.active - 1)
  {
    FirstInFirstOut(p, cs);
    hide After; hide Calls; hide Perform; hide Ascending; hide InStep;
    OneQuiesce(After(p, cs), c);
  }

  lemma OneQuiesce(q: Plain, c: Call)
    requires InStep(q) && c.Quiesce? && Allowed(q, c)
    ensures var r := Perform(q, c);
      && |q.freed| <= |r.freed| <= |q.freed| + RCU_FREE_COUNT
      && (forall i :: |q.freed| <= i < |r.freed| ==> r.freed[i].1 < c.active)
      && (q.perform == c.seen ==> r == q.(ge := c.now))
      && (q.perform != c.seen && |r.freed| < |q.freed| + RCU_FREE_COUNT ==>
            r.perform == c.active && forall i :: 0 <= i < |r.queue| ==> r.queue[i].1 >= c.active)
      && (q.perform != c.seen && |r.freed| == |q.freed| + RCU_FREE_COUNT ==> r.perform == c.active - 1)
  {
    DrainBound(q.queue, c.active - 1, RCU_FREE_COUNT, c.now);
    var d := Drain(q.queue, c.active - 1, RCU_FREE_COUNT, c.now);
    var r := Perform(q, c);
    assert q.perform != c.seen ==>
      && r.freed == q.freed + d.freed && r.queue == d.queue
      && r.perform == if d.count == 0 then c.active - 1 else c.active;
    hide Drain; hide Spawned; hide Ascending; hide InStep; hide Allowed; hide Perform;
    MoreFreed(q.freed, d.freed, c.active);
  }

  lemma MoreFreed(a: seq<(Item, Epoch)>, b: seq<(Item, Epoch)>, active: int)
    requires forall i :: 0 <= i < |b| ==> b[i].1 < active
    ensures forall i :: |a| <= i < |a + b| ==> (a + b)[i].1 < active
  { }

  // Quiesces one after the other while the active epoch stays where it is: each goes on where the one before had to
  // stop, 128 entries at a time, until nothing recorded before the active epoch is left; after that they do nothing.
  lemma {:induction false} GoesOn(q: Plain, cs: seq<Call>, active: Epoch)
    requires InStep(q) && Calls(q, cs) && q.perform != active
    requires forall i :: 0 <= i < |cs| ==> cs[i].Quiesce? && cs[i].seen == active == cs[i].active
    ensures var r := After(q, cs);
      || (r.perform != active && |r.freed| == |q.freed| + RCU_FREE_COUNT * |cs|)
      || (r.perform == active && forall i :: 0 <= i < |r.queue| ==> r.queue[i].1 >= active)
    decreases |cs|
  {
    if cs != [] {
      var p := Perform(q, cs[0]);
      OneQuiesce(q, cs[0]);
      PerformInStep(q, cs[0]);
      if p.perform == active { Rests(p, cs[1..], active); } else { GoesOn(p, cs[1..], active); }
    }
  }

  lemma {:induction false} Rests(q: Plain, cs: seq<Call>, active: Epoch)
    requires Calls(q, cs) && q.perform == active
    requires forall i :: 0 <= i < |cs| ==> cs[i].Quiesce? && cs[i].seen == active
    ensures var r := After(q, cs); r.queue == q.queue && r.freed == q.freed && r.perform == active
    decreases |cs|
  { if cs != [] { Rests(Perform(q, cs[0]), cs[1..], active); } }

  // ---------- the chain of groups ----------
  ghost predicate Sized(gs: seq<Group>) { forall j :: 0 <= j < |gs| ==> gs[j].head <= gs[j].tail <= |gs[j].e| }

  ghost function Chain(gs: seq<Group>, i: nat, n: nat): seq<Elem>
    decreases n - i
  { if i >= n || i >= |gs| then [] else Live(gs[i]) + Chain(gs, i + 1, n) }

  // marks never fall
  ghost predicate Rising(es: seq<Elem>, lo: Epoch) {
    es == [] || (if es[0].Mark? then lo <= es[0].epoch && Rising(es[1..], es[0].epoch) else Rising(es[1..], lo))
  }

  lemma {:induction false} RisingAscends(es: seq<Elem>, lo: Epoch)
    requires Rising(es, lo)
    ensures var q := Flat(es, lo);
      lo <= Last(es, lo) && Ascending(q) && forall i :: 0 <= i < |q| ==> lo <= q[i].1 <= Last(es, lo)
  { if es != [] { RisingAscends(es[1..], if es[0].Mark? then es[0].epoch else lo); } }

  lemma {:induction false} RisingAppend(a: seq<Elem>, b: seq<Elem>, lo: Epoch)
    ensures Rising(a + b, lo) <==> Rising(a, lo) && Rising(b, Last(a, lo))
  {
    if a == [] { assert a + b == b; }
    else {
      RisingAppend(a[1..], b, if a[0].Mark? then a[0].epoch else lo);
      assert (a + b)[1..] == a[1..] + b;
    }
  }

  lemma {:induction false} ChainSame(gs: seq<Group>, hs: seq<Group>, i: nat, n: nat)
    requires n <= |gs| && n <= |hs| && forall j :: i <= j < n ==> Live(gs[j]) == Live(hs[j])
    ensures Chain(gs, i, n) == Chain(hs, i, n)
    decreases n - i
  {
    hide Live;
    if i < n {
      assert Live(gs[i]) == Live(hs[i]);
      ChainSame(gs, hs, i + 1, n);
    }
  }

  lemma {:induction false} ChainLast(gs: seq<Group>, i: nat, n: nat)
    requires i <= n < |gs|
    ensures Chain(gs, i, n + 1) == Chain(gs, i, n) + Live(gs[n])
    decreases n - i
  {
    hide Live;
    if i < n {
      ChainLast(gs, i + 1, n);
      JoinElems(Live(gs[i]), Chain(gs, i + 1, n), Live(gs[n]));
    }
  }

  lemma {:induction false} ChainShift(gs: seq<Group>, hs: seq<Group>, i: nat, n: nat, k: nat)
    requires n + k <= |gs| && n <= |hs| && forall j {:trigger hs[j]} :: i <= j < n ==> hs[j] == gs[j + k]
    ensures Chain(hs, i, n) == Chain(gs, i + k, n + k)
    decreases n - i
  { if i < n { ChainShift(gs, hs, i + 1, n, k); } }

  // limbo_group::push_back
  function PushBack(g: Group, item: Item, now: Epoch): Group
    requires g.tail + 2 <= |g.e|
  {
    if g.head == g.tail || g.epoch != now
    then Group(g.head, g.tail + 2, now, g.e[g.tail := Mark(now)][g.tail + 1 := Held(item)])
    else Group(g.head, g.tail + 1, g.epoch, g.e[g.tail := Held(item)])
  }

  function Added(g: Group, item: Item, now: Epoch): seq<Elem> {
    if g.head == g.tail || g.epoch != now then [Mark(now), Held(item)] else [Held(item)]
  }

  lemma PushLive(g: Group, item: Item, now: Epoch)
    requires g.head <= g.tail && g.tail + 2 <= |g.e|
    ensures var p := PushBack(g, item, now);
      && p.head == g.head && p.head < p.tail <= |p.e| == |g.e| && Live(p) == Live(g) + Added(g, item, now)
      && (forall j :: g.head <= j < g.tail ==> p.e[j] == g.e[j])
      && (g.head == g.tail ==> p.e[p.head].Mark?)
  { }

  lemma HeldOnly(item: Item, ep: Epoch)
    ensures var a := [Held(item)]; Flat(a, ep) == [(item, ep)] && Rising(a, ep) && Last(a, ep) == ep
  { assert [Held(item)][1..] == []; }

  // what is added extends the queue by one entry and keeps the marks rising
  lemma AddedFacts(es: seq<Elem>, g: Group, item: Item, now: Epoch, ep: Epoch)
    requires Rising(es, ep) && Last(es, ep) <= now && (g.head < g.tail ==> g.epoch == Last(es, ep)) && g.head <= g.tail
    ensures var t := es + Added(g, item, now);
      Flat(t, ep) == Flat(es, ep) + [(item, now)] && Rising(t, ep) && Last(t, ep) == now
  {
    var a := Added(g, item, now);
    FlatAppend(es, a, ep);
    RisingAppend(es, a, ep);
    HeldOnly(item, now);
    if |a| == 2 { assert a[0] == Mark(now) && a[1..] == [Held(item)]; }
  }

  lemma {:induction false} LastStart(a: seq<Elem>, x: Epoch, y: Epoch)
    requires a != [] && a[0].Mark?
    ensures Last(a, x) == Last(a, y)
  { }

  // entries waiting in the head group stay where they are
  ghost predicate FrontKept(gs: seq<Group>, hs: seq<Group>, head: nat) {
    && head < |gs| && head < |hs| && hs[head].head == gs[head].head && hs[head].tail >= gs[head].tail
    && |hs[head].e| >= gs[head].tail && |gs[head].e| >= gs[head].tail
    && forall j :: gs[head].head <= j < gs[head].tail ==> hs[head].e[j] == gs[head].e[j]
  }

  // how the chain grew, whether or not the tail group was full
  lemma Pushed(gs0: seq<Group>, gs: seq<Group>, head: nat, t0: nat, tail: nat, g: Group, item: Item, now: Epoch,
    ep: Epoch)
    requires Sized(gs0) && Sized(gs) && t0 < |gs0| <= |gs| && head <= t0 <= tail <= t0 + 1 && tail < |gs|
    requires g.head <= g.tail && g.tail + 2 <= |g.e| && gs[tail] == PushBack(g, item, now)
    requires forall j :: 0 <= j < |gs0| && j != tail ==> gs[j] == gs0[j]
    requires if tail == t0 then g == gs0[t0] else g.head == g.tail
    requires Rising(Chain(gs0, head, t0 + 1), ep) && Last(Chain(gs0, head, t0 + 1), ep) <= now
    requires if gs0[t0].head < gs0[t0].tail
      then gs0[t0].epoch == Last(Live(gs0[t0]), ep) && (t0 > head ==> gs0[t0].e[gs0[t0].head].Mark?)
      else t0 == head
    ensures var es := Chain(gs, head, tail + 1);
      && Flat(es, ep) == Flat(Chain(gs0, head, t0 + 1), ep) + [(item, now)]
      && Rising(es, ep) && Last(es, ep) == now && gs[tail].epoch == Last(Live(gs[tail]), ep)
  {
    hide Flat; hide Rising; hide Chain; hide Last;
    var es := Chain(gs0, head, t0 + 1);
    PushLive(g, item, now);
    ChainLast(gs0, head, t0);
    ChainLast(gs, head, tail);
    ChainSame(gs0, gs, head, t0);
    FlatAppend(Chain(gs0, head, t0), Live(gs0[t0]), ep);
    LastOfChain(gs0, head, t0, ep);
    if tail != t0 {
      ChainLast(gs, head, t0);
      assert Live(g) == [];
    }
    assert Chain(gs, head, tail + 1) == es + Added(g, item, now);
    AddedFacts(es, g, item, now, ep);
    FlatAppend(Live(g), Added(g, item, now), ep);
    LastAdded(g, item, now, Last(Live(g), ep));
  }

  lemma LastAdded(g: Group, item: Item, now: Epoch, e: Epoch)
    requires g.head <= g.tail && (g.head < g.tail ==> g.epoch == e)
    ensures Last(Added(g, item, now), e) == now
  {
    var a := Added(g, item, now);
    HeldOnly(item, now);
    HeldOnly(item, e);
    if |a| == 2 { assert a[0] == Mark(now) && a[1..] == [Held(item)]; }
  }

  lemma LastOfChain(gs: seq<Group>, head: nat, t: nat, ep: Epoch)
    requires Sized(gs) && head <= t < |gs|
    requires if gs[t].head < gs[t].tail then t > head ==> gs[t].e[gs[t].head].Mark? else t == head
    ensures Last(Chain(gs, head, t + 1), ep) == Last(Live(gs[t]), ep)
  {
    ChainLast(gs, head, t);
    FlatAppend(Chain(gs, head, t), Live(gs[t]), ep);
    if t > head { LastStart(Live(gs[t]), Last(Chain(gs, head, t), ep), ep); }
  }

  ghost predicate Starts(g: Group) { g.head < g.tail <= |g.e| && g.e[g.head].Mark? }

  ghost predicate Shaped(cap: nat, gs: seq<Group>, head: nat, tail: nat) {
    && cap >= 2 && head <= tail < |gs|
    && (forall j :: 0 <= j < |gs| ==> gs[j].head <= gs[j].tail <= cap && |gs[j].e| == cap)
    && (forall j :: 0 <= j < head || tail < j < |gs| ==> gs[j].head == 0 && gs[j].tail == 0)
    && (forall j :: head < j <= tail ==> Starts(gs[j]))
  }

  ghost predicate Current(gs: seq<Group>, head: nat, tail: nat, ge: Epoch, ep: Epoch)
    requires tail < |gs|
  {
    && Rising(Chain(gs, head, tail + 1), ep) && Last(Chain(gs, head, tail + 1), ep) <= ge
    && (var g := gs[tail]; g.head < g.tail ==> g.epoch == Last(Live(g), ep))
  }

  lemma PushShape(cap: nat, gs0: seq<Group>, gs1: seq<Group>, head: nat, t0: nat, tail: nat, item: Item, now: Epoch)
    requires Shaped(cap, gs0, head, t0) && Sized(gs1) && tail < |gs1| && |gs0| <= |gs1|
      && (tail == t0 || tail == t0 + 1)
    requires tail == t0 ==> gs1 == gs0 && gs0[t0].tail + 2 <= cap
    requires tail == t0 + 1 ==> gs0[t0].head < gs0[t0].tail && gs1[tail].head == gs1[tail].tail == 0
    requires forall j :: 0 <= j < |gs0| ==> gs1[j] == gs0[j]
    requires forall j :: |gs0| <= j < |gs1| ==> gs1[j].head == 0 && gs1[j].tail == 0 && |gs1[j].e| == cap
    ensures |gs1[tail].e| == cap && gs1[tail].tail + 2 <= cap
    ensures var gs := gs1[tail := PushBack(gs1[tail], item, now)];
      && Shaped(cap, gs, head, tail) && FrontKept(gs0, gs, head) && gs[tail].head < gs[tail].tail
      && (gs0[head].head == gs0[head].tail && head == t0 ==> tail == head && Starts(gs[head]))
  {
    PushLive(gs1[tail], item, now);
    hide PushBack;
    var gs := gs1[tail := PushBack(gs1[tail], item, now)];
    assert forall j :: 0 <= j < |gs| && j != tail ==> gs[j] == gs1[j];
  }

  lemma PushedAll(cap: nat, gs0: seq<Group>, gs1: seq<Group>, head: nat, t0: nat, tail: nat, item: Item, now: Epoch,
    ep: Epoch)
    requires Shaped(cap, gs0, head, t0) && tail < |gs1| && |gs0| <= |gs1| && (tail == t0 || tail == t0 + 1)
      && gs1[tail].tail + 2 <= |gs1[tail].e|
    requires tail == t0 ==> gs1 == gs0
    requires tail == t0 + 1 ==> gs1[tail].head == gs1[tail].tail && gs0[t0].head < gs0[t0].tail
    requires forall j :: 0 <= j < |gs0| ==> gs1[j] == gs0[j]
    requires Current(gs0, head, t0, now, ep)
    requires Shaped(cap, gs1[tail := PushBack(gs1[tail], item, now)], head, tail)
    ensures var gs := gs1[tail := PushBack(gs1[tail], item, now)];
      Current(gs, head, tail, now, ep)
        && Flat(Chain(gs, head, tail + 1), ep) == Flat(Chain(gs0, head, t0 + 1), ep) + [(item, now)]
  {
    hide Flat; hide Rising; hide Last; hide Chain; hide PushBack;
    var gs := gs1[tail := PushBack(gs1[tail], item, now)];
    Pushed(gs0, gs, head, t0, tail, gs1[tail], item, now, ep);
    PushLive(gs1[tail], item, now);
  }

  lemma {:induction false} RecordingsStep(items: seq<Item>, ge: Epoch, i: nat, done: seq<(Item, Epoch)>, now: Epoch)
    requires i < |items|
      && Recordings(items, ge) == (done + Recordings(items[i..], now).0, Recordings(items[i..], now).1)
    ensures var n := now + items[i].wait;
      Recordings(items, ge) == (done + [(items[i], n)] + Recordings(items[i+1..], n).0, Recordings(items[i+1..], n).1)
  {
    assert items[i..][1..] == items[i+1..];
    var n := now + items[i].wait;
    assert done + ([(items[i], n)] + Recordings(items[i+1..], n).0) ==
      done + [(items[i], n)] + Recordings(items[i+1..], n).0;
  }

  lemma FrontRefl(cap: nat, a: seq<Group>, head: nat, tail: nat)
    requires Shaped(cap, a, head, tail)
    ensures FrontKept(a, a, head)
  { }

  lemma FrontTrans(a: seq<Group>, b: seq<Group>, c: seq<Group>, head: nat)
    requires FrontKept(a, b, head) && FrontKept(b, c, head)
    ensures FrontKept(a, c, head)
  { }

  // d is what the call will have done in the end: done so far is f, and the rest is Drain of what waits now
  ghost predicate OnTrack(d: Drained, f: seq<(Item, Epoch)>, q: seq<(Item, Epoch)>, bound: int, count: nat, ge: Epoch) {
    var r := Drain(q, bound, count, ge);
    d.freed == f + r.freed && d.queue == r.queue && d.count == r.count && d.ge == r.ge
  }

  lemma TrackStep(d: Drained, f: seq<(Item, Epoch)>, q: seq<(Item, Epoch)>, bound: int, count: nat, ge: Epoch)
    requires OnTrack(d, f, q, bound, count, ge) && count > 0 && q != [] && q[0].1 <= bound
    ensures var r := Recordings(q[0].0.spawn, ge); OnTrack(d, f + [q[0]], (q + r.0)[1..], bound, count - 1, r.1)
  {
    var r := Recordings(q[0].0.spawn, ge);
    assert (q + r.0)[1..] == q[1..] + r.0;
  }

  lemma JoinElems(a: seq<Elem>, b: seq<Elem>, c: seq<Elem>)
    ensures a + b + c == a + (b + c)
  { }

  // the head group without its first element
  lemma DropFirst(gs: seq<Group>, head: nat, tail: nat)
    requires Sized(gs) && head <= tail < |gs| && gs[head].head < gs[head].tail
    ensures var hs := gs[head := gs[head].(head := gs[head].head + 1)];
      && Sized(hs) && Chain(gs, head, tail + 1) == [gs[head].e[gs[head].head]] + Chain(hs, head, tail + 1)
      && Live(gs[head]) == [gs[head].e[gs[head].head]] + Live(hs[head])
  {
    hide Chain;
    var g := gs[head];
    var g' := g.(head := g.head + 1);
    assert g.head < g.tail <= |g.e|;
    assert Live(g) == [g.e[g.head]] + Live(g');
    hide Live;
    ChainHead(gs, head, tail, g');
    JoinElems([g.e[g.head]], Live(g'), Chain(gs, head + 1, tail + 1));
  }

  lemma ChainFirst(gs: seq<Group>, i: nat, n: nat)
    requires i < n <= |gs|
    ensures Chain(gs, i, n) == Live(gs[i]) + Chain(gs, i + 1, n)
  { }

  lemma TailSame(gs: seq<Group>, hs: seq<Group>, head: nat, tail: nat)
    requires head <= tail < |gs| && |hs| == |gs| && hs == gs[head := hs[head]]
    ensures Chain(gs, head + 1, tail + 1) == Chain(hs, head + 1, tail + 1)
  { ChainSame(gs, hs, head + 1, tail + 1); }

  lemma LiveSwap(g: Group, x: Elem)
    requires g.head < g.tail <= |g.e|
    ensures Live(g.(e := g.e[g.head := x])) == [x] + Live(g)[1..]
  { }

  lemma TailOf(a: seq<Elem>, b: seq<Elem>, x: Elem)
    requires a != []
    ensures ([x] + a[1..]) + b == [x] + (a + b)[1..]
  { }

  // the head group is g now: the chain differs in its first part only
  lemma ChainHead(gs: seq<Group>, head: nat, tail: nat, g: Group)
    requires head <= tail < |gs|
    ensures Chain(gs, head, tail + 1) == Live(gs[head]) + Chain(gs, head + 1, tail + 1)
    ensures Chain(gs[head := g], head, tail + 1) == Live(g) + Chain(gs, head + 1, tail + 1)
  {
    var hs := gs[head := g];
    ChainFirst(gs, head, tail + 1);
    ChainFirst(hs, head, tail + 1);
    TailSame(gs, hs, head, tail);
  }

  lemma SwapFirst(gs: seq<Group>, head: nat, tail: nat, x: Elem)
    requires Sized(gs) && head <= tail < |gs| && gs[head].head < gs[head].tail
    ensures var g := gs[head];
      var hs := gs[head := g.(e := g.e[g.head := x])];
      && Sized(hs) && Chain(hs, head, tail + 1) == [x] + Chain(gs, head, tail + 1)[1..]
      && Live(hs[head]) == [x] + Live(g)[1..]
  {
    var g := gs[head];
    var g' := g.(e := g.e[g.head := x]);
    LiveSwap(g, x);
    LiveLength(g);
    ChainHead(gs, head, tail, g');
    hide Live; hide Chain;
    TailOf(Live(g), Chain(gs, head + 1, tail + 1), x);
  }

  lemma LiveLength(g: Group)
    requires g.head < g.tail <= |g.e|
    ensures |Live(g)| == g.tail - g.head && Live(g)[0] == g.e[g.head]
  { }

  lemma FlatCons(x: Elem, es: seq<Elem>, ep: Epoch)
    ensures ([x] + es)[1..] == es
    ensures var a := [x] + es;
      && Flat(a, ep) == (if x.Mark? then Flat(es, x.epoch) else [(x.item, ep)] + Flat(es, ep))
      && Last(a, ep) == Last(es, if x.Mark? then x.epoch else ep)
      && (Rising(a, ep) <==> (if x.Mark? then ep <= x.epoch && Rising(es, x.epoch) else Rising(es, ep)))
  { assert ([x] + es)[1..] == es; }

  // the limbo list while its head group is being cleaned
  ghost predicate Cleaning(cap: nat, gs: seq<Group>, head: nat, tail: nat, ge: Epoch, ep: Epoch) {
    Shaped(cap, gs, head, tail) && Current(gs, head, tail, ge, ep)
  }

  ghost function Wait(gs: seq<Group>, head: nat, tail: nat, ep: Epoch): seq<(Item, Epoch)>
  { Flat(Chain(gs, head, tail + 1), ep) }

  lemma HeadShape(cap: nat, gs: seq<Group>, head: nat, tail: nat, g: Group)
    requires Shaped(cap, gs, head, tail) && g.head <= g.tail <= cap && |g.e| == cap
    ensures Shaped(cap, gs[head := g], head, tail)
  { }

  // the head group is g now, and the chain is es: what has to be checked
  lemma HeadCurrent(gs: seq<Group>, head: nat, tail: nat, ge: Epoch, ep: Epoch, g: Group, ep': Epoch)
    requires Sized(gs) && head <= tail < |gs| && g.head <= g.tail <= |g.e| && Current(gs, head, tail, ge, ep)
      && g.epoch == gs[head].epoch
    requires var hs := gs[head := g];
      Rising(Chain(hs, head, tail + 1), ep') && Last(Chain(hs, head, tail + 1), ep') <= ge
    requires if tail == head
      then g.head < g.tail ==> gs[head].head < gs[head].tail && Last(Live(g), ep') == Last(Live(gs[head]), ep)
      else gs[tail].head < gs[tail].tail <= |gs[tail].e| && gs[tail].e[gs[tail].head].Mark?
    ensures Current(gs[head := g], head, tail, ge, ep')
  {
    if tail != head {
      LiveLength(gs[tail]);
      LastStart(Live(gs[tail]), ep, ep');
    }
  }

  // ++head_ over an entry that was freed, or over a mark
  lemma StepHead(cap: nat, gs: seq<Group>, head: nat, tail: nat, ge: Epoch, ep: Epoch)
    requires Cleaning(cap, gs, head, tail, ge, ep) && gs[head].head < gs[head].tail
    ensures var x := gs[head].e[gs[head].head];
      var hs := gs[head := gs[head].(head := gs[head].head + 1)];
      var ep' := if x.Mark? then x.epoch else ep;
      && Cleaning(cap, hs, head, tail, ge, ep') && ep <= ep'
      && Wait(gs, head, tail, ep) == (if x.Mark? then [] else [(x.item, ep)]) + Wait(hs, head, tail, ep')
  {
    var g := gs[head].(head := gs[head].head + 1);
    var x := gs[head].e[gs[head].head];
    var hs := gs[head := g];
    DropFirst(gs, head, tail);
    FlatCons(x, Chain(hs, head, tail + 1), ep);
    FlatCons(x, Live(hs[head]), ep);
    HeadShape(cap, gs, head, tail, g);
    hide Chain; hide Flat; hide Last; hide Rising; hide Live;
    HeadCurrent(gs, head, tail, ge, ep, g, if x.Mark? then x.epoch else ep);
  }

  // the entry that was freed last becomes a mark, so that the next call can go on from it
  lemma StepMark(cap: nat, gs: seq<Group>, head: nat, tail: nat, ge: Epoch, ep: Epoch)
    requires Cleaning(cap, gs, head, tail, ge, ep) && gs[head].head < gs[head].tail && gs[head].e[gs[head].head].Held?
    ensures var g := gs[head];
      var hs := gs[head := g.(e := g.e[g.head := Mark(ep)])];
      && Cleaning(cap, hs, head, tail, ge, 0) && Starts(hs[head]) && hs[tail].head < hs[tail].tail
      && Wait(gs, head, tail, ep) == [(g.e[g.head].item, ep)] + Wait(hs, head, tail, 0)
  {
    var g := gs[head];
    var g' := g.(e := g.e[g.head := Mark(ep)]);
    var es := Chain(gs, head, tail + 1);
    DropFirst(gs, head, tail);
    SwapFirst(gs, head, tail, Mark(ep));
    var rest, front := es[1..], Live(g)[1..];
    FlatCons(g.e[g.head], rest, ep);
    FlatCons(Mark(ep), rest, 0);
    FlatCons(g.e[g.head], front, ep);
    FlatCons(Mark(ep), front, 0);
    assert es == [g.e[g.head]] + rest && Live(g) == [g.e[g.head]] + front;
    HeadShape(cap, gs, head, tail, g');
    hide Chain; hide Flat; hide Last; hide Rising; hide Live;
    HeadCurrent(gs, head, tail, ge, ep, g', 0);
  }

  // a list that starts with a mark does not depend on the epoch before
  lemma Restart(cap: nat, gs: seq<Group>, head: nat, tail: nat, ge: Epoch, ep: Epoch)
    requires Cleaning(cap, gs, head, tail, ge, ep) && (Starts(gs[head]) || gs[head].head == gs[head].tail)
    ensures Cleaning(cap, gs, head, tail, ge, 0) && Wait(gs, head, tail, 0) == Wait(gs, head, tail, ep)
  {
    var es := Chain(gs, head, tail + 1);
    ChainStarts(gs, head, tail);
    hide Chain;
    if es != [] {
      assert es == [es[0]] + es[1..];
      FlatCons(es[0], es[1..], ep);
      FlatCons(es[0], es[1..], 0);
    }
    if gs[tail].head < gs[tail].tail {
      LiveLength(gs[tail]);
      hide Live; hide Flat; hide Rising;
      LastStart(Live(gs[tail]), 0, ep);
    }
  }

  // an emptied head group starts over at slot 0
  lemma EmptyHead(cap: nat, gs: seq<Group>, head: nat, tail: nat, ge: Epoch, ep: Epoch)
    requires Cleaning(cap, gs, head, tail, ge, ep) && gs[head].head == gs[head].tail
    ensures var hs := gs[head := gs[head].(head := 0, tail := 0)];
      Cleaning(cap, hs, head, tail, ge, 0) && Wait(hs, head, tail, 0) == Wait(gs, head, tail, ep)
  {
    var g := gs[head].(head := 0, tail := 0);
    Restart(cap, gs, head, tail, ge, ep);
    HeadShape(cap, gs, head, tail, g);
    assert Live(gs[head]) == [] && Live(g) == [];
    ChainHead(gs, head, tail, g);
    hide Chain; hide Flat; hide Last; hide Rising; hide Live;
    HeadCurrent(gs, head, tail, ge, 0, g, 0);
  }

  lemma ChainStarts(gs: seq<Group>, head: nat, tail: nat)
    requires Sized(gs) && head <= tail < |gs| && (Starts(gs[head]) || gs[head].head == gs[head].tail)
    requires forall j :: head < j <= tail ==> Starts(gs[j])
    ensures var es := Chain(gs, head, tail + 1); es != [] ==> es[0].Mark?
  {
    ChainFirst(gs, head, tail + 1);
    if head < tail { ChainFirst(gs, head + 1, tail + 1); }
  }

  // nothing at or below the bound is left when the mark in front is above it
  lemma Beyond(cap: nat, gs: seq<Group>, head: nat, tail: nat, ge: Epoch, ep: Epoch, bound: int)
    requires Cleaning(cap, gs, head, tail, ge, ep) && gs[head].head < gs[head].tail
    requires gs[head].e[gs[head].head].Mark? && gs[head].e[gs[head].head].epoch > bound
    ensures var q := Wait(gs, head, tail, ep); q == [] || q[0].1 > bound
  {
    StepHead(cap, gs, head, tail, ge, ep);
    var hs := gs[head := gs[head].(head := gs[head].head + 1)];
    RisingAscends(Chain(hs, head, tail + 1), gs[head].e[gs[head].head].epoch);
  }

  lemma TailFull(cap: nat, gs: seq<Group>, head: nat, tail: nat)
    requires Shaped(cap, gs, head, tail) && gs[head].head < gs[head].tail
    ensures gs[tail].head < gs[tail].tail
  { }

  // emptied groups are hooked in behind the tail
  function Rotate(gs: seq<Group>, head: nat, tail: nat): seq<Group>
    requires head <= tail < |gs|
  { gs[head..tail+1] + gs[..head] + gs[tail+1..] }

  lemma RotateAt(gs: seq<Group>, head: nat, tail: nat, j: nat)
    requires head <= tail < |gs| && j < |gs|
    ensures |Rotate(gs, head, tail)| == |gs|
    ensures Rotate(gs, head, tail)[j] == if j <= tail - head then gs[j + head]
      else if j <= tail then gs[j - (tail - head) - 1] else gs[j]
  { }

  lemma RotateShape(cap: nat, gs: seq<Group>, head: nat, tail: nat)
    requires Shaped(cap, gs, head, tail)
    ensures Shaped(cap, Rotate(gs, head, tail), 0, tail - head)
  {
    var hs := Rotate(gs, head, tail);
    hide Rotate;
    RotateAt(gs, head, tail, 0);
    forall j: nat | j < |hs| ensures hs[j].head <= hs[j].tail <= cap && |hs[j].e| == cap
    { RotateAt(gs, head, tail, j); }
    forall j: nat | tail - head < j < |hs| ensures hs[j].head == 0 && hs[j].tail == 0 { RotateAt(gs, head, tail, j); }
    forall j | 0 < j <= tail - head ensures Starts(hs[j]) { RotateAt(gs, head, tail, j); }
  }

  lemma RotateOk(cap: nat, gs: seq<Group>, head: nat, tail: nat, ge: Epoch)
    requires Cleaning(cap, gs, head, tail, ge, 0)
    ensures var hs := Rotate(gs, head, tail);
      && Cleaning(cap, hs, 0, tail - head, ge, 0) && Wait(hs, 0, tail - head, 0) == Wait(gs, head, tail, 0)
      && hs[0] == gs[head] && hs[tail - head] == gs[tail]
  {
    var hs := Rotate(gs, head, tail);
    RotateShape(cap, gs, head, tail);
    RotateChain(gs, head, tail);
    RotateAt(gs, head, tail, 0);
    RotateAt(gs, head, tail, tail - head);
    hide Rotate; hide Chain; hide Flat; hide Rising; hide Last; hide Shaped;
    assert Current(hs, 0, tail - head, ge, 0);
  }

  lemma RotateChain(gs: seq<Group>, head: nat, tail: nat)
    requires head <= tail < |gs|
    ensures |Rotate(gs, head, tail)| == |gs|
      && Chain(Rotate(gs, head, tail), 0, tail - head + 1) == Chain(gs, head, tail + 1)
  {
    var hs := Rotate(gs, head, tail);
    RotateAt(gs, head, tail, 0);
    forall j: nat {:trigger hs[j]} | j < tail - head + 1 ensures hs[j] == gs[j + head] { RotateAt(gs, head, tail, j); }
    hide Rotate; hide Chain;
    ChainShift(gs, hs, 0, tail - head + 1, head);
  }

  // with a mark above the bound in front, or nothing there, Drain does nothing
  lemma Nothing(q: seq<(Item, Epoch)>, bound: int, count: nat, ge: Epoch)
    requires q == [] || q[0].1 > bound || count == 0
    ensures Drain(q, bound, count, ge) == Drained([], q, count, ge)
  { }

  lemma QueueEmpty(gs: seq<Group>)
    requires |gs| > 0 && gs[0].head == gs[0].tail
    ensures Wait(gs, 0, 0, 0) == []
  { assert Chain(gs, 0, 1) == Live(gs[0]) + Chain(gs, 1, 1); }

  // the last group is empty: so are all, and the list starts over at the first
  lemma AllEmpty(cap: nat, gs: seq<Group>, head: nat, ge: Epoch)
    requires Cleaning(cap, gs, head, head, ge, 0) && gs[head].head == gs[head].tail == 0
    ensures Cleaning(cap, gs, 0, 0, ge, 0) && Wait(gs, head, head, 0) == [] && Wait(gs, 0, 0, 0) == []
      && gs[0].head == gs[0].tail == 0
  {
    assert Chain(gs, 0, 1) == Live(gs[0]) + Chain(gs, 1, 1);
    assert Chain(gs, head, head + 1) == Live(gs[head]) + Chain(gs, head + 1, head + 1);
  }

  lemma NextGroup(cap: nat, gs: seq<Group>, head: nat, tail: nat, ge: Epoch)
    requires Cleaning(cap, gs, head, tail, ge, 0) && gs[head].head == gs[head].tail == 0 && head < tail
    ensures Cleaning(cap, gs, head + 1, tail, ge, 0) && Wait(gs, head + 1, tail, 0) == Wait(gs, head, tail, 0)
      && Starts(gs[head + 1])
  {
    hide Chain; hide Flat; hide Rising; hide Last;
    ChainFirst(gs, head, tail + 1);
    assert Live(gs[head]) == [];
    hide Live;
    assert [] + Chain(gs, head + 1, tail + 1) == Chain(gs, head + 1, tail + 1);
  }

  class LimboList {
    const cap: nat
    var groups: seq<Group>
    var head: nat
    var tail: nat
    var ge: Epoch              // a value that globalepoch has reached
    var performEpoch: int
    ghost var freed: seq<(Item, Epoch)>
    ghost var recorded: seq<(Item, Epoch)>

    ghost predicate Shape() reads this { Shaped(cap, groups, head, tail) }

    ghost function Elems(): seq<Elem> reads this { Chain(groups, head, tail + 1) }

    // ep is the epoch in force where the head group's live entries begin
    ghost predicate Busy(ep: Epoch) reads this {
      Shape() && Current(groups, head, tail, ge, ep)
        && (groups[tail].head == groups[tail].tail ==> groups[tail].tail == 0)
    }

    ghost function Queue(ep: Epoch): seq<(Item, Epoch)> reads this { Flat(Elems(), ep) }

    ghost predicate Valid() reads this {
      && Busy(0) && head == 0
      && (if groups[0].head == groups[0].tail then tail == 0 else Starts(groups[0]))
      && recorded == freed + Queue(0)
    }

    constructor (capacity: nat, now: Epoch)
      requires capacity >= 2
      ensures Valid() && Queue(0) == [] && freed == [] && ge == now && cap == capacity
    {
      cap, ge := capacity, now;
      groups, head, tail := [Empty(capacity)], 0, 0;
      performEpoch := 0;
      freed, recorded := [], [];
    }

    // limbo_tail_ moves to the next group, a new one if there is none
    method RefillRcu()
      requires Shape()
      modifies this`groups, this`tail
      ensures tail == old(tail) + 1 && tail < |groups| && Sized(groups) && |groups| >= old(|groups|)
      ensures groups[tail].head == 0 && groups[tail].tail == 0
      ensures forall j :: 0 <= j < old(|groups|) ==> groups[j] == old(groups)[j]
      ensures forall j :: old(|groups|) <= j < |groups| ==>
        groups[j].head == 0 && groups[j].tail == 0 && |groups[j].e| == cap
    {
      if tail + 1 == |groups| {
        groups := groups + [Empty(cap)];
      }
      tail := tail + 1;
    }

    // record_rcu
    method RecordRcu(item: Item, ghost ep: Epoch)
      requires Busy(ep)
      modifies this`groups, this`tail, this`ge, this`recorded
      ensures Busy(ep) && ge == old(ge) + item.wait
      ensures Queue(ep) == old(Queue(ep)) + [(item, ge)] && recorded == old(recorded) + [(item, ge)]
      ensures FrontKept(old(groups), groups, head) && tail >= old(tail)
      ensures old(groups[head].head == groups[head].tail) && head == old(tail) ==> tail == head && Starts(groups[head])
    {
      hide Flat; hide Rising; hide Last; hide Chain; hide PushBack; hide FrontKept; hide Starts;
      ghost var gs0, t0 := groups, tail;
      if groups[tail].tail + 2 > cap {
        RefillRcu();
      }
      ge := ge + item.wait;
      var now := ge;
      ghost var gs1 := groups;
      PushShape(cap, gs0, gs1, head, t0, tail, item, now);
      groups := groups[tail := PushBack(groups[tail], item, now)];
      recorded := recorded + [(item, now)];
      PushedAll(cap, gs0, gs1, head, t0, tail, item, now, ep);
    }

    // free_rcu on a callback: it records in turn
    method FreeRcu(item: Item, ghost ep: Epoch)
      requires Busy(ep) && groups[head].head < groups[head].tail
      modifies this`groups, this`tail, this`ge, this`recorded
      ensures Busy(ep) && FrontKept(old(groups), groups, head) && tail >= old(tail)
      ensures var r := Recordings(item.spawn, old(ge));
        ge == r.1 && Queue(ep) == old(Queue(ep)) + r.0 && recorded == old(recorded) + r.0
    {
      hide Shaped; hide Current; hide FrontKept;
      ghost var r := Recordings(item.spawn, ge);
      ghost var done: seq<(Item, Epoch)> := [];
      var i := 0;
      assert item.spawn[0..] == item.spawn && r.0 == done + r.0;
      assert FrontKept(groups, groups, head) by { FrontRefl(cap, groups, head, tail); }
      while i < |item.spawn|
        invariant i <= |item.spawn| && Busy(ep) && FrontKept(old(groups), groups, head) && tail >= old(tail)
        invariant r == (done + Recordings(item.spawn[i..], ge).0, Recordings(item.spawn[i..], ge).1)
        invariant Queue(ep) == old(Queue(ep)) + done && recorded == old(recorded) + done
      {
        ghost var gs := groups;
        RecordingsStep(item.spawn, old(ge), i, done, ge);
        RecordRcu(item.spawn[i], ep);
        FrontTrans(old(groups), gs, groups, head);
        done := done + [(item.spawn[i], ge)];
        i := i + 1;
      }
    }

    // one entry is freed: the loop body of clean_until for an entry that is not a mark
    method FreeFront(item: Item, epoch: Epoch, bound: int, count: nat, ghost d: Drained, ghost f: seq<(Item, Epoch)>)
      returns (left: nat)
      requires Cleaning(cap, groups, head, tail, ge, epoch) && count > 0 && epoch <= bound && f <= freed
      requires groups[head].head < groups[head].tail && groups[head].e[groups[head].head] == Held(item)
      requires recorded == freed + Wait(groups, head, tail, epoch)
        && OnTrack(d, freed[|f|..], Wait(groups, head, tail, epoch), bound, count, ge)
      modifies this`groups, this`tail, this`ge, this`recorded, this`freed
      ensures left == count - 1 && f <= freed
      ensures left == 0 ==>
        Cleaning(cap, groups, head, tail, ge, 0) && Starts(groups[head]) && groups[tail].head < groups[tail].tail
      ensures left > 0 ==> Cleaning(cap, groups, head, tail, ge, epoch)
      ensures var q := Wait(groups, head, tail, if left == 0 then 0 else epoch);
        recorded == freed + q && OnTrack(d, freed[|f|..], q, bound, left, ge)
    {
      hide Current; hide Flat; hide Chain; hide Drain; hide OnTrack;
      assert groups[tail].head < groups[tail].tail by { TailFull(cap, groups, head, tail); }
      StepHead(cap, groups, head, tail, ge, epoch);
      ghost var q := Queue(epoch);
      TrackStep(d, freed[|f|..], q, bound, count, ge);
      FreeRcu(item, epoch);
      ghost var r := Recordings(item.spawn, old(ge));
      freed := freed + [(item, epoch)];
      left := count - 1;
      assert freed[|f|..] == old(freed)[|f|..] + [(item, epoch)];
      var g := groups[head];
      if left == 0 {
        StepMark(cap, groups, head, tail, ge, epoch);
        groups := groups[head := g.(e := g.e[g.head := Mark(epoch)])];
        assert Wait(groups, head, tail, 0) == (q + r.0)[1..];
      } else {
        StepHead(cap, groups, head, tail, ge, epoch);
        groups := groups[head := g.(head := g.head + 1)];
        assert Wait(groups, head, tail, epoch) == (q + r.0)[1..];
      }
    }

    // limbo_group::clean_until on the head group
    method CleanUntil(bound: int, count: nat, ghost d: Drained, ghost f: seq<(Item, Epoch)>) returns (left: nat)
      requires Busy(0) && Starts(groups[head]) && count > 0 && f <= freed && recorded == freed + Queue(0)
      requires OnTrack(d, freed[|f|..], Queue(0), bound, count, ge)
      modifies this`groups, this`tail, this`ge, this`recorded, this`freed
      ensures Busy(0) && f <= freed && recorded == freed + Queue(0)
      ensures OnTrack(d, freed[|f|..], Queue(0), bound, left, ge)
      ensures if groups[head].head == groups[head].tail then groups[head].tail == 0
              else Starts(groups[head]) && (left == 0 || Queue(0) == [] || Queue(0)[0].1 > bound)
      ensures left < count || (left == count && tail == old(tail))
      ensures groups[head].head == groups[head].tail ==> left > 0
    {
      hide Current; hide Flat; hide Chain; hide Drain; hide OnTrack;
      left := count;
      var epoch: Epoch := 0;
      while groups[head].head != groups[head].tail
        invariant Cleaning(cap, groups, head, tail, ge, epoch) && left > 0 && f <= freed
        invariant recorded == freed + Wait(groups, head, tail, epoch)
        invariant OnTrack(d, freed[|f|..], Wait(groups, head, tail, epoch), bound, left, ge)
        invariant groups[head].head < groups[head].tail && groups[head].e[groups[head].head].Held? ==> epoch <= bound
        invariant left < count || (left == count && tail == old(tail))
        decreases left, groups[head].tail - groups[head].head
      {
        var g := groups[head];
        if g.e[g.head].Held? {
          var item := g.e[g.head].item;
          left := FreeFront(item, epoch, bound, left, d, f);
          if left == 0 { return; }
        } else {
          var x := g.e[g.head].epoch;
          StepHead(cap, groups, head, tail, ge, epoch);
          if bound < x {
            Beyond(cap, groups, head, tail, ge, epoch, bound);
            Restart(cap, groups, head, tail, ge, epoch);
            return;
          }
          assert [] + Wait(groups[head := g.(head := g.head + 1)], head, tail, x) ==
            Wait(groups[head := g.(head := g.head + 1)], head, tail, x);
          epoch := x;
          groups := groups[head := g.(head := g.head + 1)];
        }
      }
      EmptyHead(cap, groups, head, tail, ge, epoch);
      groups := groups[head := groups[head].(head := 0, tail := 0)];
    }

    // hard_rcu_quiesce; active is active_epoch
    method HardQuiesce(active: Epoch)
      requires Valid()
      modifies this
      ensures Valid()
      ensures var d := Drain(old(Queue(0)), active - 1, RCU_FREE_COUNT, old(ge));
        && Queue(0) == d.queue && freed == old(freed) + d.freed && ge == d.ge
        && performEpoch == (if d.count == 0 then active - 1 else active)
    {
      hide Current; hide Flat; hide Chain; hide Drain; hide Rising; hide Last;
      var bound := active - 1;
      var count := RCU_FREE_COUNT;
      ghost var d := Drain(Queue(0), bound, count, ge);
      ghost var f := freed;
      if groups[0].head == groups[0].tail {
        assert Queue(0) == [] by { QueueEmpty(groups); }
        Nothing(Queue(0), bound, count, ge);
      } else if bound < groups[0].e[groups[0].head].epoch {
        Beyond(cap, groups, 0, tail, ge, 0, bound);
        Nothing(Queue(0), bound, count, ge);
      } else {
        assert freed[|f|..] == [];
        assert [] + d.freed == d.freed;
        count := CleanGroups(bound, count, d, f);
        Nothing(Queue(0), bound, count, ge);
      }
      performEpoch := if count == 0 then bound else bound + 1;
    }

    // clean [limbo_head_, limbo_tail_], then hook the empties after limbo_tail_
    method CleanGroups(bound: int, count0: nat, ghost d: Drained, ghost f: seq<(Item, Epoch)>) returns (count: nat)
      requires Valid() && Starts(groups[0]) && count0 > 0 && f <= freed
      requires OnTrack(d, freed[|f|..], Queue(0), bound, count0, ge)
      modifies this`groups, this`head, this`tail, this`ge, this`recorded, this`freed
      ensures Valid() && f <= freed && OnTrack(d, freed[|f|..], Queue(0), bound, count, ge)
      ensures count == 0 || Queue(0) == [] || Queue(0)[0].1 > bound
    {
      hide Current; hide Flat; hide Chain; hide Drain; hide Rising; hide Last; hide OnTrack; hide Live; hide Rotate;
      count := count0;
      while count > 0
        invariant Busy(0) && Starts(groups[head]) && f <= freed && recorded == freed + Queue(0)
        invariant OnTrack(d, freed[|f|..], Queue(0), bound, count, ge)
        decreases count, tail - head
      {
        count := CleanUntil(bound, count, d, f);
        if groups[head].head != groups[head].tail { break; }
        if head == tail {
          AllEmpty(cap, groups, head, ge);
          head, tail := 0, 0;
          return;
        }
        NextGroup(cap, groups, head, tail, ge);
        head := head + 1;
      }
      RotateOk(cap, groups, head, tail, ge);
      groups, head, tail := Rotate(groups, head, tail), 0, tail - head;
    }

    ghost function View(): Plain reads this { Plain(Queue(0), freed, recorded, ge, performEpoch) }

    // rcu_quiesce and rcu_stop: nothing to do if the active epoch has not moved since the last complete pass
    method RcuQuiesce(now: Epoch, seen: Epoch, active: Epoch)
      requires Valid() && ge <= now && active <= now
      modifies this
      ensures Valid() && View() == Perform(old(View()), Quiesce(now, seen, active))
    {
      hide Current; hide Flat; hide Chain; hide Drain; hide Rising; hide Last; hide Spawned;
      EpochMoves(groups, head, tail, ge, now);
      ge := now;
      if performEpoch != seen {
        ghost var q := Queue(0);
        HardQuiesce(active);
        DrainOrder(q, active - 1, RCU_FREE_COUNT, now);
        Conserved(old(freed), q, Spawned(q, active - 1, RCU_FREE_COUNT, now),
          Drain(q, active - 1, RCU_FREE_COUNT, now));
      }
    }

    // deallocate_rcu, rcu_register
    method Retire(item: Item)
      requires Valid()
      modifies this
      ensures Valid() && ge == old(ge) + item.wait && freed == old(freed)
      ensures Queue(0) == old(Queue(0)) + [(item, ge)] && recorded == old(recorded) + [(item, ge)]
        && performEpoch == old(performEpoch)
    {
      hide Current; hide Flat; hide Chain; hide Rising; hide Last;
      RecordRcu(item, 0);
    }

    lemma ValidInStep()
      requires Valid()
      ensures InStep(View())
    { RisingAscends(Elems(), 0); }

    // any number of calls, one after the other
    method Serve(calls: seq<Call>)
      requires Valid() && Calls(View(), calls)
      modifies this
      ensures Valid() && View() == After(old(View()), calls)
    {
      hide Current; hide Flat; hide Chain; hide Rising; hide Last; hide Perform; hide Allowed;
      var i := 0;
      assert calls[0..] == calls;
      while i < |calls|
        invariant 0 <= i <= |calls| && Valid() && Calls(View(), calls[i..])
          && After(View(), calls[i..]) == After(old(View()), calls)
      {
        assert calls[i..][0] == calls[i] && calls[i..][1..] == calls[i + 1..];
        One(calls[i]);
        i := i + 1;
      }
    }

    method One(call: Call)
      requires Valid() && Allowed(View(), call)
      modifies this
      ensures Valid() && View() == Perform(old(View()), call)
    {
      hide Current; hide Flat; hide Chain; hide Rising; hide Last; hide Drain; hide Spawned;
      match call
      case Record(item) => Retire(item);
      case Quiesce(now, seen, active) => RcuQuiesce(now, seen, active);
    }
  }

  lemma EpochMoves(gs: seq<Group>, head: nat, tail: nat, ge: Epoch, now: Epoch)
    requires tail < |gs| && Current(gs, head, tail, ge, 0) && ge <= now
    ensures Current(gs, head, tail, now, 0)
  { }

  lemma Conserved(f: seq<(Item, Epoch)>, q: seq<(Item, Epoch)>, more: seq<(Item, Epoch)>, d: Drained)
    requires q + more == d.freed + d.queue
    ensures f + d.freed + d.queue == f + q + more
  {
    assert f + q + more == f + (q + more);
    assert f + d.freed + d.queue == f + (d.freed + d.queue);
  }
}
