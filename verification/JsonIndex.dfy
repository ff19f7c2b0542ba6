// The object behind a JSON value: items in insertion order, and a hash table of chains threaded through them.
module JsonIndex {
  type Json = nat

  // next is the following item of the chain, -1 at its end, and -2 once the item is destroyed
  datatype Item = Item(key: string, value: Json, next: int)

  predicate Live(it: Item) { it.next > -2 }

  // ---------- an ordered association list ----------
  ghost function Entries(items: seq<Item>): seq<(string, Json)> {
    if items == [] then []
    else
      var it := items[|items| - 1];
      Entries(items[..|items| - 1]) + (if Live(it) then [(it.key, it.value)] else [])
  }

  ghost predicate HasKey(q: seq<(string, Json)>, k: string) { exists x :: 0 <= x < |q| && q[x].0 == k }

  ghost function Added(q: seq<(string, Json)>, k: string, v: Json): seq<(string, Json)> {
    if HasKey(q, k) then q else q + [(k, v)]
  }

  ghost function Without(q: seq<(string, Json)>, k: string): seq<(string, Json)> {
    if q == [] then []
    else Without(q[..|q| - 1], k) + (if q[|q| - 1].0 == k then [] else [q[|q| - 1]])
  }

  lemma {:induction false} EntriesHave(items: seq<Item>, k: string)
    ensures HasKey(Entries(items), k) <==> exists i :: 0 <= i < |items| && Live(items[i]) && items[i].key == k
  {
    if items != [] {
      var n := |items| - 1;
      var rest, it := items[..n], items[n];
      EntriesHave(rest, k);
      var q, r := Entries(items), Entries(rest);
      assert forall x :: 0 <= x < |r| ==> q[x] == r[x];
      if HasKey(r, k) {
        var x :| 0 <= x < |r| && r[x].0 == k;
        assert q[x].0 == k;
        var i :| 0 <= i < |rest| && Live(rest[i]) && rest[i].key == k;
        assert items[i] == rest[i];
      }
      if Live(it) && it.key == k { assert q[|r|].0 == k; }
      if i :| 0 <= i < |items| && Live(items[i]) && items[i].key == k {
        if i < n { assert rest[i] == items[i]; }
      }
      if HasKey(q, k) {
        var x :| 0 <= x < |q| && q[x].0 == k;
        if x < |r| { assert r[x].0 == k; }
      }
    }
  }

  ghost predicate Distinct(items: seq<Item>) {
    forall i, j :: 0 <= i < j < |items| && Live(items[i]) && Live(items[j]) ==> items[i].key != items[j].key
  }

  // items that differ at most in their links
  ghost predicate Alike(a: seq<Item>, b: seq<Item>) {
    |a| == |b| && forall i :: 0 <= i < |a| ==> AlikeAt(a, b, i)
  }
  ghost predicate AlikeAt(a: seq<Item>, b: seq<Item>, i: nat)
    requires i < |a| && i < |b|
  { Live(a[i]) == Live(b[i]) && (Live(a[i]) ==> a[i].key == b[i].key && a[i].value == b[i].value) }

  lemma {:induction false} AlikeEntries(a: seq<Item>, b: seq<Item>)
    requires Alike(a, b)
    ensures Entries(a) == Entries(b) && (Distinct(a) ==> Distinct(b))
  {
    if a != [] {
      var n := |a| - 1;
      assert AlikeAt(a, b, n);
      assert Alike(a[..n], b[..n]) by {
        forall i | 0 <= i < n ensures AlikeAt(a[..n], b[..n], i) { assert AlikeAt(a, b, i); }
      }
      AlikeEntries(a[..n], b[..n]);
    }
    if Distinct(a) {
      forall i, j | 0 <= i < j < |b| && Live(b[i]) && Live(b[j]) ensures b[i].key != b[j].key {
        assert AlikeAt(a, b, i) && AlikeAt(a, b, j);
      }
    }
  }

  lemma SnocWithout(r: seq<(string, Json)>, e: (string, Json), k: string)
    ensures Without(r + [e], k) == if e.0 == k then Without(r, k) else Without(r, k) + [e]
  {
    var q := r + [e];
    assert q[..|q| - 1] == r;
  }

  // inserting an absent key and erasing it again leaves the list as it was
  lemma {:induction false} EraseUndoesInsert(q: seq<(string, Json)>, k: string, v: Json)
    requires !HasKey(q, k)
    ensures Without(Added(q, k, v), k) == q
  {
    SnocWithout(q, (k, v), k);
    NoKey(q, k);
  }

  lemma {:induction false} NoKey(q: seq<(string, Json)>, k: string)
    requires forall x :: 0 <= x < |q| ==> q[x].0 != k
    ensures Without(q, k) == q
  { if q != [] { NoKey(q[..|q| - 1], k); } }

  // destroying item p takes its entry out, and leaves the order of the others
  lemma {:induction false} EntriesKill(items: seq<Item>, p: nat)
    requires p < |items| && Live(items[p]) && Distinct(items)
    ensures Entries(items[p := items[p].(next := -2)]) == Without(Entries(items), items[p].key)
    ensures |Without(Entries(items), items[p].key)| == |Entries(items)| - 1
  {
    var n, k := |items| - 1, items[p].key;
    var rest, dead := items[..n], items[p := items[p].(next := -2)];
    var r := Entries(rest);
    if p == n {
      assert dead[..n] == rest;
      WithoutAbsent(rest, k);
      SnocWithout(r, (k, items[n].value), k);
    } else {
      assert dead[..n] == rest[p := rest[p].(next := -2)];
      assert rest[p] == items[p];
      EntriesKill(rest, p);
      if Live(items[n]) {
        SnocWithout(r, (items[n].key, items[n].value), k);
      } else {
        assert Entries(items) == r && Entries(dead) == Entries(dead[..n]);
      }
    }
  }

  lemma {:induction false} WithoutAbsent(items: seq<Item>, k: string)
    requires forall i :: 0 <= i < |items| && Live(items[i]) ==> items[i].key != k
    ensures Without(Entries(items), k) == Entries(items)
  {
    if items != [] {
      var n := |items| - 1;
      var r := Entries(items[..n]);
      WithoutAbsent(items[..n], k);
      if Live(items[n]) {
        SnocWithout(r, (items[n].key, items[n].value), k);
      } else {
        assert Entries(items) == r;
      }
    }
  }

  // ---------- chains ----------
  function Bucket(h: string -> nat, m: nat, k: string): (b: nat)
    requires m > 0
    ensures b < m
  { h(k) % m }

  predicate In(it: Item, h: string -> nat, m: nat, b: nat)
    requires m > 0
  { Live(it) && Bucket(h, m, it.key) == b }

  // the first item of bucket b from i on
  ghost function NextIn(items: seq<Item>, h: string -> nat, m: nat, b: nat, i: nat): (r: int)
    requires m > 0
    ensures r == -1 || (i <= r < |items| && In(items[r], h, m, b))
    ensures forall j :: i <= j < |items| && (r == -1 || j < r) ==> !In(items[j], h, m, b)
    decreases |items| - i
  {
    if i >= |items| then -1 else if In(items[i], h, m, b) then i else NextIn(items, h, m, b, i + 1)
  }

  // Every chain starts at its bucket's first item and goes from each item to the bucket's next one.
  ghost predicate Linked(items: seq<Item>, h: string -> nat, hash: seq<int>) { LinkedFrom(items, h, hash, 0) }

  // as far as the items from i on go
  ghost predicate LinkedFrom(items: seq<Item>, h: string -> nat, hash: seq<int>, i: nat) {
    && |hash| > 0
    && (forall b :: 0 <= b < |hash| ==> hash[b] == NextIn(items, h, |hash|, b, i))
    && (forall j :: i <= j < |items| ==> LinkAt(items, h, |hash|, j))
  }

  ghost predicate LinkAt(items: seq<Item>, h: string -> nat, m: nat, i: nat)
    requires m > 0 && i < |items|
  { Live(items[i]) ==> items[i].next == NextIn(items, h, m, Bucket(h, m, items[i].key), i + 1) }

  lemma NextIs(items: seq<Item>, h: string -> nat, m: nat, b: nat, i: nat, r: int)
    requires m > 0
    requires r == -1 || (i <= r < |items| && In(items[r], h, m, b))
    requires forall j :: i <= j < |items| && (r == -1 || j < r) ==> !In(items[j], h, m, b)
    ensures NextIn(items, h, m, b, i) == r
  { }

  // the items of bucket b from i on, in order
  ghost function Members(items: seq<Item>, h: string -> nat, m: nat, b: nat, i: nat): seq<nat>
    requires m > 0
    decreases |items| - i
  {
    if i >= |items| then [] else (if In(items[i], h, m, b) then [i] else []) + Members(items, h, m, b, i + 1)
  }

  lemma {:induction false} MembersNext(items: seq<Item>, h: string -> nat, m: nat, b: nat, i: nat)
    requires m > 0
    ensures var r := NextIn(items, h, m, b, i);
      Members(items, h, m, b, i) == if r == -1 then [] else [r as nat] + Members(items, h, m, b, r + 1)
    decreases |items| - i
  {
    if i < |items| { MembersNext(items, h, m, b, i + 1); }
  }

  // following links, as long as they go forward
  ghost function Follow(items: seq<Item>, p: int): seq<nat>
    decreases |items| - p
  {
    if 0 <= p < |items| then [p as nat] + (if items[p].next > p then Follow(items, items[p].next) else []) else []
  }

  // A bucket's chain holds exactly its live items, each once and in ascending order: links only go forward.
  lemma {:induction false} ChainIsBucket(items: seq<Item>, h: string -> nat, hash: seq<int>, b: nat, i: nat)
    requires Linked(items, h, hash) && b < |hash|
    ensures Follow(items, NextIn(items, h, |hash|, b, i)) == Members(items, h, |hash|, b, i)
    ensures forall j :: 0 <= j < |items| && Live(items[j]) ==> items[j].next == -1 || j < items[j].next < |items|
    decreases |items| - i
  {
    forall j | 0 <= j < |items| && Live(items[j]) ensures items[j].next == -1 || j < items[j].next < |items|
    { assert LinkAt(items, h, |hash|, j); }
    if i < |items| {
      ChainIsBucket(items, h, hash, b, i + 1);
      assert LinkAt(items, h, |hash|, i);
    }
  }

  // what changes when an item is added, and when one is destroyed
  lemma NextAppend(items: seq<Item>, it: Item, h: string -> nat, m: nat, b: nat, i: nat)
    requires m > 0 && Live(it) && i <= |items|
    ensures NextIn(items + [it], h, m, b, i) ==
      if NextIn(items, h, m, b, i) == -1 && Bucket(h, m, it.key) == b then |items| else NextIn(items, h, m, b, i)
  {
    var r := NextIn(items, h, m, b, i);
    NextIs(items + [it], h, m, b, i, if r == -1 && Bucket(h, m, it.key) == b then |items| else r);
  }

  lemma NextKill(items: seq<Item>, dead: seq<Item>, p: nat, h: string -> nat, m: nat, b: nat, i: nat)
    requires m > 0 && p < |items| && Live(items[p])
    requires |dead| == |items| && !Live(dead[p]) && forall j :: 0 <= j < |items| && j != p ==> AlikeAt(items, dead, j)
    ensures NextIn(dead, h, m, b, i) == if NextIn(items, h, m, b, i) == p then NextIn(items, h, m, b, p + 1)
      else NextIn(items, h, m, b, i)
  {
    var r := NextIn(items, h, m, b, i);
    var s := if r == p then NextIn(items, h, m, b, p + 1) else r;
    forall j | i <= j < |items| && (s == -1 || j < s) ensures !In(dead[j], h, m, b)
    { if j != p { assert AlikeAt(items, dead, j); } }
    if s != -1 { assert AlikeAt(items, dead, s); }
    NextIs(dead, h, m, b, i, s);
  }

  lemma NextAlike(a: seq<Item>, c: seq<Item>, h: string -> nat, m: nat, b: nat, i: nat)
    requires m > 0 && Alike(a, c)
    ensures NextIn(a, h, m, b, i) == NextIn(c, h, m, b, i)
  {
    var r := NextIn(a, h, m, b, i);
    forall j | i <= j < |a| && (r == -1 || j < r) ensures !In(c[j], h, m, b) { assert AlikeAt(a, c, j); }
    if r != -1 { assert AlikeAt(a, c, r); }
    NextIs(c, h, m, b, i, r);
  }

  // ---------- the end of a chain gets a new item ----------
  // at is the link that is written: a bucket's head when -1, an item's link otherwise
  function SetItem(items: seq<Item>, at: int, q: int): (r: seq<Item>)
    requires -1 <= at < |items|
  { if at >= 0 then items[at := items[at].(next := q)] else items }

  function SetHead(hash: seq<int>, b: nat, at: int, q: int): (r: seq<int>)
    requires b < |hash|
  { if at >= 0 then hash else hash[b := q] }

  // at's link is a link of chain b
  ghost predicate LinkOf(items: seq<Item>, h: string -> nat, m: nat, b: nat, at: int)
    requires m > 0
  { -1 <= at < |items| && (at >= 0 ==> In(items[at], h, m, b)) }

  lemma AppendLinked(items: seq<Item>, h: string -> nat, hash: seq<int>, at: int, it: Item)
    requires Linked(items, h, hash) && it.next == -1
    requires var b := Bucket(h, |hash|, it.key);
      LinkOf(items, h, |hash|, b, at) && NextIn(items, h, |hash|, b, at + 1) == -1
    ensures var b := Bucket(h, |hash|, it.key);
      Linked(SetItem(items, at, |items|) + [it], h, SetHead(hash, b, at, |items|))
  {
    hide Bucket;
    var m := |hash|;
    var b := Bucket(h, m, it.key);
    var mid, now, head := SetItem(items, at, |items|), SetItem(items, at, |items|) + [it],
      SetHead(hash, b, at, |items|);
    assert Alike(items, mid) by { forall i | 0 <= i < |items| ensures AlikeAt(items, mid, i) { } }
    forall c | 0 <= c < m ensures head[c] == NextIn(now, h, m, c, 0) {
      NextAlike(items, mid, h, m, c, 0);
      NextAppend(mid, it, h, m, c, 0);
    }
    forall i | 0 <= i < |now| ensures LinkAt(now, h, m, i) {
      if i < |items| {
        assert LinkAt(items, h, m, i) && AlikeAt(items, mid, i);
        var c := Bucket(h, m, items[i].key);
        NextAlike(items, mid, h, m, c, i + 1);
        NextAppend(mid, it, h, m, c, i + 1);
      }
    }
  }

  lemma KillLinked(items: seq<Item>, h: string -> nat, hash: seq<int>, at: int, p: nat)
    requires Linked(items, h, hash) && p < |items| && Live(items[p]) && at < p
    requires var b := Bucket(h, |hash|, items[p].key);
      LinkOf(items, h, |hash|, b, at) && NextIn(items, h, |hash|, b, at + 1) == p
    ensures var b := Bucket(h, |hash|, items[p].key); var q := items[p].next;
      var mid := SetItem(items, at, q);
      Linked(mid[p := mid[p].(next := -2)], h, SetHead(hash, b, at, q))
  {
    var m := |hash|;
    var b, q := Bucket(h, m, items[p].key), items[p].next;
    var mid := SetItem(items, at, q);
    var now, head := mid[p := mid[p].(next := -2)], SetHead(hash, b, at, q);
    assert LinkAt(items, h, m, p);
    forall i | 0 <= i < |items| && i != p ensures AlikeAt(items, now, i) { }
    forall c | 0 <= c < m ensures head[c] == NextIn(now, h, m, c, 0) {
      NextKill(items, now, p, h, m, c, 0);
    }
    forall i | 0 <= i < |now| ensures LinkAt(now, h, m, i) {
      if i != p {
        assert LinkAt(items, h, m, i) && AlikeAt(items, now, i);
        NextKill(items, now, p, h, m, Bucket(h, m, items[i].key), i + 1);
      }
    }
  }

  lemma SetItemAlike(items: seq<Item>, at: int, q: int)
    requires -1 <= at < |items| && (at >= 0 ==> Live(items[at])) && q > -2
    ensures Alike(items, SetItem(items, at, q))
  { }

  lemma AppendEntries(items: seq<Item>, mid: seq<Item>, it: Item)
    requires Alike(items, mid) && Distinct(items) && Live(it)
    requires forall i :: 0 <= i < |items| && Live(items[i]) ==> items[i].key != it.key
    ensures Distinct(mid + [it]) && Entries(mid + [it]) == Entries(items) + [(it.key, it.value)]
  {
    AlikeEntries(items, mid);
    assert (mid + [it])[..|mid|] == mid;
    forall i | 0 <= i < |mid| && Live(mid[i]) ensures mid[i].key != it.key { assert AlikeAt(items, mid, i); }
  }

  lemma DistinctKill(items: seq<Item>, p: nat)
    requires Distinct(items) && p < |items|
    ensures Distinct(items[p := items[p].(next := -2)])
  { }

  // apart from p, unlinking leaves the items alike, so the entries are those of the items without p
  lemma KillAlike(items: seq<Item>, at: int, p: nat, q: int)
    requires -1 <= at < |items| && (at >= 0 ==> Live(items[at])) && q > -2 && p < |items| && at != p && Distinct(items)
    ensures var mid := SetItem(items, at, q); var now := mid[p := mid[p].(next := -2)];
      Entries(now) == Entries(items[p := items[p].(next := -2)]) && Distinct(now)
  {
    var mid := SetItem(items, at, q);
    var now, dead := mid[p := mid[p].(next := -2)], items[p := items[p].(next := -2)];
    DistinctKill(items, p);
    assert Alike(dead, now) by { forall i | 0 <= i < |items| ensures AlikeAt(dead, now, i) { } }
    AlikeEntries(dead, now);
  }

  lemma AlikeUse(a: seq<Item>, b: seq<Item>, p: nat)
    requires Alike(a, b) && p < |a| && Live(a[p])
    ensures Live(b[p]) && b[p].key == a[p].key
  { assert AlikeAt(a, b, p); }

  lemma SelfAlike(items: seq<Item>)
    ensures Alike(items, items)
  { }

  lemma NoneLinked(items: seq<Item>, h: string -> nat, hash: seq<int>)
    requires |hash| > 0 && forall b :: 0 <= b < |hash| ==> hash[b] == -1
    ensures LinkedFrom(items, h, hash, |items|)
  { }

  // threading item i in front of the items after it
  lemma ThreadStep(items: seq<Item>, h: string -> nat, hash: seq<int>, i: nat)
    requires LinkedFrom(items, h, hash, i + 1) && i < |items|
    ensures !Live(items[i]) ==> LinkedFrom(items, h, hash, i)
    ensures Live(items[i]) ==>
      var b := Bucket(h, |hash|, items[i].key);
      var now := items[i := items[i].(next := hash[b])];
      LinkedFrom(now, h, hash[b := i], i) && Alike(items, now)
  {
    var m := |hash|;
    if Live(items[i]) {
      var b := Bucket(h, m, items[i].key);
      var now := items[i := items[i].(next := hash[b])];
      assert Live(now[i]);
      forall j | 0 <= j < |items| ensures AlikeAt(items, now, j) { }
      forall j | i <= j < |items| ensures LinkAt(now, h, m, j) {
        var c := Bucket(h, m, items[j].key);
        NextAlike(items, now, h, m, c, j + 1);
        if j > i { assert LinkAt(items, h, m, j); }
      }
      forall c | 0 <= c < m ensures hash[b := i][c] == NextIn(now, h, m, c, i) {
        NextAlike(items, now, h, m, c, i + 1);
      }
    }
  }

  lemma AlikeTrans(a: seq<Item>, b: seq<Item>, c: seq<Item>)
    requires Alike(a, b) && Alike(b, c)
    ensures Alike(a, c)
  {
    forall i | 0 <= i < |a| ensures AlikeAt(a, c, i) { assert AlikeAt(a, b, i) && AlikeAt(b, c, i); }
  }

  ghost predicate PowerOfTwo(m: nat) { m == 1 || (m > 1 && m % 2 == 0 && PowerOfTwo(m / 2)) }

  class ObjectJson {
    // String::hashcode; any function will do
    const hashcode: string -> nat
    var os: array<Item>
    var n: nat
    var hash: seq<int>
    var size: nat

    ghost function Items(): seq<Item> reads this, os { if n <= os.Length then os[..n] else [] }
    ghost function Contents(): seq<(string, Json)> reads this, os { Entries(Items()) }

    ghost predicate Valid() reads this, os {
      && n <= os.Length && Distinct(Items()) && size == |Contents()|
      && if hash == [] then n == 0 else PowerOfTwo(|hash|) && Linked(Items(), hashcode, hash)
    }

    // how many items share the key's bucket
    ghost function Crowd(key: string): nat reads this, os {
      if hash == [] then 0 else |Members(Items(), hashcode, |hash|, Bucket(hashcode, |hash|, key), 0)|
    }

    constructor (code: string -> nat)
      ensures Valid() && fresh(os) && hashcode == code && Contents() == [] && hash == []
    {
      hashcode := code;
      os, n, hash, size := new Item[0], 0, [], 0;
    }

    method Find(key: string) returns (p: int)
      requires Valid()
      ensures p == -1 || (0 <= p < n && Live(os[p]) && os[p].key == key)
      ensures p == -1 <==> !HasKey(Contents(), key)
    {
      p := -1;
      EntriesHave(Items(), key);
      if hash != [] {
        ghost var b := Bucket(hashcode, |hash|, key);
        ghost var at := -1;
        p := hash[Bucket(hashcode, |hash|, key)];
        while p >= 0
          invariant -1 <= at < n && p == NextIn(Items(), hashcode, |hash|, b, at + 1)
          invariant forall i :: 0 <= i <= at && Live(os[i]) ==> os[i].key != key
          decreases n - at
        {
          assert LinkAt(Items(), hashcode, |hash|, p);
          if os[p].key == key { return; }
          at := p;
          p := os[p].next;
        }
      }
    }

    // doubles the buffer
    method Grow()
      requires n <= os.Length
      modifies this`os
      ensures fresh(os) && os.Length == (if old(os.Length) == 0 then 8 else 2 * old(os.Length)) && n <= os.Length
        && os[..n] == old(os[..n])
    {
      var bigger := new Item[if os.Length == 0 then 8 else 2 * os.Length];
      for i := 0 to n
        invariant os == old(os) && n <= os.Length <= bigger.Length && bigger[..i] == os[..i]
      { bigger[i] := os[i]; }
      os := bigger;
    }

    // doubles the table and threads every chain anew, from the last item to the first
    method Rehash()
      requires Valid() && hash != []
      modifies this`hash, os
      ensures Valid() && |hash| == 2 * |old(hash)| && Contents() == old(Contents()) && Alike(old(Items()), Items())
    {
      hide LinkAt; hide AlikeAt;
      assert Alike(Items(), Items()) by { SelfAlike(Items()); }
      hash := seq(2 * |hash|, _ => -1);
      NoneLinked(Items(), hashcode, hash);
      hide Alike; hide LinkedFrom; hide Live; hide Distinct; hide Entries;
      var i := n;
      while i > 0
        invariant 0 <= i <= n && |hash| == 2 * |old(hash)| && Alike(old(Items()), Items())
          && LinkedFrom(Items(), hashcode, hash, i)
      {
        i := i - 1;
        var it := os[i];
        ghost var before := Items();
        ThreadStep(before, hashcode, hash, i);
        if it.next > -2 {
          var b := Bucket(hashcode, |hash|, it.key);
          os[i] := it.(next := hash[b]);
          hash := hash[b := i];
          assert Items() == before[i := before[i].(next := os[i].next)];
          AlikeTrans(old(Items()), before, Items());
        }
      }
      AlikeEntries(old(Items()), Items());
    }

    // the link, head or item's, that leads to the key's item, or the last one of the chain
    method Seek(key: string) returns (at: int, cur: int, chain: nat)
      requires Valid() && hash != []
      ensures LinkOf(Items(), hashcode, |hash|, Bucket(hashcode, |hash|, key), at)
        && cur == (if at < 0 then hash[Bucket(hashcode, |hash|, key)] else os[at].next)
      ensures at < n && cur == NextIn(Items(), hashcode, |hash|, Bucket(hashcode, |hash|, key), at + 1)
      ensures if cur < 0 then forall i :: 0 <= i < n && Live(os[i]) ==> os[i].key != key
              else at < cur < n && Live(os[cur]) && os[cur].key == key
      ensures chain <= Crowd(key) && (cur < 0 ==> chain == Crowd(key))
    {
      hide Distinct; hide Entries; hide PowerOfTwo; hide Bucket; hide Members; hide NextIn; hide Live;
      ghost var items := Items();
      var b := Bucket(hashcode, |hash|, key);
      at, cur, chain := -1, hash[b], 0;
      while cur >= 0 && os[cur].key != key
        invariant LinkOf(Items(), hashcode, |hash|, b, at) && at < n
          && cur == NextIn(Items(), hashcode, |hash|, b, at + 1)
        invariant cur == (if at < 0 then hash[b] else os[at].next)
        invariant forall i :: 0 <= i <= at && Live(os[i]) ==> os[i].key != key
        invariant chain + |Members(items, hashcode, |hash|, b, at + 1)| == Crowd(key)
        decreases n - at
      {
        assert LinkAt(Items(), hashcode, |hash|, cur);
        MembersNext(items, hashcode, |hash|, b, at + 1);
        at, cur, chain := cur, os[cur].next, chain + 1;
      }
      MembersNext(items, hashcode, |hash|, b, at + 1);
    }

    method FindInsert(key: string, value: Json) returns (p: nat)
      requires Valid()
      modifies this, os
      ensures Valid() && hash != [] && (os == old(os) || fresh(os))
      ensures Contents() == Added(old(Contents()), key, value)
      ensures var m := if old(hash) == [] then 8 else |old(hash)|;
        |hash| == if !HasKey(old(Contents()), key) && old(Crowd(key)) > 4 then 2 * m else m
      ensures p < n && Live(os[p]) && os[p].key == key && (!HasKey(old(Contents()), key) ==> p == old(n) == n - 1)
    {
      hide Distinct; hide Entries; hide LinkedFrom; hide Alike; hide PowerOfTwo;
      if hash == [] { FirstTable(); }
      var at, cur, chain := Seek(key);
      EntriesHave(Items(), key);
      if cur >= 0 { return cur; }
      Append(at, key, value);
      p := n - 1;
      if chain > 4 {
        ghost var before := Items();
        Rehash();
        AlikeUse(before, Items(), p);
      }
    }

    method FirstTable()
      requires Valid() && hash == []
      modifies this`hash
      ensures Valid() && |hash| == 8 && forall key :: Crowd(key) == 0
    {
      hash := seq(8, _ => -1);
      NoneLinked(Items(), hashcode, hash);
      assert PowerOfTwo(8);
    }

    // a new item, written to the end of its chain
    method Append(at: int, key: string, value: Json)
      requires Valid() && hash != []
      requires var b := Bucket(hashcode, |hash|, key);
        at < n && LinkOf(Items(), hashcode, |hash|, b, at) && NextIn(Items(), hashcode, |hash|, b, at + 1) == -1
      requires forall i :: 0 <= i < n && Live(os[i]) ==> os[i].key != key
      modifies this, os
      ensures Valid() && hash != [] && (os == old(os) || fresh(os)) && Contents() == old(Contents()) + [(key, value)]
      ensures n == old(n) + 1 && os[n - 1] == Item(key, value, -1) && |hash| == |old(hash)|
    {
      hide Distinct; hide Entries; hide LinkedFrom; hide Alike; hide PowerOfTwo;
      ghost var items := Items();
      var it := Item(key, value, -1);
      var b := Bucket(hashcode, |hash|, key);
      AppendLinked(items, hashcode, hash, at, it);
      SetItemAlike(items, at, n);
      AppendEntries(items, SetItem(items, at, n), it);
      hide LinkOf; hide NextIn; hide Live;
      if at < 0 { hash := hash[b := n]; } else { os[at] := os[at].(next := n); }
      assert Items() == SetItem(items, at, n);
      hide SetItem;
      PushBack(it);
      size := size + 1;
    }

    method PushBack(it: Item)
      requires n <= os.Length
      modifies this`os, this`n, os
      ensures (os == old(os) || fresh(os)) && n == old(n) + 1 <= os.Length && Items() == old(Items()) + [it]
        && os[n - 1] == it
    {
      if n == os.Length { Grow(); }
      os[n] := it;
      n := n + 1;
    }

    // writes the link past item p, and destroys the item
    method Unlink(at: int, p: nat)
      requires Valid() && hash != [] && p < n && Live(os[p]) && at < p
      requires var b := Bucket(hashcode, |hash|, os[p].key);
        LinkOf(Items(), hashcode, |hash|, b, at) && NextIn(Items(), hashcode, |hash|, b, at + 1) == p
      modifies this, os
      ensures Valid() && os == old(os) && hash != [] && Contents() == Without(old(Contents()), old(os[p].key))
        && size == old(size) - 1
    {
      hide Entries; hide LinkedFrom; hide Alike; hide PowerOfTwo; hide Without; hide Distinct;
      ghost var items := Items();
      var key, q := os[p].key, os[p].next;
      var b := Bucket(hashcode, |hash|, key);
      KillLinked(items, hashcode, hash, at, p);
      EntriesKill(items, p);
      KillAlike(items, at, p, q);
      if at < 0 { hash := hash[b := q]; } else { os[at] := os[at].(next := q); }
      os[p] := os[p].(next := -2);
      size := size - 1;
      ghost var mid := SetItem(items, at, q);
      assert Items() == mid[p := mid[p].(next := -2)];
    }

    method EraseAt(p: nat)
      requires Valid() && p < n && Live(os[p])
      modifies this, os
      ensures Valid() && os == old(os) && hash != [] && Contents() == Without(old(Contents()), old(os[p].key))
        && size == old(size) - 1
    {
      var b := Bucket(hashcode, |hash|, os[p].key);
      var at, cur := -1, hash[b];
      while cur >= 0 && cur != p
        invariant at < p && LinkOf(Items(), hashcode, |hash|, b, at)
          && cur == NextIn(Items(), hashcode, |hash|, b, at + 1)
        invariant cur == (if at < 0 then hash[b] else os[at].next)
        decreases n - at
      {
        assert LinkAt(Items(), hashcode, |hash|, cur);
        at, cur := cur, os[cur].next;
      }
      Unlink(at, p);
    }

    method EraseKey(key: string) returns (count: nat)
      requires Valid() && hash != []
      modifies this, os
      ensures Valid() && os == old(os) && hash != [] && Contents() == Without(old(Contents()), key)
      ensures count == if HasKey(old(Contents()), key) then 1 else 0
    {
      hide Distinct; hide Entries; hide LinkedFrom; hide PowerOfTwo; hide Without;
      var at, cur, _ := Seek(key);
      EntriesHave(Items(), key);
      if cur >= 0 {
        Unlink(at, cur);
        count := 1;
      } else {
        WithoutAbsent(Items(), key);
        count := 0;
      }
    }

    method Clear()
      requires Valid()
      modifies this
      ensures Valid() && os == old(os) && Contents() == [] && |hash| == |old(hash)|
    {
      n, size := 0, 0;
      hash := seq(|hash|, _ => -1);
    }
  }
}
