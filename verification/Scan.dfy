// The forward scan: one loop over a stack of layers and a key buffer that is cut and rewritten on the way.
module Scan {
  import opened Options
  import opened Key
  import opened Trie

  // ---------- what a scan should deliver ----------
  // the items at or after k, or only those after it
  ghost function From(q: seq<(Str, Value)>, k: Str, emit: bool): seq<(Str, Value)> {
    if q == [] then []
    else (if Less(k, q[0].0) || (emit && q[0].0 == k) then [q[0]] else []) + From(q[1..], k, emit)
  }

  lemma {:induction false} FromConcat(a: seq<(Str, Value)>, b: seq<(Str, Value)>, k: Str, emit: bool)
    ensures From(a + b, k, emit) == From(a, k, emit) + From(b, k, emit)
  {
    hide Less;
    if a == [] { assert a + b == b; }
    else {
      assert (a + b)[1..] == a[1..] + b;
      FromConcat(a[1..], b, k, emit);
    }
  }

  ghost predicate AllAfter(q: seq<(Str, Value)>, k: Str) { forall x :: 0 <= x < |q| ==> Less(k, q[x].0) }
  ghost predicate AllBefore(q: seq<(Str, Value)>, k: Str) { forall x :: 0 <= x < |q| ==> Less(q[x].0, k) }

  lemma {:induction false} FromAll(q: seq<(Str, Value)>, k: Str, emit: bool)
    requires AllAfter(q, k)
    ensures From(q, k, emit) == q
  { if q != [] { FromAll(q[1..], k, emit); } }

  lemma {:induction false} FromNone(q: seq<(Str, Value)>, k: Str, emit: bool)
    requires AllBefore(q, k)
    ensures From(q, k, emit) == []
  {
    if q != [] {
      LessTotal(q[0].0, k);
      FromNone(q[1..], k, emit);
    }
  }

  // The wanted items are a tail of all items: every one at or after k, in order, each once.
  lemma {:induction false} FromIsTail(q: seq<(Str, Value)>, k: Str, emit: bool) returns (i: nat)
    requires Ascending(q)
    ensures i <= |q| && From(q, k, emit) == q[i..]
    ensures forall x :: 0 <= x < |q| ==> (x >= i <==> Less(k, q[x].0) || (emit && q[x].0 == k))
  {
    if q == [] { i := 0; }
    else if Less(k, q[0].0) || (emit && q[0].0 == k) {
      i := 0;
      forall x | 0 < x < |q| ensures Less(k, q[x].0) { if Less(k, q[0].0) { LessTrans(k, q[0].0, q[x].0); } }
      FromAll(q[1..], k, emit);
    } else {
      i := FromIsTail(q[1..], k, emit);
      i := i + 1;
      assert q[1..][i-1..] == q[i..];
    }
  }

  // ---------- a layer against a key buffer ----------
  // the first entry that is no duplicate of the buffer's key
  function Next(t: Tree, ikey: nat, len: nat, i: nat): (r: nat)
    requires i <= |t.entries|
    ensures i <= r <= |t.entries|
    ensures forall j :: i <= j < r ==> Compare(ikey, len, Ikey(t.entries[j]), Keylenx(t.entries[j])) >= 0
    ensures r < |t.entries| ==> Compare(ikey, len, Ikey(t.entries[r]), Keylenx(t.entries[r])) < 0
    decreases |t.entries| - i
  {
    if i < |t.entries| && Compare(ikey, len, Ikey(t.entries[i]), Keylenx(t.entries[i])) >= 0
    then Next(t, ikey, len, i + 1) else i
  }

  lemma {:induction false} NextIs(t: Tree, ikey: nat, len: nat, i: nat, r: nat)
    requires i <= r <= |t.entries|
    requires forall j :: i <= j < r ==> Compare(ikey, len, Ikey(t.entries[j]), Keylenx(t.entries[j])) >= 0
    requires r < |t.entries| ==> Compare(ikey, len, Ikey(t.entries[r]), Keylenx(t.entries[r])) < 0
    ensures Next(t, ikey, len, i) == r
    decreases r - i
  { if i < r { NextIs(t, ikey, len, i + 1, r); } }

  // Compare against entries further on can only fall
  lemma CompareFalls(t: Tree, ikey: nat, len: nat, i: nat, j: nat)
    requires WF(t) && i < j < |t.entries|
    ensures Compare(ikey, len, Ikey(t.entries[i]), Keylenx(t.entries[i])) <= 0 ==>
      Compare(ikey, len, Ikey(t.entries[j]), Keylenx(t.entries[j])) < 0
  {
    assert Before(t.entries[i], t.entries[j]);
    KeylenxClass(t, i);
    KeylenxClass(t, j);
  }

  lemma KeylenxClass(t: Tree, i: nat)
    requires WF(t) && i < |t.entries|
    ensures var e := t.entries[i];
      if e.Short? then Keylenx(e) == Class(e) <= SLICE else Keylenx(e) > SLICE && Class(e) == 9
  { }

  // an entry compared with the key it was put in the buffer from
  lemma CompareSelf(t: Tree, i: nat, len: nat)
    requires WF(t) && i < |t.entries|
    requires if t.entries[i].Short? then len == |t.entries[i].bytes| else len > SLICE
    ensures forall j :: 0 <= j <= i ==> Compare(Ikey(t.entries[i]), len, Ikey(t.entries[j]), Keylenx(t.entries[j])) >= 0
    ensures Next(t, Ikey(t.entries[i]), len, 0) == i + 1
  {
    var e := t.entries[i];
    forall j | 0 <= j <= i ensures Compare(Ikey(e), len, Ikey(t.entries[j]), Keylenx(t.entries[j])) >= 0 {
      KeylenxClass(t, j);
      KeylenxClass(t, i);
      if j < i { assert Before(t.entries[j], e); }
    }
    if i + 1 < |t.entries| {
      assert Before(e, t.entries[i + 1]);
      KeylenxClass(t, i);
      KeylenxClass(t, i + 1);
    }
    NextIs(t, Ikey(e), len, 0, i + 1);
  }

  // ---------- what is still to come ----------
  type Frame = (Tree, nat)

  ghost function Here(t: Tree, prefix: Str, ikey: nat, len: nat): seq<(Str, Value)>
  { Items(t, Next(t, ikey, len, 0), prefix) }

  // each frame's layer goes on after the layer entry whose slice is the last of the prefix
  ghost function Above(stack: seq<Frame>, prefix: Str): seq<(Str, Value)>
    decreases |stack|
  {
    if stack == [] || |prefix| < SLICE then []
    else
      var p := prefix[..|prefix| - SLICE];
      Here(stack[|stack|-1].0, p, Slice(prefix[|prefix| - SLICE..]), 9) + Above(stack[..|stack|-1], p)
  }

  ghost predicate FrameOk(f: Frame, slice: Str) {
    && WF(f.0) && f.1 < |f.0.starts| && |slice| == SLICE
    && exists i :: 0 <= i < |f.0.entries| && InLeaf(f.0, f.1, i) && f.0.entries[i].Sub? && f.0.entries[i].bytes == slice
  }

  predicate InLeaf(t: Tree, n: nat, i: nat)
    requires n < |t.starts|
  { t.starts[n] <= i < End(t, n) }

  ghost predicate StackOk(stack: seq<Frame>, prefix: Str) {
    |prefix| == 8 * |stack|
    && forall f :: 0 <= f < |stack| ==> FrameOk(stack[f], prefix[8 * f..8 * (f + 1)])
  }

  // entries still to come, with those of the layers below them
  ghost function Weight(t: Tree, i: nat): nat
    decreases t, if i < |t.entries| then |t.entries| - i else 0
  {
    if i >= |t.entries| then 0
    else 1 + (if t.entries[i].Sub? then Weight(t.entries[i].layer, 0) else 0) + Weight(t, i + 1)
  }

  ghost function AboveWeight(stack: seq<Frame>, prefix: Str): nat
    decreases |stack|
  {
    if stack == [] || |prefix| < SLICE then 0
    else
      var p := prefix[..|prefix| - SLICE];
      var t := stack[|stack|-1].0;
      Weight(t, Next(t, Slice(prefix[|prefix| - SLICE..]), 9, 0)) + AboveWeight(stack[..|stack|-1], p)
  }

  // ---------- where a scan starts in a layer ----------
  lemma EntryAgainst(t: Tree, i: nat, prefix: Str, s: Str)
    requires WF(t) && i < |t.entries|
    ensures var c := Compare(Slice(s), |s|, Ikey(t.entries[i]), Keylenx(t.entries[i]));
      (c > 0 ==> AllBefore(ItemsAt(t, i, prefix), prefix + s))
        && (c < 0 ==> AllAfter(ItemsAt(t, i, prefix), prefix + s))
  {
    var e, c, q := t.entries[i], Compare(Slice(s), |s|, Ikey(t.entries[i]), Keylenx(t.entries[i])),
      ItemsAt(t, i, prefix);
    CompareMeans(s, e);
    var k := EntryFor(s, 0);
    var rest := if k.Long? then k.suffix else [];
    KeyAsEntry(s);
    forall x: nat | x < |q| ensures (c > 0 ==> Less(q[x].0, prefix + s)) && (c < 0 ==> Less(prefix + s, q[x].0)) {
      var r := ItemsUnder(t, i, prefix, x);
      if c > 0 { EntryKeysLess(prefix, e, r, k, rest); }
      if c < 0 { EntryKeysLess(prefix, k, rest, e, r); }
    }
  }

  lemma KeyAsEntry(s: Str)
    ensures var k := EntryFor(s, 0);
      && k.bytes + (if k.Long? then k.suffix else []) == s && Ikey(k) == Slice(s)
      && Class(k) == (if |s| > SLICE then 9 else |s|)
      && |k.bytes| <= SLICE && (k.Long? ==> |k.bytes| == SLICE && k.suffix != [])
  {
    if s == [] { assert [] + [] == s; } else { EntryForFacts(s, 0); }
  }

  // the entries after the key's place come whole
  lemma {:induction false} FromLater(t: Tree, j: nat, prefix: Str, s: Str, emit: bool)
    requires WF(t) && (j < |t.entries| ==> Compare(Slice(s), |s|, Ikey(t.entries[j]), Keylenx(t.entries[j])) < 0)
    ensures From(Items(t, j, prefix), prefix + s, emit) == Items(t, j, prefix)
    decreases |t.entries| - j
  {
    hide AllAfter; hide AllBefore; hide WF; hide Compare; hide Slice;
    if j < |t.entries| {
      EntryAgainst(t, j, prefix, s);
      if j + 1 < |t.entries| { CompareFalls(t, Slice(s), |s|, j, j + 1); }
      FromLater(t, j + 1, prefix, s, emit);
      FromConcat(ItemsAt(t, j, prefix), Items(t, j + 1, prefix), prefix + s, emit);
      FromAll(ItemsAt(t, j, prefix), prefix + s, emit);
    }
  }

  ghost predicate Matches(t: Tree, s: Str, i: nat) {
    i < |t.entries| && Compare(Slice(s), |s|, Ikey(t.entries[i]), Keylenx(t.entries[i])) == 0
  }

  // the wanted items of a layer when i is the key's place in it
  ghost function Wanted(t: Tree, i: nat, prefix: Str, s: Str, emit: bool): seq<(Str, Value)> {
    if Matches(t, s, i) then From(ItemsAt(t, i, prefix), prefix + s, emit) + Items(t, i + 1, prefix)
    else Items(t, i, prefix)
  }

  lemma FromPlace(t: Tree, i: nat, prefix: Str, s: Str, emit: bool)
    requires WF(t) && i <= |t.entries|
      && (i < |t.entries| ==> Compare(Slice(s), |s|, Ikey(t.entries[i]), Keylenx(t.entries[i])) <= 0)
    ensures From(Items(t, i, prefix), prefix + s, emit) == Wanted(t, i, prefix, s, emit)
  {
    hide From; hide WF; hide Compare; hide Slice;
    if Matches(t, s, i) {
      if i + 1 < |t.entries| { CompareFalls(t, Slice(s), |s|, i, i + 1); }
      FromLater(t, i + 1, prefix, s, emit);
      FromConcat(ItemsAt(t, i, prefix), Items(t, i + 1, prefix), prefix + s, emit);
    } else {
      FromLater(t, i, prefix, s, emit);
    }
  }

  // the entries before the key's place give nothing
  lemma {:induction false} FromLayer(t: Tree, j: nat, prefix: Str, s: Str, emit: bool)
    requires WF(t) && j <= |t.entries|
    ensures From(Items(t, j, prefix), prefix + s, emit) == Wanted(t, Lower(t, Slice(s), |s|, j), prefix, s, emit)
    decreases |t.entries| - j
  {
    hide From; hide AllBefore; hide AllAfter; hide WF; hide Compare; hide Slice; hide Wanted;
    if j < |t.entries| && Compare(Slice(s), |s|, Ikey(t.entries[j]), Keylenx(t.entries[j])) > 0 {
      FromLayer(t, j + 1, prefix, s, emit);
      EntryAgainst(t, j, prefix, s);
      FromConcat(ItemsAt(t, j, prefix), Items(t, j + 1, prefix), prefix + s, emit);
      FromNone(ItemsAt(t, j, prefix), prefix + s, emit);
    } else {
      FromPlace(t, j, prefix, s, emit);
    }
  }

  ghost function SuffixPart(e: Entry, prefix: Str, r: Str, emit: bool): seq<(Str, Value)>
    requires e.Long?
  { if Less(r, e.suffix) || (emit && r == e.suffix) then [(prefix + e.bytes + e.suffix, e.value)] else [] }

  // what find_initial makes of an entry that matches
  lemma FromMatch(t: Tree, i: nat, prefix: Str, s: Str, emit: bool)
    requires WF(t) && Matches(t, s, i)
    ensures var e := t.entries[i];
      e.Short? ==>
        && s == e.bytes
        && From(ItemsAt(t, i, prefix), prefix + s, emit) == (if emit then [(prefix + s, e.value)] else [])
    ensures var e := t.entries[i]; !e.Short? ==> |s| > SLICE && s[..SLICE] == e.bytes
    ensures var e := t.entries[i];
      e.Long? ==> From(ItemsAt(t, i, prefix), prefix + s, emit) == SuffixPart(e, prefix, s[SLICE..], emit)
    ensures var e := t.entries[i];
      e.Sub? ==>
        From(ItemsAt(t, i, prefix), prefix + s, emit)
        == From(Items(e.layer, 0, prefix + e.bytes), prefix + e.bytes + s[SLICE..], emit)
  {
    var e := t.entries[i];
    CompareMeans(s, e);
    LessTotal(prefix + s, prefix + s);
    if !e.Short? {
      var r := s[SLICE..];
      assert s == e.bytes + r;
      Assoc(prefix, e.bytes, r);
      if e.Long? {
        var q := ItemsAt(t, i, prefix);
        assert q == [(prefix + e.bytes + e.suffix, e.value)];
        assert q[1..] == [];
        LessPrefix(prefix + e.bytes, r, e.suffix);
        if prefix + s == prefix + e.bytes + e.suffix { Cancel(prefix + e.bytes, r, e.suffix); }
      }
    } else {
      var q := ItemsAt(t, i, prefix);
      assert q[1..] == [];
    }
  }

  // ---------- the key buffer ----------
  lemma IkeyBytes(e: Entry)
    requires |e.bytes| <= SLICE
    ensures Ikey(e) < Pow(SLICE) && Bytes(Ikey(e), SLICE)[..|e.bytes|] == e.bytes
  {
    BytesOfNum(e.bytes, SLICE);
    PadPrefix(e.bytes, SLICE, |e.bytes|);
    assert e.bytes[..|e.bytes|] == e.bytes;
  }

  // writing s at a position, over what is there
  function Store(buf: Str, at: nat, s: Str): (r: Str)
    ensures |r| >= at + |s| && r[at..at + |s|] == s
  { Pad(buf, at) + s + (if |buf| > at + |s| then buf[at + |s|..] else []) }

  lemma StoreKeeps(buf: Str, at: nat, s: Str, k: nat)
    requires k <= at && k <= |buf|
    ensures Store(buf, at, s)[..k] == buf[..k]
  {
    PadPrefix(buf, at, k);
    assert Store(buf, at, s)[..k] == Pad(buf, at)[..k];
  }

  lemma Stored(buf: Str, at: nat, s: Str, pre: Str)
    requires at <= |buf| && buf[..at] == pre
    ensures |Store(buf, at, s)| >= at + |s| && Store(buf, at, s)[..at + |s|] == pre + s
      && Store(buf, at, s)[..at] == pre
  {
    StoreKeeps(buf, at, s, at);
    var r := Store(buf, at, s);
    assert r[..at + |s|] == r[..at] + r[at..at + |s|];
  }

  // a key in the buffer, cut after its first slice
  lemma CutAt(buf: Str, at: nat, s: Str)
    requires |s| > SLICE && at + |s| <= |buf| && buf[at..at + |s|] == s
    ensures buf[at + SLICE..at + |s|] == s[SLICE..] && buf[..at + SLICE] == buf[..at] + s[..SLICE]
      && buf[..at + |s|] == buf[..at] + s
  { }

  lemma TailKept(buf: Str, at: nat, w: Str, r: Str, suffix: Str)
    requires at + |w| + |suffix| <= |buf| && r == buf[..at] + w + buf[at + |w|..]
      && buf[at + |w|..at + |w| + |suffix|] == suffix
    ensures |r| == |buf| && r[..at + |w| + |suffix|] == buf[..at] + (w + suffix)
  {
    var m := at + |w| + |suffix|;
    assert r[at + |w|..m] == buf[at + |w|..m];
    assert r[..m] == r[..at + |w|] + r[at + |w|..m];
  }

  // an entry's slice written over the buffer, in front of its suffix
  lemma Written(buf: Str, at: nat, e: Entry)
    requires at <= |buf| && |e.bytes| <= SLICE
    requires e.Long? ==>
      |e.bytes| == SLICE && at + SLICE + |e.suffix| <= |buf| && buf[at + SLICE..at + SLICE + |e.suffix|] == e.suffix
    ensures Ikey(e) < Pow(SLICE)
    ensures var r := Store(buf, at, Bytes(Ikey(e), SLICE));
      && |r| >= at + SLICE && r[..at] == buf[..at] && r[..at + |e.bytes|] == buf[..at] + e.bytes
      && (e.Long? ==> |r| >= |buf| && r[..at + SLICE + |e.suffix|] == buf[..at] + (e.bytes + e.suffix))
  {
    IkeyBytes(e);
    var w := Bytes(Ikey(e), SLICE);
    hide Bytes; hide Ikey;
    StoredSlice(buf, at, w, |e.bytes|);
    if e.Long? {
      assert w == e.bytes;
      StoredTail(buf, at, w);
      hide Store;
      TailKept(buf, at, w, Store(buf, at, w), e.suffix);
    }
  }

  lemma StoredTail(buf: Str, at: nat, w: Str)
    requires at + |w| <= |buf|
    ensures Store(buf, at, w) == buf[..at] + w + buf[at + |w|..]
  {
    PadPrefix(buf, at, at);
    hide Pad;
    assert Pad(buf, at) == buf[..at];
  }

  lemma StoredSlice(buf: Str, at: nat, w: Str, k: nat)
    requires at <= |buf| && k <= |w|
    ensures var r := Store(buf, at, w); |r| >= at + |w| && r[..at] == buf[..at] && r[..at + k] == buf[..at] + w[..k]
  {
    PadPrefix(buf, at, at);
    var r := Store(buf, at, w);
    hide Pad;
    assert Pad(buf, at) == buf[..at];
    assert r[..at + k] == r[..at] + r[at..at + |w|][..k];
  }

  // ---------- steps of the loop, on values ----------
  predicate Passed(t: Tree, ikey: nat, len: nat, j: nat) {
    j < |t.entries| ==> Compare(ikey, len, Ikey(t.entries[j]), Keylenx(t.entries[j])) >= 0
  }

  lemma Turn(t: Tree, i: nat, ikey: nat, len: nat)
    requires i <= |t.entries| && (forall j :: 0 <= j < i ==> Passed(t, ikey, len, j))
      && (i < |t.entries| ==> !Passed(t, ikey, len, i))
    ensures Next(t, ikey, len, 0) == i
  {
    forall j | 0 <= j < i ensures Compare(ikey, len, Ikey(t.entries[j]), Keylenx(t.entries[j])) >= 0
    { assert Passed(t, ikey, len, j); }
    NextIs(t, ikey, len, 0, i);
  }

  // what a key put in the buffer from entry i has passed
  lemma Taken(t: Tree, i: nat, len: nat)
    requires WF(t) && i < |t.entries| && (if t.entries[i].Short? then len == |t.entries[i].bytes| else len > SLICE)
    ensures Next(t, Ikey(t.entries[i]), len, 0) == i + 1
      && forall j :: 0 <= j <= i ==> Passed(t, Ikey(t.entries[i]), len, j)
  {
    hide WF; hide Compare; hide Next;
    CompareSelf(t, i, len);
  }

  // going down: the layer's frame waits after its entry
  lemma Push(t: Tree, n: nat, i: nat, prefix: Str, stack: seq<Frame>)
    requires WF(t) && n < |t.starts| && i < |t.entries| && InLeaf(t, n, i) && t.entries[i].Sub?
      && StackOk(stack, prefix)
    ensures var e := t.entries[i]; var st := stack + [(t, n)]; var p := prefix + e.bytes;
      && WF(e.layer) && !HasEmpty(e.layer) && |e.bytes| == SLICE && StackOk(st, p)
      && Items(e.layer, 0, p) + Above(st, p) == Items(t, i, prefix) + Above(stack, prefix)
      && Weight(e.layer, 0) + AboveWeight(st, p) + 1 == Weight(t, i) + AboveWeight(stack, prefix)
  {
    hide WF; hide Next; hide StackOk; hide HasEmpty; hide Above; hide AboveWeight; hide InLeaf;
    var e := t.entries[i];
    SubOk(t, i);
    Taken(t, i, 9);
    PushOk(t, n, i, prefix, stack);
    PushAbove(t, n, prefix, e.bytes, stack);
    assert Items(t, i, prefix) == Items(e.layer, 0, prefix + e.bytes) + Items(t, i + 1, prefix);
  }

  lemma SubOk(t: Tree, i: nat)
    requires WF(t) && i < |t.entries| && t.entries[i].Sub?
    ensures var e := t.entries[i]; |e.bytes| == SLICE && WF(e.layer) && !HasEmpty(e.layer)
  { }

  function KeyOf(e: Entry): Str { if e.Long? then e.bytes + e.suffix else e.bytes }

  lemma Emitted(t: Tree, i: nat, prefix: Str, len: nat, above: seq<(Str, Value)>)
    requires WF(t) && i < |t.entries| && !t.entries[i].Sub? && len == |KeyOf(t.entries[i])|
    ensures var e := t.entries[i];
      && Items(t, i, prefix) + above == [(prefix + KeyOf(e), e.value)] + (Here(t, prefix, Ikey(e), len) + above)
      && Weight(t, i) == 1 + Weight(t, Next(t, Ikey(e), len, 0))
      && forall j :: 0 <= j <= i ==> Passed(t, Ikey(e), len, j)
  {
    var e := t.entries[i];
    EntryOk(t, i);
    Taken(t, i, len);
    hide WF; hide Next;
    if e.Long? { Assoc(prefix, e.bytes, e.suffix); }
    assert Items(t, i, prefix) == [(prefix + KeyOf(e), e.value)] + Items(t, i + 1, prefix);
    hide Items;
    Cat([(prefix + KeyOf(e), e.value)], Items(t, i + 1, prefix), above);
  }

  lemma EntryOk(t: Tree, i: nat)
    requires WF(t) && i < |t.entries|
    ensures var e := t.entries[i];
      |e.bytes| <= SLICE && (!e.Short? ==> |e.bytes| == SLICE) && (e.Long? ==> e.suffix != [])
  { }

  lemma PushAbove(t: Tree, n: nat, prefix: Str, b: Str, stack: seq<Frame>)
    requires |b| == SLICE
    ensures Above(stack + [(t, n)], prefix + b) == Here(t, prefix, Slice(b), 9) + Above(stack, prefix)
    ensures AboveWeight(stack + [(t, n)], prefix + b) == Weight(t, Next(t, Slice(b), 9, 0)) + AboveWeight(stack, prefix)
  {
    hide Next; hide Here; hide Weight; hide Slice;
    var st, p := stack + [(t, n)], prefix + b;
    assert p[..|p| - SLICE] == prefix && p[|p| - SLICE..] == b && st[..|st| - 1] == stack;
  }

  lemma PushOk(t: Tree, n: nat, i: nat, prefix: Str, stack: seq<Frame>)
    requires WF(t) && n < |t.starts| && i < |t.entries| && InLeaf(t, n, i) && t.entries[i].Sub?
      && StackOk(stack, prefix)
    ensures StackOk(stack + [(t, n)], prefix + t.entries[i].bytes)
  {
    var b := t.entries[i].bytes;
    assert |b| == SLICE;
    assert FrameOk((t, n), b);
    var st, p := stack + [(t, n)], prefix + b;
    hide WF; hide FrameOk;
    forall f | 0 <= f < |st| ensures FrameOk(st[f], p[8 * f..8 * (f + 1)]) {
      if f < |stack| { assert p[8 * f..8 * (f + 1)] == prefix[8 * f..8 * (f + 1)]; }
      else { assert p[8 * f..8 * (f + 1)] == b; }
    }
  }

  // a layer reached from its parent has nothing at the empty key
  lemma Fresh(t: Tree)
    requires WF(t) && !HasEmpty(t)
    ensures Next(t, 0, 0, 0) == 0
  {
    if t.entries != [] && Compare(0, 0, Ikey(t.entries[0]), Keylenx(t.entries[0])) >= 0 {
      ZeroNum(SLICE);
    }
  }

  // coming back: the frame's leaf, with the last slice in the buffer
  lemma Pop(below: seq<Frame>, t: Tree, n: nat, p: Str, b: Str)
    requires StackOk(below + [(t, n)], p + b) && |b| == SLICE
    ensures WF(t) && n < |t.starts| && StackOk(below, p)
      && forall j :: 0 <= j < t.starts[n] ==> Passed(t, Slice(b), 9, j)
  {
    var k := |below|;
    assert b == (p + b)[8 * k..8 * (k + 1)];
    assert (below + [(t, n)])[k] == (t, n);
    assert FrameOk((t, n), b);
    EarlierLeaves(t, n, Slice(b), 9);
    hide FrameOk;
    forall g | 0 <= g < k ensures FrameOk(below[g], p[8 * g..8 * (g + 1)]) {
      assert p[8 * g..8 * (g + 1)] == (p + b)[8 * g..8 * (g + 1)];
      assert below[g] == (below + [(t, n)])[g];
    }
  }

  lemma LayerDone(t: Tree, prefix: Str, ikey: nat, len: nat, above: seq<(Str, Value)>)
    requires forall j :: 0 <= j < |t.entries| ==> Passed(t, ikey, len, j)
    ensures Here(t, prefix, ikey, len) + above == above && Weight(t, Next(t, ikey, len, 0)) == 0
  { Turn(t, |t.entries|, ikey, len); }

  lemma UpFacts(stack: seq<Frame>, prefix: Str)
    requires StackOk(stack, prefix) && stack != []
    ensures |prefix| >= SLICE
  { }

  lemma EarlierLeaves(t: Tree, n: nat, ikey: nat, len: nat)
    requires WF(t) && n < |t.starts| && t.bounds[n] <= ikey
    ensures forall j :: 0 <= j < t.starts[n] ==> Passed(t, ikey, len, j)
  { }

  lemma EndOk(t: Tree, n: nat)
    requires WF(t) && n < |t.starts|
    ensures t.starts[n] <= End(t, n) <= |t.entries|
  { }

  // bound_type::lower within a leaf
  function Place(t: Tree, n: nat, ikey: nat, len: nat): nat
    requires n < |t.starts| && t.starts[n] <= |t.entries|
  {
    var i := Lower(t, ikey, len, t.starts[n]);
    if i < End(t, n) then i else End(t, n)
  }

  lemma PlaceOk(t: Tree, n: nat, ikey: nat, len: nat)
    requires WF(t) && n < |t.starts| && forall j :: 0 <= j < t.starts[n] ==> Passed(t, ikey, len, j)
    ensures t.starts[n] <= Place(t, n, ikey, len) <= End(t, n) <= |t.entries|
      && forall j :: 0 <= j < Place(t, n, ikey, len) ==> Passed(t, ikey, len, j)
  { }

  // in the leaf that holds the key's place, the leaf's lower is the layer's
  lemma PlaceIsLower(t: Tree, n: nat, ikey: nat, len: nat)
    requires WF(t) && n < |t.starts| && t.bounds[n] <= ikey && (n + 1 < |t.starts| ==> ikey < t.bounds[n + 1])
    ensures Place(t, n, ikey, len) == Lower(t, ikey, len, 0)
      && t.starts[n] <= Place(t, n, ikey, len) <= End(t, n) <= |t.entries|
    ensures forall j :: 0 <= j < Place(t, n, ikey, len) ==> Passed(t, ikey, len, j)
    ensures var i := Place(t, n, ikey, len);
      i == End(t, n) < |t.entries| ==> Compare(ikey, len, Ikey(t.entries[i]), Keylenx(t.entries[i])) < 0
  {
    var i, r := Place(t, n, ikey, len), Lower(t, ikey, len, 0);
    assert forall j :: 0 <= j < t.starts[n] ==> Compare(ikey, len, Ikey(t.entries[j]), Keylenx(t.entries[j])) > 0;
    assert i < |t.entries| ==> Compare(ikey, len, Ikey(t.entries[i]), Keylenx(t.entries[i])) <= 0;
  }

  lemma Cat(a: seq<(Str, Value)>, b: seq<(Str, Value)>, c: seq<(Str, Value)>)
    ensures a + b + c == a + (b + c)
  { }

  // what find_initial has to deliver, by what stands at the key's place
  lemma InitialMiss(t: Tree, prefix: Str, s: Str, emit: bool)
    requires WF(t) && !Matches(t, s, Lower(t, Slice(s), |s|, 0))
    ensures From(Items(t, 0, prefix), prefix + s, emit) == Here(t, prefix, Slice(s), |s|)
  {
    var i := Lower(t, Slice(s), |s|, 0);
    hide WF; hide From;
    FromLayer(t, 0, prefix, s, emit);
    NextIs(t, Slice(s), |s|, 0, i);
  }

  lemma InitialMatch(t: Tree, i: nat, prefix: Str, s: Str, emit: bool)
    requires WF(t) && i == Lower(t, Slice(s), |s|, 0) && Matches(t, s, i)
    ensures var e := t.entries[i];
      From(Items(t, 0, prefix), prefix + s, emit) ==
        (if e.Short? then (if emit then [(prefix + s, e.value)] else [])
          else if e.Long? then SuffixPart(e, prefix, s[SLICE..], emit)
         else From(Items(e.layer, 0, prefix + e.bytes), prefix + e.bytes + s[SLICE..], emit)) + Items(t, i + 1, prefix)
    ensures var e := t.entries[i];
      Ikey(e) == Slice(s) && (if e.Short? then s == e.bytes else |s| > SLICE && s == e.bytes + s[SLICE..])
  {
    hide WF; hide From;
    FromLayer(t, 0, prefix, s, emit);
    FromMatch(t, i, prefix, s, emit);
  }

  lemma InitialLong(t: Tree, i: nat, prefix: Str, s: Str, emit: bool, len: nat, above: seq<(Str, Value)>)
    requires WF(t) && i == Lower(t, Slice(s), |s|, 0) && Matches(t, s, i) && t.entries[i].Long?
      && len == SLICE + |t.entries[i].suffix|
    ensures var e := t.entries[i]; |s| > SLICE && |e.bytes| == SLICE && s[..SLICE] == e.bytes
    ensures var e := t.entries[i];
      From(Items(t, 0, prefix), prefix + s, emit) + above ==
        if Less(s[SLICE..], e.suffix) || (emit && s[SLICE..] == e.suffix)
        then [(prefix + e.bytes + e.suffix, e.value)] + (Here(t, prefix, Slice(s), len) + above)
        else Here(t, prefix, Slice(s), |s|) + above
    ensures forall j :: 0 <= j <= i ==> Passed(t, Slice(s), |s|, j)
    ensures forall j :: 0 <= j <= i ==> Passed(t, Slice(s), len, j)
  {
    EntryOk(t, i);
    InitialMatch(t, i, prefix, s, emit);
    assert s[..SLICE] == t.entries[i].bytes;
    hide WF; hide Lower; hide From; hide Items; hide Next; hide Matches; hide Passed; hide Less; hide Slice; hide Ikey;
    Taken(t, i, |s|);
    Taken(t, i, len);
    Cat(SuffixPart(t.entries[i], prefix, s[SLICE..], emit), Items(t, i + 1, prefix), above);
  }

  lemma InitialShort(t: Tree, i: nat, prefix: Str, s: Str, emit: bool, above: seq<(Str, Value)>)
    requires WF(t) && i == Lower(t, Slice(s), |s|, 0) && Matches(t, s, i) && t.entries[i].Short?
    ensures From(Items(t, 0, prefix), prefix + s, emit) + above ==
      (if emit then [(prefix + s, t.entries[i].value)] else []) + (Here(t, prefix, Slice(s), |s|) + above)
    ensures forall j :: 0 <= j <= i ==> Passed(t, Slice(s), |s|, j)
  {
    InitialMatch(t, i, prefix, s, emit);
    Taken(t, i, |s|);
    Cat(if emit then [(prefix + s, t.entries[i].value)] else [], Items(t, i + 1, prefix), above);
  }

  lemma InitialSub(t: Tree, n: nat, i: nat, prefix: Str, s: Str, emit: bool, stack: seq<Frame>)
    requires WF(t) && i == Lower(t, Slice(s), |s|, 0) && Matches(t, s, i) && t.entries[i].Sub?
    requires n < |t.starts| && InLeaf(t, n, i) && StackOk(stack, prefix)
    ensures |s| > SLICE
    ensures var u := t.entries[i].layer; var p := (prefix + s)[..|prefix| + SLICE]; var st := stack + [(t, n)];
      && WF(u) && StackOk(st, p)
      && From(Items(t, 0, prefix), prefix + s, emit) + Above(stack, prefix) ==
        From(Items(u, 0, p), prefix + s, emit) + Above(st, p)
  {
    hide WF; hide Compare; hide Slice; hide Above; hide AboveWeight; hide Next; hide Items; hide Weight; hide From;
    hide StackOk;
    hide Lower;
    var e := t.entries[i];
    hide Matches;
    EntryOk(t, i);
    InitialMatch(t, i, prefix, s, emit);
    PrefixCut(prefix, e.bytes, s);
    SubOk(t, i);
    Taken(t, i, 9);
    PushOk(t, n, i, prefix, stack);
    PushAbove(t, n, prefix, e.bytes, stack);
    Cat(From(Items(e.layer, 0, prefix + e.bytes), prefix + s, emit), Items(t, i + 1, prefix), Above(stack, prefix));
  }

  lemma PrefixCut(prefix: Str, b: Str, s: Str)
    requires |b| == SLICE && |s| > SLICE && s == b + s[SLICE..]
    ensures (prefix + s)[..|prefix| + SLICE] == prefix + b && prefix + s == prefix + b + s[SLICE..]
  { }

  // ---------- the state of a scan, as a value ----------
  datatype Spot = Spot(t: Tree, n: nat, ki: nat, stack: seq<Frame>, prefix: Str, ikey: nat, len: nat)

  // position ki of leaf n; every entry before it is at or below the key in the buffer
  ghost predicate MoreOk(v: Spot) {
    && WF(v.t) && v.n < |v.t.starts| && v.t.starts[v.n] <= v.ki <= End(v.t, v.n) && StackOk(v.stack, v.prefix)
    && forall j :: 0 <= j < v.ki ==> Passed(v.t, v.ikey, v.len, j)
  }

  // the layer is done
  ghost predicate UpOk(v: Spot) {
    WF(v.t) && StackOk(v.stack, v.prefix) && forall j :: 0 <= j < |v.t.entries| ==> Passed(v.t, v.ikey, v.len, j)
  }

  // the layer is new; the prefix goes down to it
  ghost predicate DownOk(v: Spot) { WF(v.t) && !HasEmpty(v.t) && StackOk(v.stack, v.prefix) }

  // what is still to be delivered, and how many entries that is
  ghost function RestAt(t: Tree, stack: seq<Frame>, prefix: Str, ikey: nat, len: nat): seq<(Str, Value)> {
    Here(t, prefix, ikey, len) + Above(stack, prefix)
  }
  ghost function BelowAt(t: Tree, stack: seq<Frame>, prefix: Str): seq<(Str, Value)>
  { Items(t, 0, prefix) + Above(stack, prefix) }
  ghost function LoadAt(t: Tree, stack: seq<Frame>, prefix: Str, ikey: nat, len: nat): nat {
    Weight(t, Next(t, ikey, len, 0)) + AboveWeight(stack, prefix)
  }
  ghost function LoadBelowAt(t: Tree, stack: seq<Frame>, prefix: Str): nat { Weight(t, 0) + AboveWeight(stack, prefix) }

  ghost function Rest(v: Spot): seq<(Str, Value)> { RestAt(v.t, v.stack, v.prefix, v.ikey, v.len) }
  ghost function RestBelow(v: Spot): seq<(Str, Value)> { BelowAt(v.t, v.stack, v.prefix) }
  ghost function Load(v: Spot): nat { LoadAt(v.t, v.stack, v.prefix, v.ikey, v.len) }
  ghost function LoadBelow(v: Spot): nat { LoadBelowAt(v.t, v.stack, v.prefix) }

  lemma Inside(v: Spot)
    requires MoreOk(v)
    ensures v.n < |v.t.starts| && v.t.starts[v.n] <= v.ki <= End(v.t, v.n) <= |v.t.entries|
    ensures v.ki < |v.t.entries| ==> EntryFits(v.t.entries[v.ki])
  {
    EndOk(v.t, v.n);
    if v.ki < |v.t.entries| { EntryOk(v.t, v.ki); }
  }

  predicate EntryFits(e: Entry) {
    |e.bytes| <= SLICE && (!e.Short? ==> |e.bytes| == SLICE) && (e.Long? ==> e.suffix != [])
  }

  lemma SkipStep(v: Spot)
    requires MoreOk(v) && v.ki < End(v.t, v.n) && Passed(v.t, v.ikey, v.len, v.ki)
    ensures MoreOk(v.(ki := v.ki + 1))
  { hide WF; hide StackOk; hide Passed; }

  lemma AdvanceStep(v: Spot)
    requires MoreOk(v) && v.ki == End(v.t, v.n) && v.n + 1 < |v.t.starts|
    ensures v.t.starts[v.n + 1] <= |v.t.entries| && MoreOk(v.(n := v.n + 1, ki := Place(v.t, v.n + 1, v.ikey, v.len)))
  {
    EndOk(v.t, v.n + 1);
    hide WF; hide StackOk; hide Passed; hide Place;
    PlaceOk(v.t, v.n + 1, v.ikey, v.len);
  }

  lemma LastStep(v: Spot)
    requires MoreOk(v) && v.ki == End(v.t, v.n) && v.n + 1 == |v.t.starts|
    ensures UpOk(v)
  { }

  lemma FindStep(v: Spot)
    requires WF(v.t) && StackOk(v.stack, v.prefix) && v.n < |v.t.starts| && v.t.bounds[v.n] <= v.ikey
    ensures v.t.starts[v.n] <= |v.t.entries| && MoreOk(v.(ki := Place(v.t, v.n, v.ikey, v.len)))
  {
    EndOk(v.t, v.n);
    EarlierLeaves(v.t, v.n, v.ikey, v.len);
    hide WF; hide StackOk; hide Passed; hide Place;
    PlaceOk(v.t, v.n, v.ikey, v.len);
  }

  lemma EmitStep(v: Spot, len: nat)
    requires MoreOk(v) && v.ki < End(v.t, v.n) && v.ki < |v.t.entries| && !Passed(v.t, v.ikey, v.len, v.ki)
    requires !v.t.entries[v.ki].Sub? && len == |KeyOf(v.t.entries[v.ki])|
    ensures var e := v.t.entries[v.ki]; var w := v.(ikey := Ikey(e), len := len);
      MoreOk(w.(ki := v.ki + 1)) && Rest(v) == [(v.prefix + KeyOf(e), e.value)] + Rest(w) && Load(v) == 1 + Load(w)
  {
    hide WF; hide StackOk; hide Passed; hide Items; hide Weight; hide Next; hide Above; hide AboveWeight; hide Ikey;
    hide Compare;
    Turn(v.t, v.ki, v.ikey, v.len);
    Emitted(v.t, v.ki, v.prefix, len, Above(v.stack, v.prefix));
  }

  lemma DownStep(v: Spot)
    requires MoreOk(v) && v.ki < End(v.t, v.n) && v.ki < |v.t.entries| && !Passed(v.t, v.ikey, v.len, v.ki)
      && v.t.entries[v.ki].Sub?
    ensures var e := v.t.entries[v.ki];
      var w := v.(t := e.layer, stack := v.stack + [(v.t, v.n)], prefix := v.prefix + e.bytes);
      DownOk(w) && Rest(v) == RestBelow(w) && Load(v) == 1 + LoadBelow(w)
  {
    hide WF; hide StackOk; hide Passed; hide Items; hide Weight; hide Next; hide Above; hide AboveWeight; hide Compare;
    hide HasEmpty;
    Turn(v.t, v.ki, v.ikey, v.len);
    Push(v.t, v.n, v.ki, v.prefix, v.stack);
  }

  lemma EnterStep(v: Spot)
    requires DownOk(v) && v.ikey == 0 && v.len == 0
    ensures Rest(v) == RestBelow(v) && Load(v) == LoadBelow(v)
  {
    hide WF; hide StackOk; hide Items; hide Weight; hide Next; hide Above; hide AboveWeight;
    Fresh(v.t);
  }

  lemma UpStep(v: Spot, below: seq<Frame>, t: Tree, n: nat, p: Str, b: Str)
    requires UpOk(v) && v.stack == below + [(t, n)] && v.prefix == p + b && |b| == SLICE
    ensures WF(t) && n < |t.starts| && t.starts[n] <= |t.entries|
    ensures var k := Slice(b); var w := Spot(t, n, Place(t, n, k, 9), below, p, k, 9);
      MoreOk(w) && Rest(w) == Rest(v) && Load(w) == Load(v)
  {
    LayerDone(v.t, v.prefix, v.ikey, v.len, Above(v.stack, v.prefix));
    hide Passed; hide Items; hide Weight; hide Next; hide Above; hide AboveWeight; hide Slice; hide StackOk;
    Pop(below, t, n, p, b);
    EndOk(t, n);
    hide WF; hide Place;
    PushAbove(t, n, p, b, below);
    PlaceOk(t, n, Slice(b), 9);
  }

  lemma DoneStep(v: Spot)
    requires UpOk(v) && v.stack == []
    ensures Rest(v) == []
  { LayerDone(v.t, v.prefix, v.ikey, v.len, Above(v.stack, v.prefix)); }

  // a scan that has to start at key s in the layer
  ghost predicate StartOk(v: Spot, s: Str)
  { WF(v.t) && StackOk(v.stack, v.prefix) && v.ikey == Slice(s) && v.len == |s| }
  ghost function DueAt(t: Tree, stack: seq<Frame>, prefix: Str, s: Str, emit: bool): seq<(Str, Value)> {
    From(Items(t, 0, prefix), prefix + s, emit) + Above(stack, prefix)
  }
  ghost function Due(v: Spot, s: Str, emit: bool): seq<(Str, Value)> { DueAt(v.t, v.stack, v.prefix, s, emit) }

  // the leaf and the place in it have been found
  ghost predicate Placed(v: Spot, s: Str) {
    && StartOk(v, s) && v.n < |v.t.starts| && v.t.starts[v.n] <= v.ki <= End(v.t, v.n) <= |v.t.entries|
    && v.ki == Lower(v.t, v.ikey, v.len, 0) && (forall j :: 0 <= j < v.ki ==> Passed(v.t, v.ikey, v.len, j))
    && (v.ki == End(v.t, v.n) < |v.t.entries| ==>
      Compare(v.ikey, v.len, Ikey(v.t.entries[v.ki]), Keylenx(v.t.entries[v.ki])) < 0)
  }

  lemma PlaceStep(v: Spot, s: Str)
    requires StartOk(v, s) && v.n < |v.t.starts| && v.t.bounds[v.n] <= v.ikey
      && (v.n + 1 < |v.t.starts| ==> v.ikey < v.t.bounds[v.n + 1])
    ensures v.t.starts[v.n] <= |v.t.entries| && Placed(v.(ki := Place(v.t, v.n, v.ikey, v.len)), s)
  {
    PlaceIsLower(v.t, v.n, v.ikey, v.len);
    EndOk(v.t, v.n);
  }

  ghost predicate Hit(v: Spot, s: Str)
  { Placed(v, s) && v.ki < End(v.t, v.n) && v.ki < |v.t.entries| && Matches(v.t, s, v.ki) }

  lemma MissStep(v: Spot, s: Str, emit: bool)
    requires Placed(v, s) && !Hit(v, s)
    ensures MoreOk(v) && Rest(v) == Due(v, s, emit)
  {
    InitialMiss(v.t, v.prefix, s, emit);
  }

  lemma HitShort(v: Spot, s: Str, emit: bool)
    requires Hit(v, s) && v.t.entries[v.ki].Short?
    ensures MoreOk(v.(ki := v.ki + 1))
      && Due(v, s, emit) == (if emit then [(v.prefix + s, v.t.entries[v.ki].value)] else []) + Rest(v)
  {
    hide WF; hide StackOk; hide Matches; hide Lower; hide Passed; hide Compare; hide Items; hide From; hide Next;
    hide Above; hide Slice;
    InitialShort(v.t, v.ki, v.prefix, s, emit, Above(v.stack, v.prefix));
  }

  lemma HitLong(v: Spot, s: Str, emit: bool)
    requires Hit(v, s) && v.t.entries[v.ki].Long?
    ensures var e := v.t.entries[v.ki]; |s| > SLICE && |e.bytes| == SLICE && s[..SLICE] == e.bytes
    ensures var e := v.t.entries[v.ki]; var w := v.(len := SLICE + |e.suffix|);
      if Less(s[SLICE..], e.suffix) || (emit && s[SLICE..] == e.suffix)
      then MoreOk(w.(ki := v.ki + 1)) && Due(v, s, emit) == [(v.prefix + e.bytes + e.suffix, e.value)] + Rest(w)
      else MoreOk(v.(ki := v.ki + 1)) && Due(v, s, emit) == Rest(v)
  {
    hide WF; hide StackOk; hide Matches; hide Lower; hide Passed; hide Compare; hide Items; hide From; hide Next;
    hide Above; hide Slice; hide Less;
    InitialLong(v.t, v.ki, v.prefix, s, emit, SLICE + |v.t.entries[v.ki].suffix|, Above(v.stack, v.prefix));
  }

  lemma HitSub(v: Spot, s: Str, emit: bool)
    requires Hit(v, s) && v.t.entries[v.ki].Sub?
    ensures |s| > SLICE
    ensures var e := v.t.entries[v.ki]; var r := s[SLICE..];
      var w := v.(t := e.layer, stack := v.stack + [(v.t, v.n)], prefix := v.prefix + s[..SLICE], ikey := Slice(r),
        len := |r|);
      StartOk(w, r) && Due(w, r, emit) == Due(v, s, emit)
  {
    hide WF; hide StackOk; hide Matches; hide Lower; hide Passed; hide Compare; hide Items; hide From; hide Above;
    hide Slice;
    InitialSub(v.t, v.n, v.ki, v.prefix, s, emit, v.stack);
    assert (v.prefix + s)[..|v.prefix| + SLICE] == v.prefix + s[..SLICE];
    assert v.prefix + s == v.prefix + s[..SLICE] + s[SLICE..];
  }

  // ---------- the scan ----------
  datatype State = Emit | More | Up | Down

  class Scanner {
    // the key buffer: shift is s_ - first_
    var buf: Str
    var shift: nat
    var ikey: nat
    var len: nat
    // the stack element: the layer, the leaf and the position in it, counted from the layer's first entry
    var root: Tree
    var n: nat
    var ki: nat
    var stack: seq<Frame>
    var entry: Value

    ghost function View(): Spot reads this {
      Spot(root, n, ki, stack, if shift <= |buf| then buf[..shift] else [], ikey, len)
    }
    ghost function ViewBelow(): Spot reads this
    { View().(prefix := if shift + SLICE <= |buf| then buf[..shift + SLICE] else []) }
    function FullString(): Str reads this { if shift + len <= |buf| then buf[..shift + len] else [] }

    ghost predicate Ready(state: State) reads this {
      && shift <= |buf|
      && match state
         case Emit => shift + len <= |buf| && MoreOk(View().(ki := ki + 1))
         case More => MoreOk(View())
         case Up => UpOk(View())
         case Down => shift + SLICE <= |buf| && DownOk(ViewBelow())
    }

    ghost function Pending(state: State): seq<(Str, Value)> reads this {
      match state
      case Emit => [(FullString(), entry)] + Rest(View())
      case Down => RestBelow(ViewBelow())
      case _ => Rest(View())
    }

    ghost function Left(state: State): nat reads this { if state.Down? then LoadBelow(ViewBelow()) else Load(View()) }

    ghost function Ahead(state: State): nat reads this {
      if state.Down? then |root.starts| + 1 else if n < |root.starts| then |root.starts| - n else 0
    }

    // the first key from the buffer's position on
    ghost predicate Starting(s: Str) reads this {
      shift + len <= |buf| && buf[shift..shift + len] == s && StartOk(View(), s)
    }

    constructor (t: Tree, first: Str)
      requires WF(t)
      ensures Starting(first) && View().t == t && View().prefix == [] && View().stack == []
    {
      hide WF; hide Slice;
      buf, shift, ikey, len := first, 0, Slice(first), |first|;
      root, n, ki, stack, entry := t, 0, 0, [], 0;
    }

    method ReachLeaf()
      requires WF(root)
      modifies `n
      ensures n < |root.starts| && root.bounds[n] <= ikey && (n + 1 < |root.starts| ==> ikey < root.bounds[n + 1])
    {
      n := 0;
      while n + 1 < |root.starts| && root.bounds[n + 1] <= ikey
        invariant n < |root.starts| && root.bounds[n] <= ikey
        decreases |root.starts| - n
      { n := n + 1; }
    }

    // key::assign_store_suffix
    method StoreSuffix(suffix: Str) returns (keylen: nat)
      requires shift <= |buf|
      modifies `buf
      ensures keylen == SLICE + |suffix| && shift + keylen <= |buf| && buf[shift + SLICE..shift + keylen] == suffix
        && View() == old(View())
      ensures shift + SLICE <= |old(buf)| ==> buf[..shift + keylen] == old(buf[..shift + SLICE]) + suffix
    {
      hide Store;
      StoreKeeps(buf, shift + SLICE, suffix, shift);
      if shift + SLICE <= |buf| { Stored(buf, shift + SLICE, suffix, buf[..shift + SLICE]); }
      buf := Store(buf, shift + SLICE, suffix);
      keylen := SLICE + |suffix|;
    }

    // the entry at the first key's place goes on with a suffix
    method InitialSuffix(emit: bool, ghost s: Str) returns (state: State)
      requires Starting(s) && Hit(View(), s) && root.entries[ki].Long?
      modifies `buf, `len, `entry, `ki
      ensures (state.Emit? || state.More?) && Ready(state) && Pending(state) == old(Due(View(), s, emit))
    {
      hide MoreOk; hide RestAt; hide DueAt; hide Less; hide StartOk; hide Slice;
      assert ki < |root.entries|;
      hide Hit;
      HitLong(View(), s, emit);
      var e, r := root.entries[ki], buf[shift + SLICE..shift + len];
      CutAt(buf, shift, s);
      if Less(r, e.suffix) || (emit && r == e.suffix) {
        len := StoreSuffix(e.suffix);
        entry := e.value;
        state := Emit;
      } else {
        ki := ki + 1;
        state := More;
      }
    }

    // it ends there
    method InitialEnd(emit: bool, ghost s: Str) returns (state: State)
      requires Starting(s) && Hit(View(), s) && root.entries[ki].Short?
      modifies `entry, `ki
      ensures (state.Emit? || state.More?) && Ready(state) && Pending(state) == old(Due(View(), s, emit))
    {
      hide MoreOk; hide RestAt; hide DueAt; hide StartOk; hide Slice;
      assert ki < |root.entries|;
      hide Hit;
      HitShort(View(), s, emit);
      if emit {
        assert buf[..shift + len] == buf[..shift] + s;
        entry := root.entries[ki].value;
        state := Emit;
      } else {
        ki := ki + 1;
        state := More;
      }
    }

    // the leaf and the place in it
    method Position(ghost s: Str)
      requires Starting(s)
      modifies `n, `ki
      ensures Starting(s) && Placed(View(), s)
    {
      hide Slice; hide Place; hide StackOk; hide Lower;
      ReachLeaf();
      PlaceStep(View(), s);
      ki := Place(root, n, ikey, len);
    }

    // find_initial; a result of Down comes with the key already shifted
    method FindInitial(emit: bool, ghost s: Str) returns (state: State)
      requires Starting(s)
      modifies this
      ensures state.Down? ==>
        |s| > SLICE && len == |s| - SLICE && Starting(s[SLICE..])
        && Due(View(), s[SLICE..], emit) == old(Due(View(), s, emit))
      ensures !state.Down? ==> !state.Up? && Ready(state) && Pending(state) == old(Due(View(), s, emit))
    {
      hide MoreOk; hide RestAt; hide DueAt; hide WF; hide StackOk; hide Lower; hide Slice; hide Passed;
      Position(s);
      if ki == End(root, n) || Compare(ikey, len, Ikey(root.entries[ki]), Keylenx(root.entries[ki])) != 0 {
        MissStep(View(), s, emit);
        return More;
      }
      var e := root.entries[ki];
      assert Hit(View(), s);
      hide Hit;
      if e.Short? { state := InitialEnd(emit, s); }
      else if e.Long? { state := InitialSuffix(emit, s); }
      else {
        HitSub(View(), s, emit);
        CutAt(buf, shift, s);
        stack := stack + [(root, n)];
        root := e.layer;
        Shift();
        state := Down;
      }
    }

    // key::shift
    method Shift()
      requires len > SLICE && shift + len <= |buf|
      modifies `shift, `len, `ikey
      ensures shift == old(shift) + SLICE && len == old(len) - SLICE && ikey == Slice(buf[shift..shift + len])
    {
      shift := shift + SLICE;
      len := len - SLICE;
      ikey := Slice(buf[shift..shift + len]);
    }

    // key::unshift
    method Unshift()
      requires SLICE <= shift <= |buf|
      modifies `shift, `ikey, `len
      ensures shift == old(shift) - SLICE && ikey == Slice(buf[shift..shift + SLICE]) && len == SLICE + 1
    {
      shift := shift - SLICE;
      ikey, len := Slice(buf[shift..shift + SLICE]), SLICE + 1;
    }

    // an entry that is no duplicate: its slice goes to the buffer, and the scan emits it or goes down
    method TakeEntry(keylen: nat) returns (state: State)
      requires Ready(More) && ki < End(root, n) && ki < |root.entries| && !Passed(root, ikey, len, ki)
      requires var e := root.entries[ki];
        if e.Long? then keylen == SLICE + |e.suffix| && shift + keylen <= |buf|
          && buf[shift + SLICE..shift + keylen] == e.suffix else keylen == Keylenx(e)
      modifies this
      ensures Ready(state) && Pending(state) == old(Pending(More)) && Left(state) < old(Left(More))
        && (state.Emit? || state.Down?)
    {
      hide MoreOk; hide RestAt; hide BelowAt; hide LoadAt; hide LoadBelowAt; hide WF; hide StackOk; hide HasEmpty;
      hide Passed; hide Store; hide Bytes; hide Ikey;
      Inside(View());
      var e := root.entries[ki];
      Written(buf, shift, e);
      if e.Sub? {
        DownStep(View());
        ikey := Ikey(e);
        buf := Store(buf, shift, Bytes(ikey, SLICE));
        stack := stack + [(root, n)];
        root := e.layer;
        state := Down;
      } else {
        EmitStep(View(), keylen);
        ikey := Ikey(e);
        buf := Store(buf, shift, Bytes(ikey, SLICE));
        len := keylen;
        entry := e.value;
        state := Emit;
      }
    }

    method FindNext() returns (state: State)
      requires Ready(More)
      modifies this
      ensures Ready(state) && Pending(state) == old(Pending(More))
      ensures if state.Emit? || state.Down? then Left(state) < old(Left(More)) else Left(state) == old(Left(More))
      ensures state.More? ==> root == old(root) && stack == old(stack) && old(n) < n < |root.starts|
      ensures state.Up? ==> root == old(root) && stack == old(stack) && n == old(n)
    {
      hide MoreOk; hide UpOk; hide RestAt; hide LoadAt; hide Compare; hide Store; hide Place; hide Above;
      Inside(View());
      while ki < End(root, n)
        invariant Ready(More) && View() == old(View()).(ki := ki) && ki <= End(root, n) <= |root.entries|
          && n < |root.starts|
        decreases End(root, n) - ki
      {
        var e := root.entries[ki];
        var keylen := Keylenx(e);
        if e.Long? {
          keylen := StoreSuffix(e.suffix);
        }
        if Compare(ikey, len, Ikey(e), Keylenx(e)) < 0 {
          state := TakeEntry(keylen);
          return;
        }
        SkipStep(View());
        ki := ki + 1;
      }
      if n + 1 == |root.starts| {
        LastStep(View());
        return Up;
      }
      AdvanceStep(View());
      n := n + 1;
      ki := Place(root, n, ikey, len);
      return More;
    }

    method NextAfterEmit() returns (state: State)
      requires Ready(Emit)
      modifies this
      ensures Ready(state) && [(old(FullString()), old(entry))] + Pending(state) == old(Pending(Emit))
      ensures if state.Emit? || state.Down? then Left(state) < old(Left(Emit)) else Left(state) == old(Left(Emit))
      ensures state.More? ==> root == old(root) && stack == old(stack) && old(n) < n < |root.starts|
      ensures state.Up? ==> root == old(root) && stack == old(stack) && n == old(n)
    {
      hide MoreOk; hide RestAt; hide LoadAt;
      ki := ki + 1;
      state := FindNext();
    }

    // key::shift_clear, then find_retry
    method GoDown()
      requires Ready(Down)
      modifies this
      ensures Ready(More) && Pending(More) == old(Pending(Down)) && Left(More) == old(Left(Down))
        && stack == old(stack) && root == old(root)
    {
      hide RestAt; hide BelowAt; hide LoadAt; hide LoadBelowAt; hide WF; hide StackOk; hide Place;
      ikey, len := 0, 0;
      shift := shift + SLICE;
      EnterStep(View());
      ReachLeaf();
      FindStep(View());
      ki := Place(root, n, ikey, len);
    }

    lemma Finished()
      requires Ready(Up) && stack == []
      ensures Pending(Up) == []
    { DoneStep(View()); }

    // Unshift leaves a length of nine, so the key is not empty and the source's loop goes round once.
    method GoUp()
      requires Ready(Up) && stack != []
      modifies this
      ensures Ready(More) && Pending(More) == old(Pending(Up)) && Left(More) == old(Left(Up)) && |stack| < |old(stack)|
    {
      hide WF; hide StackOk; hide Place; hide Slice; hide RestAt; hide LoadAt; hide MoreOk;
      ghost var v := View();
      UpFacts(stack, v.prefix);
      root, n := stack[|stack| - 1].0, stack[|stack| - 1].1;
      stack := stack[..|stack| - 1];
      Unshift();
      UpStep(v, stack, root, n, buf[..shift], buf[shift..shift + SLICE]);
      ki := Place(root, n, ikey, len);
    }
  }

  // the second loop of the scan
  method Deliver(sc: Scanner, first: State) returns (out: seq<(Str, Value)>)
    requires sc.Ready(first)
    modifies sc
    ensures out == old(sc.Pending(first))
  {
    hide Scanner.Ready; hide Scanner.Pending; hide Scanner.Left;
    out := [];
    var state := first;
    while true
      invariant sc.Ready(state) && out + sc.Pending(state) == old(sc.Pending(first))
      decreases sc.Left(state), |sc.stack|, sc.Ahead(state), Rank(state)
    {
      match state {
        case Emit =>
          var item := (sc.FullString(), sc.entry);
          ghost var before := out;
          out := out + [item];
          state := sc.NextAfterEmit();
          Cat(before, [item], sc.Pending(state));
        case More =>
          state := sc.FindNext();
        case Up =>
          if sc.stack == [] { sc.Finished(); break; }
          sc.GoUp();
          state := sc.FindNext();
        case Down =>
          sc.GoDown();
          state := More;
      }
    }
  }

  // The scan. It delivers exactly the items at or after the first key, or those after it, each once and in order.
  method Run(t: Tree, first: Str, emit: bool) returns (out: seq<(Str, Value)>)
    requires WF(t)
    ensures out == From(Items(t, 0, []), first, emit)
  {
    hide WF; hide From; hide Items; hide Slice; hide StartOk; hide MoreOk; hide UpOk; hide RestAt;
    ghost var all, s := From(Items(t, 0, []), first, emit), first;
    var sc := new Scanner(t, first);
    assert Due(sc.View(), first, emit) == all by { assert [] + first == first; }
    var state := sc.FindInitial(emit, s);
    while state.Down?
      invariant fresh(sc)
      invariant state.Down? ==> |s| > SLICE && sc.Starting(s[SLICE..]) && Due(sc.View(), s[SLICE..], emit) == all
      invariant !state.Down? ==> !state.Up? && sc.Ready(state) && sc.Pending(state) == all
      decreases if state.Down? then 1 else 0, |s|
    {
      s := s[SLICE..];
      state := sc.FindInitial(emit, s);
    }
    out := Deliver(sc, state);
  }

  function Rank(s: State): nat { match s case Up => 0 case More => 1 case Emit => 2 case Down => 3 }

  // In words: the output is a tail of the stored items, in strictly ascending byte order, and an item is in it exactly
  // when its key is at or after the first key.
  lemma ScanMeans(t: Tree, first: Str, emit: bool, out: seq<(Str, Value)>) returns (i: nat)
    requires WF(t) && out == From(Items(t, 0, []), first, emit)
    ensures Ascending(out)
    ensures var q := Items(t, 0, []);
      && i <= |q| && out == q[i..]
      && forall x :: 0 <= x < |q| ==> (x >= i <==> Less(first, q[x].0) || (emit && q[x].0 == first))
  {
    ItemsAscend(t, 0, []);
    i := FromIsTail(Items(t, 0, []), first, emit);
  }
}
