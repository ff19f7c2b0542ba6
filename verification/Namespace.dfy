// The directory namespace: every directory is a layer of its own, found through an edge in its parent's layer. The slot
// of a name is the hash of that one component; a directory's name and inode are in the metadata of its layer root.
module Namespace {
  import opened Options

  type Id = nat
  type Path = seq<string>
  type Ref = nat

  const MAX_NAME: nat := 63
  const WIDTH: nat := 7     // entries of a leaf

  // current: the edge's pointer is the layer's present root. It stops being so when the root splits or collapses;
  // readers then go on from the old root to the present one.
  datatype Slot = Layer(id: Id, current: bool) | Value(name: string, ref: Ref)
  datatype Meta = Meta(ref: Ref, hash: nat, name: string)
  datatype Dir = Dir(slots: map<nat, Slot>, meta: Option<Meta>)
  type Dirs = map<Id, Dir>

  datatype Entry = Entry(dir: bool, name: string, ref: Ref)

  const ROOT: Id := 0

  // distinct names never share a component hash
  ghost predicate Injective(h: string -> nat) { forall a, b :: h(a) == h(b) ==> a == b }

  function Front(p: Path): Path requires p != [] { p[..|p| - 1] }
  function Last(p: Path): string requires p != [] { p[|p| - 1] }

  predicate Edge(d: Dirs, x: Id, k: nat) { x in d && k in d[x].slots && d[x].slots[k].Layer? }

  ghost predicate EdgeOk(d: Dirs, x: Id, k: nat) {
    Edge(d, x, k) ==>
      var c := d[x].slots[k].id;
      c in d && c != ROOT && d[c].meta.Some? && k == d[c].meta.value.hash
  }
  ghost predicate MetaOk(d: Dirs, h: string -> nat, x: Id) {
    x in d && d[x].meta.Some? ==> d[x].meta.value.hash == h(d[x].meta.value.name)
  }
  ghost predicate ValueOk(d: Dirs, h: string -> nat, x: Id, k: nat) {
    x in d && k in d[x].slots && d[x].slots[k].Value? ==> k == h(d[x].slots[k].name)
  }
  ghost predicate OneEdge(d: Dirs, x: Id, k: nat, y: Id, l: nat) {
    Edge(d, x, k) && Edge(d, y, l) && d[x].slots[k].id == d[y].slots[l].id ==> x == y && k == l
  }

  ghost predicate WF(d: Dirs, h: string -> nat) {
    && ROOT in d
    && (forall x, k :: EdgeOk(d, x, k))
    && (forall x :: MetaOk(d, h, x))
    && (forall x, k :: ValueOk(d, h, x, k))
    && (forall x, k, y, l :: OneEdge(d, x, k, y, l))
  }

  // ---------- lookup ----------
  function Step(d: Dirs, x: Id, k: nat): Option<Id> { if Edge(d, x, k) then Some(d[x].slots[k].id) else None }

  // locate_directory_root: by hashes alone
  function Locate(d: Dirs, h: string -> nat, from: Id, p: Path): Option<Id>
    decreases |p|
  {
    if p == [] then Some(from)
    else
      match Step(d, from, h(p[0]))
      case None => None
      case Some(c) => Locate(d, h, c, p[1..])
  }

  function Child(d: Dirs, h: string -> nat, x: Id, name: string): Option<Entry> {
    if x !in d || h(name) !in d[x].slots then None
    else
      match d[x].slots[h(name)]
      case Layer(c, _) =>
        if c in d && d[c].meta.Some? && d[c].meta.value.name == name then Some(Entry(true, name, d[c].meta.value.ref))
        else None
      case Value(n, ref) => if n == name then Some(Entry(false, n, ref)) else None
  }

  function Lookup(d: Dirs, h: string -> nat, p: Path): Option<Entry> {
    if p == [] then Some(Entry(true, "/", 0))
    else
      match Locate(d, h, ROOT, Front(p))
      case None => None
      case Some(x) => Child(d, h, x, Last(p))
  }

  ghost predicate IsDir(d: Dirs, h: string -> nat, p: Path) { Lookup(d, h, p).Some? && Lookup(d, h, p).value.dir }

  lemma {:induction false} LocateJoin(d: Dirs, h: string -> nat, from: Id, p: Path, q: Path)
    ensures Locate(d, h, from, p + q) ==
      (match Locate(d, h, from, p) case None => None case Some(x) => Locate(d, h, x, q))
    decreases |p|
  {
    if p == [] { assert p + q == q; }
    else {
      assert (p + q)[1..] == p[1..] + q;
      match Step(d, from, h(p[0]))
      case None =>
      case Some(c) => LocateJoin(d, h, c, p[1..], q);
    }
  }

  lemma LocateLast(d: Dirs, h: string -> nat, from: Id, p: Path)
    requires p != []
    ensures Locate(d, h, from, p) ==
      (match Locate(d, h, from, Front(p)) case None => None case Some(x) => Step(d, x, h(Last(p))))
  {
    assert p == Front(p) + [Last(p)];
    LocateJoin(d, h, from, Front(p), [Last(p)]);
    assert [Last(p)][1..] == [];
  }

  lemma {:induction false} LocateIn(d: Dirs, h: string -> nat, from: Id, p: Path)
    requires WF(d, h) && from in d && Locate(d, h, from, p).Some?
    ensures Locate(d, h, from, p).value in d
    decreases |p|
  {
    if p != [] {
      assert EdgeOk(d, from, h(p[0]));
      LocateIn(d, h, Step(d, from, h(p[0])).value, p[1..]);
    }
  }

  // a directory is at one path only
  lemma {:induction false} UniquePath(d: Dirs, h: string -> nat, p: Path, q: Path)
    requires WF(d, h) && Injective(h) && Locate(d, h, ROOT, p).Some? && Locate(d, h, ROOT, p) == Locate(d, h, ROOT, q)
    ensures p == q
    decreases |p|
  {
    BelowRoot(d, h, p);
    BelowRoot(d, h, q);
    if p != [] { LocateLast(d, h, ROOT, p); }
    if q != [] { LocateLast(d, h, ROOT, q); }
    if p != [] && q != [] {
      var x, y := Locate(d, h, ROOT, Front(p)).value, Locate(d, h, ROOT, Front(q)).value;
      assert OneEdge(d, x, h(Last(p)), y, h(Last(q)));
      UniquePath(d, h, Front(p), Front(q));
      assert p == Front(p) + [Last(p)] && q == Front(q) + [Last(q)];
    }
  }

  lemma BelowRoot(d: Dirs, h: string -> nat, p: Path)
    requires WF(d, h)
    ensures p != [] ==> Locate(d, h, ROOT, p) != Some(ROOT)
  {
    if p != [] {
      LocateLast(d, h, ROOT, p);
      var r := Locate(d, h, ROOT, Front(p));
      if r.Some? { assert EdgeOk(d, r.value, h(Last(p))); }
    }
  }

  // hashes alone lead to a directory exactly when names do
  lemma LocateIsDir(d: Dirs, h: string -> nat, p: Path)
    requires WF(d, h) && Injective(h)
    ensures Locate(d, h, ROOT, p).Some? <==> IsDir(d, h, p)
  {
    if p != [] {
      LocateLast(d, h, ROOT, p);
      var r := Locate(d, h, ROOT, Front(p));
      if r.Some? {
        assert EdgeOk(d, r.value, h(Last(p)));
        if Edge(d, r.value, h(Last(p))) { assert MetaOk(d, h, d[r.value].slots[h(Last(p))].id); }
      }
    }
  }

  // a slot in a directory is in use exactly when there is an entry of that name
  lemma SlotIsEntry(d: Dirs, h: string -> nat, p: Path)
    requires WF(d, h) && Injective(h) && p != [] && Locate(d, h, ROOT, Front(p)).Some?
    ensures var x := Locate(d, h, ROOT, Front(p)).value; x in d && (h(Last(p)) in d[x].slots <==> Lookup(d, h, p).Some?)
  {
    var x, k := Locate(d, h, ROOT, Front(p)).value, h(Last(p));
    LocateIn(d, h, ROOT, Front(p));
    assert EdgeOk(d, x, k) && ValueOk(d, h, x, k);
    if Edge(d, x, k) { assert MetaOk(d, h, d[x].slots[k].id); }
  }

  // In every state, the parent of an entry is a directory.
  lemma ParentIsDir(d: Dirs, h: string -> nat, p: Path)
    requires WF(d, h) && Injective(h) && p != [] && Lookup(d, h, p).Some?
    ensures IsDir(d, h, Front(p))
  { LocateIsDir(d, h, Front(p)); }

  // ---------- one slot changes ----------
  // e differs from d in slot (y, k), in directories that d does not have, and in which edges are current
  ghost predicate SameSlot(a: Slot, b: Slot) { a == b || (a.Layer? && b.Layer? && a.id == b.id) }

  ghost predicate SameAt(d: Dirs, e: Dirs, x: Id, k: nat) {
    x in d ==> x in e && e[x].meta == d[x].meta && (k in d[x].slots <==> k in e[x].slots)
               && (k in d[x].slots ==> SameSlot(d[x].slots[k], e[x].slots[k]))
  }

  ghost predicate SameBut(d: Dirs, e: Dirs, y: Id, k: nat) {
    && (forall x: Id, l: nat :: (x, l) != (y, k) ==> SameAt(d, e, x, l))
    && (forall x :: x in d ==> x in e && e[x].meta == d[x].meta)
  }

  lemma {:induction false} LocateAway(d: Dirs, e: Dirs, h: string -> nat, from: Id, p: Path, y: Id, k: nat)
    requires WF(d, h) && from in d && SameBut(d, e, y, k)
    requires forall i :: 0 <= i < |p| && Locate(d, h, from, p[..i]) == Some(y) ==> h(p[i]) != k
    ensures Locate(e, h, from, p) == Locate(d, h, from, p)
    decreases |p|
  {
    if p != [] {
      var q := Front(p);
      forall i | 0 <= i < |q| && Locate(d, h, from, q[..i]) == Some(y) ensures h(q[i]) != k { assert q[..i] == p[..i]; }
      LocateAway(d, e, h, from, q, y, k);
      LocateLast(d, h, from, p);
      LocateLast(e, h, from, p);
      if Locate(d, h, from, q).Some? {
        LocateIn(d, h, from, q);
        assert SameAt(d, e, Locate(d, h, from, q).value, h(Last(p)));
      }
    }
  }

  // paths that do not go through the slot of path w
  lemma PathAway(d: Dirs, e: Dirs, h: string -> nat, w: Path, y: Id, p: Path)
    requires WF(d, h) && Injective(h) && w != [] && Locate(d, h, ROOT, Front(w)) == Some(y)
      && SameBut(d, e, y, h(Last(w))) && !(w <= p)
    ensures Locate(e, h, ROOT, p) == Locate(d, h, ROOT, p)
  {
    assert w == Front(w) + [Last(w)];
    forall i | 0 <= i < |p| && Locate(d, h, ROOT, p[..i]) == Some(y) ensures h(p[i]) != h(Last(w)) {
      UniquePath(d, h, p[..i], Front(w));
      assert p[..i + 1] == p[..i] + [p[i]];
    }
    LocateAway(d, e, h, ROOT, p, y, h(Last(w)));
  }

  lemma LookupAway(d: Dirs, e: Dirs, h: string -> nat, w: Path, y: Id, p: Path)
    requires WF(d, h) && Injective(h) && w != [] && Locate(d, h, ROOT, Front(w)) == Some(y)
      && SameBut(d, e, y, h(Last(w))) && !(w <= p)
    ensures Lookup(e, h, p) == Lookup(d, h, p)
  {
    if p != [] {
      assert p == Front(p) + [Last(p)] && w == Front(w) + [Last(w)];
      PathAway(d, e, h, w, y, Front(p));
      if Locate(d, h, ROOT, Front(p)).Some? {
        var x := Locate(d, h, ROOT, Front(p)).value;
        LocateIn(d, h, ROOT, Front(p));
        if x == y && h(Last(p)) == h(Last(w)) { UniquePath(d, h, Front(p), Front(w)); }
        ChildAway(d, e, h, x, Last(p), y, h(Last(w)));
      }
    }
  }

  lemma ChildAway(d: Dirs, e: Dirs, h: string -> nat, x: Id, a: string, y: Id, k: nat)
    requires WF(d, h) && x in d && SameBut(d, e, y, k) && (x, h(a)) != (y, k)
    ensures Child(e, h, x, a) == Child(d, h, x, a)
  {
    assert SameAt(d, e, x, h(a));
    assert EdgeOk(d, x, h(a));
  }

  // ---------- adding a slot ----------
  // e is d with an entry at path w
  ghost predicate Added(d: Dirs, e: Dirs, h: string -> nat, w: Path, entry: Entry) {
    forall p :: Lookup(e, h, p) == if p == w then Some(entry) else Lookup(d, h, p)
  }

  ghost predicate Dropped(d: Dirs, e: Dirs, h: string -> nat, w: Path) {
    forall p :: Lookup(e, h, p) == if p == w then None else Lookup(d, h, p)
  }

  function WithSlot(d: Dirs, x: Id, k: nat, s: Slot): Dirs
    requires x in d
  { d[x := d[x].(slots := d[x].slots[k := s])] }

  function WithoutSlot(d: Dirs, x: Id, k: nat): Dirs
    requires x in d
  { d[x := d[x].(slots := d[x].slots - {k})] }

  function WithDir(d: Dirs, c: Id, meta: Meta): Dirs { d[c := Dir(map[], Some(meta))] }

  lemma SlotSame(d: Dirs, x: Id, k: nat, s: Slot)
    requires x in d
    ensures SameBut(d, WithSlot(d, x, k, s), x, k) && SameBut(d, WithoutSlot(d, x, k), x, k)
  { }

  lemma DirSame(d: Dirs, x: Id, k: nat, c: Id, meta: Meta)
    requires x in d && c !in d
    ensures var e := WithSlot(WithDir(d, c, meta), x, k, Layer(c, true));
      SameBut(d, e, x, k) && c in e && e[c] == Dir(map[], Some(meta))
  { }

  // nothing is below a path without an entry, a file, or an empty directory
  lemma NothingBelow(d: Dirs, h: string -> nat, w: Path, p: Path)
    requires w <= p && p != w && w != []
    requires match Locate(d, h, ROOT, w) case None => true case Some(c) => c !in d || d[c].slots == map[]
    ensures Lookup(d, h, p) == None
  {
    var s := p[|w|..];
    assert p == w + s && Front(p) == w + Front(s) && Last(p) == Last(s);
    LocateJoin(d, h, ROOT, w, Front(s));
    match Locate(d, h, ROOT, w)
    case None =>
    case Some(c) => if Front(s) != [] { assert Step(d, c, h(Front(s)[0])) == None; }
  }

  lemma AddFile(d: Dirs, h: string -> nat, w: Path, ref: Ref)
    requires WF(d, h) && Injective(h) && w != [] && IsDir(d, h, Front(w)) && Lookup(d, h, w) == None
    ensures Locate(d, h, ROOT, Front(w)).Some? && Locate(d, h, ROOT, Front(w)).value in d
    ensures var e := WithSlot(d, Locate(d, h, ROOT, Front(w)).value, h(Last(w)), Value(Last(w), ref));
      WF(e, h) && Added(d, e, h, w, Entry(false, Last(w), ref))
  {
    LocateIsDir(d, h, Front(w));
    SlotIsEntry(d, h, w);
    var x, k := Locate(d, h, ROOT, Front(w)).value, h(Last(w));
    var e := WithSlot(d, x, k, Value(Last(w), ref));
    SlotSame(d, x, k, Value(Last(w), ref));
    FileWF(d, h, x, k, Value(Last(w), ref));
    hide WF; hide Injective;
    PathAway(d, e, h, w, x, Front(w));
    LocateLast(e, h, ROOT, w);
    LocateLast(d, h, ROOT, w);
    forall p ensures Lookup(e, h, p) == if p == w then Some(Entry(false, Last(w), ref)) else Lookup(d, h, p) {
      if !(w <= p) { LookupAway(d, e, h, w, x, p); }
      else if p != w {
        NothingBelow(d, h, w, p);
        NothingBelow(e, h, w, p);
      }
    }
  }

  lemma FileWF(d: Dirs, h: string -> nat, x: Id, k: nat, s: Slot)
    requires WF(d, h) && x in d && s.Value? && h(s.name) == k && k !in d[x].slots
    ensures WF(WithSlot(d, x, k, s), h)
  {
    var e := WithSlot(d, x, k, s);
    forall y, l ensures EdgeOk(e, y, l) && ValueOk(e, h, y, l) { assert EdgeOk(d, y, l) && ValueOk(d, h, y, l); }
    forall y ensures MetaOk(e, h, y) { assert MetaOk(d, h, y); }
    forall y, l, z, m ensures OneEdge(e, y, l, z, m) { assert OneEdge(d, y, l, z, m); }
  }

  lemma AddDir(d: Dirs, h: string -> nat, w: Path, c: Id, ref: Ref)
    requires WF(d, h) && Injective(h) && w != [] && IsDir(d, h, Front(w)) && Lookup(d, h, w) == None && c !in d
    ensures Locate(d, h, ROOT, Front(w)).Some? && Locate(d, h, ROOT, Front(w)).value in d
    ensures var e := WithSlot(WithDir(d, c, Meta(ref, h(Last(w)), Last(w))), Locate(d, h, ROOT, Front(w)).value,
      h(Last(w)), Layer(c, true));
      WF(e, h) && Added(d, e, h, w, Entry(true, Last(w), ref))
  {
    LocateIsDir(d, h, Front(w));
    SlotIsEntry(d, h, w);
    var x, k := Locate(d, h, ROOT, Front(w)).value, h(Last(w));
    var meta := Meta(ref, k, Last(w));
    var e := WithSlot(WithDir(d, c, meta), x, k, Layer(c, true));
    DirSame(d, x, k, c, meta);
    DirWF(d, h, x, k, c, meta);
    hide WF; hide Injective;
    PathAway(d, e, h, w, x, Front(w));
    LocateLast(e, h, ROOT, w);
    LocateLast(d, h, ROOT, w);
    forall p ensures Lookup(e, h, p) == if p == w then Some(Entry(true, Last(w), ref)) else Lookup(d, h, p) {
      if !(w <= p) { LookupAway(d, e, h, w, x, p); }
      else if p != w {
        NothingBelow(d, h, w, p);
        NothingBelow(e, h, w, p);
      }
    }
  }

  lemma DirWF(d: Dirs, h: string -> nat, x: Id, k: nat, c: Id, meta: Meta)
    requires WF(d, h) && x in d && c !in d && k !in d[x].slots && meta.hash == k == h(meta.name)
    ensures WF(WithSlot(WithDir(d, c, meta), x, k, Layer(c, true)), h)
  {
    var e := WithSlot(WithDir(d, c, meta), x, k, Layer(c, true));
    forall y, l ensures EdgeOk(e, y, l) && ValueOk(e, h, y, l) { assert EdgeOk(d, y, l) && ValueOk(d, h, y, l); }
    forall y ensures MetaOk(e, h, y) { assert MetaOk(d, h, y); }
    forall y, l, z, m ensures OneEdge(e, y, l, z, m)
    { assert OneEdge(d, y, l, z, m) && EdgeOk(d, y, l) && EdgeOk(d, z, m); }
  }

  // ---------- removing a slot ----------
  lemma DropWF(d: Dirs, h: string -> nat, x: Id, k: nat)
    requires WF(d, h) && x in d
    ensures WF(WithoutSlot(d, x, k), h)
  {
    var e := WithoutSlot(d, x, k);
    forall y, l ensures EdgeOk(e, y, l) && ValueOk(e, h, y, l) { assert EdgeOk(d, y, l) && ValueOk(d, h, y, l); }
    forall y ensures MetaOk(e, h, y) { assert MetaOk(d, h, y); }
    forall y, l, z, m ensures OneEdge(e, y, l, z, m) { assert OneEdge(d, y, l, z, m); }
  }

  // everything at and below the path is gone, and nothing else is
  lemma DropSlot(d: Dirs, h: string -> nat, w: Path)
    requires WF(d, h) && Injective(h) && w != [] && Locate(d, h, ROOT, Front(w)).Some?
    ensures Locate(d, h, ROOT, Front(w)).value in d
    ensures var e := WithoutSlot(d, Locate(d, h, ROOT, Front(w)).value, h(Last(w)));
      WF(e, h) && forall p :: Lookup(e, h, p) == if w <= p then None else Lookup(d, h, p)
  {
    LocateIn(d, h, ROOT, Front(w));
    var x, k := Locate(d, h, ROOT, Front(w)).value, h(Last(w));
    var e := WithoutSlot(d, x, k);
    SlotSame(d, x, k, Value(Last(w), 0));
    DropWF(d, h, x, k);
    hide WF; hide Injective;
    PathAway(d, e, h, w, x, Front(w));
    LocateLast(e, h, ROOT, w);
    forall p ensures Lookup(e, h, p) == if w <= p then None else Lookup(d, h, p) {
      if !(w <= p) { LookupAway(d, e, h, w, x, p); }
      else if p != w { NothingBelow(e, h, w, p); }
    }
  }

  // a path that can be removed: a file, or a directory with nothing in it
  ghost predicate Removable(d: Dirs, h: string -> nat, w: Path) {
    w != [] && Lookup(d, h, w).Some? && forall p :: w <= p && p != w ==> Lookup(d, h, p) == None
  }

  lemma RemoveEntry(d: Dirs, h: string -> nat, w: Path)
    requires WF(d, h) && Injective(h) && Removable(d, h, w) && Locate(d, h, ROOT, Front(w)).Some?
    ensures Locate(d, h, ROOT, Front(w)).value in d
    ensures var e := WithoutSlot(d, Locate(d, h, ROOT, Front(w)).value, h(Last(w))); WF(e, h) && Dropped(d, e, h, w)
  {
    DropSlot(d, h, w);
  }

  // the code's test for a removable path
  lemma RemovableIff(d: Dirs, h: string -> nat, w: Path)
    requires WF(d, h) && Injective(h) && w != [] && Lookup(d, h, w).Some?
    ensures Removable(d, h, w) <==>
      (!Lookup(d, h, w).value.dir
      || (Locate(d, h, ROOT, w).Some? && Locate(d, h, ROOT, w).value in d
      && d[Locate(d, h, ROOT, w).value].slots == map[]))
  {
    LocateIsDir(d, h, w);
    if IsDir(d, h, w) { LocateIn(d, h, ROOT, w); }
    if !IsDir(d, h, w) || d[Locate(d, h, ROOT, w).value].slots == map[] {
      forall p | w <= p && p != w ensures Lookup(d, h, p) == None { NothingBelow(d, h, w, p); }
    } else {
      var c := Locate(d, h, ROOT, w).value;
      var k :| k in d[c].slots;
      assert EdgeOk(d, c, k) && ValueOk(d, h, c, k);
      var a := if d[c].slots[k].Value? then d[c].slots[k].name else d[d[c].slots[k].id].meta.value.name;
      assert h(a) == k by { if d[c].slots[k].Layer? { assert MetaOk(d, h, d[c].slots[k].id); } }
      var p := w + [a];
      assert Front(p) == w && Last(p) == a;
      SlotIsEntry(d, h, p);
    }
  }

  // ---------- moving a directory ----------
  function WithMeta(d: Dirs, c: Id, m: Meta): Dirs
    requires c in d
  { d[c := d[c].(meta := Some(m))] }

  // below a directory
  ghost function LookupFrom(d: Dirs, h: string -> nat, from: Id, s: Path): Option<Entry>
    requires s != []
  { match Locate(d, h, from, Front(s)) case None => None case Some(x) => Child(d, h, x, Last(s)) }

  lemma LookupJoin(d: Dirs, h: string -> nat, w: Path, s: Path)
    requires s != []
    ensures Lookup(d, h, w + s) ==
      (match Locate(d, h, ROOT, w) case None => None case Some(c) => LookupFrom(d, h, c, s))
  {
    assert Front(w + s) == w + Front(s) && Last(w + s) == Last(s);
    LocateJoin(d, h, ROOT, w, Front(s));
  }

  ghost predicate Unreachable(d: Dirs, h: string -> nat, c: Id, y: Id) { forall q :: Locate(d, h, c, q) != Some(y) }
  ghost predicate NoEdge(d: Dirs, c: Id) { forall x, k :: Edge(d, x, k) ==> d[x].slots[k].id != c }

  lemma OutOfSubtree(d: Dirs, h: string -> nat, w: Path, c: Id, v: Path, y: Id)
    requires WF(d, h) && Injective(h) && Locate(d, h, ROOT, w) == Some(c) && Locate(d, h, ROOT, v) == Some(y)
      && !(w <= v)
    ensures Unreachable(d, h, c, y)
  {
    forall q ensures Locate(d, h, c, q) != Some(y) {
      LocateJoin(d, h, ROOT, w, q);
      if Locate(d, h, c, q) == Some(y) { UniquePath(d, h, w + q, v); }
    }
  }

  // a subtree does not notice a change in a slot outside it
  lemma SubtreeAway(d: Dirs, e: Dirs, h: string -> nat, c: Id, y: Id, k: nat, s: Path)
    requires WF(d, h) && c in d && SameBut(d, e, y, k) && Unreachable(d, h, c, y) && s != []
    ensures LookupFrom(e, h, c, s) == LookupFrom(d, h, c, s) && Locate(e, h, c, s) == Locate(d, h, c, s)
    ensures Locate(e, h, c, s) != Some(y)
  {
    LocateAway(d, e, h, c, s, y, k);
    LocateAway(d, e, h, c, Front(s), y, k);
    if Locate(d, h, c, Front(s)).Some? {
      LocateIn(d, h, c, Front(s));
      ChildAway(d, e, h, Locate(d, h, c, Front(s)).value, Last(s), y, k);
    }
  }

  // metadata of a directory that no edge leads to
  lemma {:induction false} MetaLocate(d: Dirs, h: string -> nat, c: Id, m: Meta, from: Id, p: Path)
    requires c in d
    ensures Locate(WithMeta(d, c, m), h, from, p) == Locate(d, h, from, p)
    decreases |p|
  {
    if p != [] {
      var r := Step(d, from, h(p[0]));
      assert Step(WithMeta(d, c, m), from, h(p[0])) == r;
      if r.Some? { MetaLocate(d, h, c, m, r.value, p[1..]); }
    }
  }

  lemma MetaUnreachable(d: Dirs, h: string -> nat, c: Id, m: Meta, y: Id)
    requires c in d && Unreachable(d, h, c, y)
    ensures Unreachable(WithMeta(d, c, m), h, c, y)
  { forall q ensures Locate(WithMeta(d, c, m), h, c, q) != Some(y) { MetaLocate(d, h, c, m, c, q); } }

  lemma MetaFree(d: Dirs, h: string -> nat, c: Id, m: Meta)
    requires WF(d, h) && c in d && NoEdge(d, c) && m.hash == h(m.name)
    ensures var e := WithMeta(d, c, m);
      && WF(e, h) && NoEdge(e, c) && (forall p :: Lookup(e, h, p) == Lookup(d, h, p))
      && (forall from, s: Path | s != [] :: LookupFrom(e, h, from, s) == LookupFrom(d, h, from, s))
  {
    var e := WithMeta(d, c, m);
    forall x, k ensures EdgeOk(e, x, k) && ValueOk(e, h, x, k) && Edge(e, x, k) == Edge(d, x, k)
    { assert EdgeOk(d, x, k) && ValueOk(d, h, x, k); }
    forall x ensures MetaOk(e, h, x) { assert MetaOk(d, h, x); }
    forall x, k, y, l ensures OneEdge(e, x, k, y, l) { assert OneEdge(d, x, k, y, l); }
    forall x, a ensures Child(e, h, x, a) == Child(d, h, x, a) { assert Edge(d, x, h(a)) ==> d[x].slots[h(a)].id != c; }
    forall p ensures Lookup(e, h, p) == Lookup(d, h, p) { if p != [] { MetaLocate(d, h, c, m, ROOT, Front(p)); } }
    forall from, s: Path | s != [] ensures LookupFrom(e, h, from, s) == LookupFrom(d, h, from, s)
    { MetaLocate(d, h, c, m, from, Front(s)); }
  }

  lemma AttachWF(d: Dirs, h: string -> nat, x: Id, k: nat, c: Id)
    requires WF(d, h) && x in d && k !in d[x].slots && c in d && c != ROOT && NoEdge(d, c) && d[c].meta.Some?
      && d[c].meta.value.hash == k
    ensures WF(WithSlot(d, x, k, Layer(c, true)), h)
  {
    var e := WithSlot(d, x, k, Layer(c, true));
    forall y, l ensures EdgeOk(e, y, l) && ValueOk(e, h, y, l) { assert EdgeOk(d, y, l) && ValueOk(d, h, y, l); }
    forall y ensures MetaOk(e, h, y) { assert MetaOk(d, h, y); }
    forall y, l, z, m ensures OneEdge(e, y, l, z, m) { assert OneEdge(d, y, l, z, m); }
  }

  // hanging a directory that no edge leads to into a free slot
  lemma AttachDir(d: Dirs, h: string -> nat, w: Path, x: Id, c: Id)
    requires WF(d, h) && Injective(h) && w != [] && Locate(d, h, ROOT, Front(w)) == Some(x) && x in d
      && h(Last(w)) !in d[x].slots
    requires c in d && c != ROOT && NoEdge(d, c) && d[c].meta.Some? && d[c].meta.value.name == Last(w)
      && Unreachable(d, h, c, x)
    ensures WF(WithSlot(d, x, h(Last(w)), Layer(c, true)), h)
    ensures var e := WithSlot(d, x, h(Last(w)), Layer(c, true));
      && (forall p | !(w <= p) :: Lookup(e, h, p) == Lookup(d, h, p))
      && Lookup(e, h, w) == Some(Entry(true, Last(w), d[c].meta.value.ref))
      && (forall s | s != [] :: Lookup(e, h, w + s) == LookupFrom(d, h, c, s))
  {
    var k := h(Last(w));
    var e := WithSlot(d, x, k, Layer(c, true));
    SlotSame(d, x, k, Layer(c, true));
    assert MetaOk(d, h, c);
    AttachWF(d, h, x, k, c);
    PathAway(d, e, h, w, x, Front(w));
    LocateLast(e, h, ROOT, w);
    assert e[c].meta == d[c].meta;
    forall p | !(w <= p) ensures Lookup(e, h, p) == Lookup(d, h, p) { LookupAway(d, e, h, w, x, p); }
    forall s | s != [] ensures Lookup(e, h, w + s) == LookupFrom(d, h, c, s) {
      LookupJoin(e, h, w, s);
      SubtreeAway(d, e, h, c, x, k, s);
    }
  }

  // e is d with the directory at old, and everything below it, at new
  ghost predicate Moved(d: Dirs, e: Dirs, h: string -> nat, old_: Path, new_: Path) {
    && IsDir(d, h, old_) && new_ != []
    && forall p :: Lookup(e, h, p) ==
         if p == new_ then Some(Entry(true, Last(new_), Lookup(d, h, old_).value.ref))
         else if new_ <= p then Lookup(d, h, old_ + p[|new_|..])
         else if old_ <= p then None
         else Lookup(d, h, p)
  }

  ghost predicate CanMove(d: Dirs, h: string -> nat, old_: Path, new_: Path) {
    old_ != [] && new_ != [] && !(old_ <= new_) && IsDir(d, h, old_) && IsDir(d, h, Front(new_))
      && Lookup(d, h, new_) == None
  }

  // taking the directory out: no edge leads to it, and its subtree is as it was
  lemma Detached(d: Dirs, h: string -> nat, w: Path, x: Id, c: Id)
    requires WF(d, h) && Injective(h) && w != [] && Locate(d, h, ROOT, Front(w)) == Some(x) && x in d
      && Step(d, x, h(Last(w))) == Some(c)
    ensures var e := WithoutSlot(d, x, h(Last(w)));
      && c in d && c != ROOT && c in e && e[c].meta == d[c].meta && NoEdge(e, c)
      && (forall s | s != [] :: LookupFrom(e, h, c, s) == Lookup(d, h, w + s))
      && (forall v, y | Locate(d, h, ROOT, v) == Some(y) && !(w <= v) :: Unreachable(e, h, c, y))
  {
    var k := h(Last(w));
    var e := WithoutSlot(d, x, k);
    SlotSame(d, x, k, Layer(c, true));
    assert EdgeOk(d, x, k);
    LocateLast(d, h, ROOT, w);
    forall y, l | Edge(e, y, l) ensures e[y].slots[l].id != c { assert OneEdge(d, x, k, y, l); }
    OutOfSubtree(d, h, w, c, Front(w), x);
    forall s | s != [] ensures LookupFrom(e, h, c, s) == Lookup(d, h, w + s) {
      LookupJoin(d, h, w, s);
      SubtreeAway(d, e, h, c, x, k, s);
    }
    forall v, y | Locate(d, h, ROOT, v) == Some(y) && !(w <= v) ensures Unreachable(e, h, c, y) {
      OutOfSubtree(d, h, w, c, v, y);
      forall q ensures Locate(e, h, c, q) != Some(y) {
        if q != [] { SubtreeAway(d, e, h, c, x, k, q); } else { assert Locate(d, h, c, q) == Locate(e, h, c, q); }
      }
    }
  }

  // The rename's steps: attach at the new place, rewrite the metadata, detach at the old place.
  function Attached(d: Dirs, h: string -> nat, c: Id, ref: Ref, x: Id, name: string): Dirs
    requires x in d && c in d
  {
    var e := WithSlot(d, x, h(name), Layer(c, true));
    WithMeta(e, c, Meta(ref, h(name), name))
  }

  // A directory hangs at its new place, with all that is below it, and nowhere else.
  lemma MoveDir(d: Dirs, h: string -> nat, old_: Path, new_: Path)
    requires WF(d, h) && Injective(h) && CanMove(d, h, old_, new_)
    ensures Locate(d, h, ROOT, Front(old_)).Some? && Locate(d, h, ROOT, Front(new_)).Some?
      && Locate(d, h, ROOT, old_).Some?
    ensures var x, y, c := Locate(d, h, ROOT, Front(old_)).value, Locate(d, h, ROOT, Front(new_)).value,
      Locate(d, h, ROOT, old_).value;
      && x in d && y in d && c in d && d[c].meta.Some?
      && var e := WithoutSlot(Attached(d, h, c, d[c].meta.value.ref, y, Last(new_)), x, h(Last(old_)));
         WF(e, h) && Moved(d, e, h, old_, new_) && Locate(e, h, ROOT, Front(new_)) == Some(y)
  {
    LocateIsDir(d, h, old_);
    LocateLast(d, h, ROOT, old_);
    LocateIsDir(d, h, Front(new_));
    SlotIsEntry(d, h, old_);
    SlotIsEntry(d, h, new_);
    var x, y, c := Locate(d, h, ROOT, Front(old_)).value, Locate(d, h, ROOT, Front(new_)).value,
      Locate(d, h, ROOT, old_).value;
    var ko, kn := h(Last(old_)), h(Last(new_));
    assert EdgeOk(d, x, ko);
    var ref := d[c].meta.value.ref;
    var m := Meta(ref, kn, Last(new_));
    hide WF; hide Injective; hide Lookup; hide Moved; hide SameBut; hide Unreachable;
    DropSlot(d, h, old_);
    Detached(d, h, old_, x, c);
    var d1 := WithoutSlot(d, x, ko);
    assert new_ == Front(new_) + [Last(new_)];
    assert !(old_ <= Front(new_));
    SlotSame(d, x, ko, Layer(c, true));
    PathAway(d, d1, h, old_, x, Front(new_));
    assert Unreachable(d1, h, c, y);
    MetaFree(d1, h, c, m);
    var d2 := WithMeta(d1, c, m);
    MetaLocate(d1, h, c, m, ROOT, Front(new_));
    MetaUnreachable(d1, h, c, m, y);
    AttachDir(d2, h, new_, y, c);
    var e := WithSlot(d2, y, kn, Layer(c, true));
    SlotSame(d2, y, kn, Layer(c, true));
    PathAway(d2, e, h, new_, y, Front(new_));
    StepsCommute(d, h, c, ref, x, ko, y, Last(new_));
    AllMoved(d, d1, d2, e, h, old_, new_, c, ref);
  }

  lemma StepsCommute(d: Dirs, h: string -> nat, c: Id, ref: Ref, x: Id, k: nat, y: Id, name: string)
    requires c in d && x in d && y in d && (x, k) != (y, h(name))
    ensures WithoutSlot(Attached(d, h, c, ref, y, name), x, k)
      == WithSlot(WithMeta(WithoutSlot(d, x, k), c, Meta(ref, h(name), name)), y, h(name), Layer(c, true))
  {
    var a := WithoutSlot(Attached(d, h, c, ref, y, name), x, k);
    var b := WithSlot(WithMeta(WithoutSlot(d, x, k), c, Meta(ref, h(name), name)), y, h(name), Layer(c, true));
    forall z | z in d ensures a[z].slots == b[z].slots && a[z].meta == b[z].meta { }
    assert a.Keys == b.Keys;
  }

  lemma AllMoved(d: Dirs, d1: Dirs, d2: Dirs, e: Dirs, h: string -> nat, old_: Path, new_: Path, c: Id, ref: Ref)
    requires CanMove(d, h, old_, new_) && ref == Lookup(d, h, old_).value.ref
    requires forall p :: Lookup(d1, h, p) == if old_ <= p then None else Lookup(d, h, p)
    requires forall p :: Lookup(d2, h, p) == Lookup(d1, h, p)
    requires forall p | !(new_ <= p) :: Lookup(e, h, p) == Lookup(d2, h, p)
    requires Lookup(e, h, new_) == Some(Entry(true, Last(new_), ref))
    requires forall s | s != [] :: Lookup(e, h, new_ + s) == LookupFrom(d2, h, c, s)
    requires forall s | s != [] :: LookupFrom(d2, h, c, s) == LookupFrom(d1, h, c, s)
    requires forall s | s != [] :: LookupFrom(d1, h, c, s) == Lookup(d, h, old_ + s)
    ensures Moved(d, e, h, old_, new_)
  {
    forall p ensures Lookup(e, h, p) ==
         if p == new_ then Some(Entry(true, Last(new_), Lookup(d, h, old_).value.ref))
         else if new_ <= p then Lookup(d, h, old_ + p[|new_|..])
         else if old_ <= p then None
         else Lookup(d, h, p)
    {
      if new_ <= p && p != new_ {
        var s := p[|new_|..];
        assert p == new_ + s;
      }
    }
  }

  // what the last step of a rename looks at: the old edge's pointer is the directory's present root
  predicate EdgeCurrent(d: Dirs, h: string -> nat, p: Path)
    requires p != []
  {
    var r := Locate(d, h, ROOT, Front(p));
    r.Some? && Edge(d, r.value, h(Last(p))) && d[r.value].slots[h(Last(p))].current
  }

  // Both edges lead to the directory, and its metadata is already the new one: the directory is found by its new
  // name, and by the old path only if the last names agree; what is below is found by both paths; nothing else has
  // changed.
  ghost predicate HalfMoved(d: Dirs, e: Dirs, h: string -> nat, old_: Path, new_: Path) {
    && IsDir(d, h, old_) && old_ != [] && new_ != []
    && Locate(d, h, ROOT, old_).Some?
    && Locate(e, h, ROOT, old_) == Locate(e, h, ROOT, new_) == Locate(d, h, ROOT, old_)
    && var entry := Entry(true, Last(new_), Lookup(d, h, old_).value.ref);
       forall p :: Lookup(e, h, p) ==
         if p == new_ then Some(entry)
         else if p == old_ then (if Last(old_) == Last(new_) then Some(entry) else None)
         else if new_ <= p then Lookup(d, h, old_ + p[|new_|..])
         else Lookup(d, h, p)
  }

  lemma ChildMeta(d: Dirs, h: string -> nat, c: Id, m: Meta, x: Id, a: string)
    requires c in d
    ensures Child(WithMeta(d, c, m), h, x, a) ==
      if Edge(d, x, h(a)) && d[x].slots[h(a)].id == c then (if m.name == a then Some(Entry(true, a, m.ref)) else None)
      else Child(d, h, x, a)
  { }

  // the state after the attaching store
  ghost predicate OneMoreEdge(d: Dirs, b: Dirs, h: string -> nat, old_: Path, new_: Path, y: Id, c: Id) {
    && WF(d, h) && Injective(h) && CanMove(d, h, old_, new_) && y in d && c in d
    && Locate(d, h, ROOT, Front(new_)) == Some(y) && Locate(d, h, ROOT, old_) == Some(c)
    && b == WithSlot(d, y, h(Last(new_)), Layer(c, true))
  }

  // a path that does not go through the new edge
  lemma BesideNew(d: Dirs, b: Dirs, h: string -> nat, old_: Path, new_: Path, y: Id, c: Id, m: Meta, p: Path)
    requires OneMoreEdge(d, b, h, old_, new_, y, c) && !(new_ <= p)
    ensures Lookup(WithMeta(b, c, m), h, p) ==
      if p == old_ then (if m.name == Last(p) then Some(Entry(true, Last(p), m.ref)) else None) else Lookup(d, h, p)
  {
    SlotSame(d, y, h(Last(new_)), Layer(c, true));
    LookupAway(d, b, h, new_, y, p);
    if p != [] {
      PathAway(d, b, h, new_, y, Front(p));
      MetaLocate(b, h, c, m, ROOT, Front(p));
      var r := Locate(d, h, ROOT, Front(p));
      if r.Some? {
        ChildMeta(b, h, c, m, r.value, Last(p));
        LocateLast(d, h, ROOT, p);
        assert new_ == Front(new_) + [Last(new_)] && p == Front(p) + [Last(p)];
        if r.value == y { UniquePath(d, h, Front(p), Front(new_)); }
        if Locate(d, h, ROOT, p) == Some(c) { UniquePath(d, h, p, old_); }
      }
    }
  }

  // the new path itself, and what is below it
  lemma ThroughNew(d: Dirs, b: Dirs, h: string -> nat, old_: Path, new_: Path, y: Id, c: Id, m: Meta, s: Path)
    requires OneMoreEdge(d, b, h, old_, new_, y, c) && s != []
    ensures Lookup(WithMeta(b, c, m), h, new_ + s) == Lookup(d, h, old_ + s)
  {
    var e, k := WithMeta(b, c, m), h(Last(new_));
    NewIsDir(d, b, h, old_, new_, y, c, m);
    LookupJoin(e, h, new_, s);
    LookupJoin(d, h, old_, s);
    SlotSame(d, y, k, Layer(c, true));
    assert new_ == Front(new_) + [Last(new_)];
    assert !(old_ <= Front(new_));
    OutOfSubtree(d, h, old_, c, Front(new_), y);
    SubtreeAway(d, b, h, c, y, k, s);
    LocateAway(d, b, h, c, Front(s), y, k);
    MetaLocate(b, h, c, m, c, Front(s));
    var r := Locate(d, h, c, Front(s));
    if r.Some? {
      ChildMeta(b, h, c, m, r.value, Last(s));
      LocateLast(d, h, c, s);
      LocateJoin(d, h, ROOT, old_, s);
      if Locate(d, h, c, s) == Some(c) { UniquePath(d, h, old_ + s, old_); }
    }
  }

  lemma NewIsDir(d: Dirs, b: Dirs, h: string -> nat, old_: Path, new_: Path, y: Id, c: Id, m: Meta)
    requires OneMoreEdge(d, b, h, old_, new_, y, c)
    ensures var e := WithMeta(b, c, m);
      && Locate(e, h, ROOT, new_) == Some(c) && Locate(e, h, ROOT, old_) == Some(c)
      && (m.name == Last(new_) ==> Lookup(e, h, new_) == Some(Entry(true, Last(new_), m.ref)))
  {
    SlotSame(d, y, h(Last(new_)), Layer(c, true));
    NewNotAbove(d, h, old_, new_);
    PathAway(d, b, h, new_, y, old_);
    PathAway(d, b, h, new_, y, Front(new_));
    LocateLast(b, h, ROOT, new_);
    MetaLocate(b, h, c, m, ROOT, old_);
    MetaLocate(b, h, c, m, ROOT, new_);
    MetaLocate(b, h, c, m, ROOT, Front(new_));
    ChildMeta(b, h, c, m, y, Last(new_));
  }

  lemma AttachedTwice(d: Dirs, h: string -> nat, old_: Path, new_: Path)
    requires WF(d, h) && Injective(h) && CanMove(d, h, old_, new_)
    ensures Locate(d, h, ROOT, Front(new_)).Some? && Locate(d, h, ROOT, old_).Some?
    ensures var y, c := Locate(d, h, ROOT, Front(new_)).value, Locate(d, h, ROOT, old_).value;
      && y in d && c in d && d[c].meta.Some?
      && HalfMoved(d, Attached(d, h, c, d[c].meta.value.ref, y, Last(new_)), h, old_, new_)
  {
    LocateIsDir(d, h, old_);
    LocateIn(d, h, ROOT, old_);
    LocateLast(d, h, ROOT, old_);
    LocateIsDir(d, h, Front(new_));
    SlotIsEntry(d, h, new_);
    SlotIsEntry(d, h, old_);
    assert EdgeOk(d, Locate(d, h, ROOT, Front(old_)).value, h(Last(old_)));
    var y, c := Locate(d, h, ROOT, Front(new_)).value, Locate(d, h, ROOT, old_).value;
    var b := WithSlot(d, y, h(Last(new_)), Layer(c, true));
    var m := Meta(d[c].meta.value.ref, h(Last(new_)), Last(new_));
    assert OneMoreEdge(d, b, h, old_, new_, y, c);
    assert Lookup(d, h, old_).value.ref == m.ref;
    hide WF; hide Injective; hide Lookup; hide Locate; hide OneMoreEdge; hide IsDir;
    NewIsDir(d, b, h, old_, new_, y, c, m);
    forall p ensures Lookup(WithMeta(b, c, m), h, p) ==
      if p == new_ then Some(Entry(true, Last(new_), m.ref))
      else if p == old_ then (if Last(old_) == Last(new_) then Some(Entry(true, Last(new_), m.ref)) else None)
      else if new_ <= p then Lookup(d, h, old_ + p[|new_|..])
      else Lookup(d, h, p)
    {
      if new_ <= p && p != new_ {
        assert p == new_ + p[|new_|..];
        ThroughNew(d, b, h, old_, new_, y, c, m, p[|new_|..]);
        assert p != old_ by { OldNotThere(d, b, h, old_, new_, y, c); }
      } else if p != new_ {
        BesideNew(d, b, h, old_, new_, y, c, m, p);
      }
    }
    OldNotThere(d, b, h, old_, new_, y, c);
  }

  lemma OldNotThere(d: Dirs, b: Dirs, h: string -> nat, old_: Path, new_: Path, y: Id, c: Id)
    requires OneMoreEdge(d, b, h, old_, new_, y, c)
    ensures !(new_ <= old_)
  { NewNotAbove(d, h, old_, new_); }

  // a path without an entry is not above a directory
  lemma NewNotAbove(d: Dirs, h: string -> nat, old_: Path, new_: Path)
    requires WF(d, h) && Injective(h) && new_ != [] && Lookup(d, h, new_) == None && IsDir(d, h, old_)
    ensures !(new_ <= old_)
  {
    LocateIsDir(d, h, new_);
    if new_ <= old_ && new_ != old_ { NothingBelow(d, h, new_, old_); }
  }

  // ---------- a directory outgrows its leaf ----------
  // wide: the directories that have had more entries than a leaf holds. The insertion that makes it so splits the
  // directory's root: the old root leaf gets a parent, and the edge, which still points to the leaf, is not current.
  predicate Full(d: Dirs, wide: set<Id>, x: Id) { x in d && |d[x].slots| >= WIDTH && x !in wide }

  function WithRoom(d: Dirs, h: string -> nat, wide: set<Id>, p: Path): Dirs
    requires Locate(d, h, ROOT, p).Some?
  {
    var x := Locate(d, h, ROOT, p).value;
    if p == [] || !Full(d, wide, x) then d
    else
      var y := Locate(d, h, ROOT, Front(p));
      if y.Some? && Edge(d, y.value, h(Last(p))) then WithSlot(d, y.value, h(Last(p)), Layer(x, false)) else d
  }

  function Widened(d: Dirs, h: string -> nat, wide: set<Id>, p: Path): set<Id> {
    var x := Locate(d, h, ROOT, p);
    if x.Some? && Full(d, wide, x.value) then wide + {x.value} else wide
  }

  // one entry more in the directory at p, whose edge stays as it was unless the root splits
  ghost predicate Grew(d: Dirs, e: Dirs, h: string -> nat, wide: set<Id>, p: Path) {
    var x := Locate(d, h, ROOT, p);
    && x.Some? && Locate(e, h, ROOT, p) == x && x.value in d && x.value in e
    && |e[x.value].slots| == |d[x.value].slots| + 1
    && (p != [] ==> EdgeCurrent(e, h, p) == (EdgeCurrent(d, h, p) && !Full(d, wide, x.value)))
  }

  lemma RoomSame(d: Dirs, h: string -> nat, wide: set<Id>, p: Path)
    requires WF(d, h) && Locate(d, h, ROOT, p).Some?
    ensures var e := WithRoom(d, h, wide, p); WF(e, h) && e.Keys == d.Keys
    ensures forall q :: Lookup(WithRoom(d, h, wide, p), h, q) == Lookup(d, h, q)
    ensures forall q :: Locate(WithRoom(d, h, wide, p), h, ROOT, q) == Locate(d, h, ROOT, q)
  {
    var e := WithRoom(d, h, wide, p);
    if e != d {
      LocateLast(d, h, ROOT, p);
      var y, l := Locate(d, h, ROOT, Front(p)).value, h(Last(p));
      assert Edge(d, y, l) && e == WithSlot(d, y, l, Layer(d[y].slots[l].id, false));
      StaleSame(d, h, y, l);
      hide WF; hide Lookup; hide Locate; hide WithRoom; hide Edge;
    }
  }

  lemma FileGrew(d: Dirs, h: string -> nat, wide: set<Id>, w: Path, ref: Ref)
    requires WF(d, h) && Injective(h) && w != [] && IsDir(d, h, Front(w)) && Lookup(d, h, w) == None
    ensures Locate(d, h, ROOT, Front(w)).Some? && Locate(d, h, ROOT, Front(w)).value in d
    ensures var m := WithRoom(d, h, wide, Front(w)); m.Keys == d.Keys
    ensures var e := WithSlot(WithRoom(d, h, wide, Front(w)), Locate(d, h, ROOT, Front(w)).value, h(Last(w)),
      Value(Last(w), ref));
      WF(e, h) && Added(d, e, h, w, Entry(false, Last(w), ref)) && Grew(d, e, h, wide, Front(w))
  {
    LocateIsDir(d, h, Front(w));
    LocateIn(d, h, ROOT, Front(w));
    hide WF; hide Injective; hide Locate; hide Grew; hide WithRoom;
    RoomSame(d, h, wide, Front(w));
    var m := WithRoom(d, h, wide, Front(w));
    AddFile(m, h, w, ref);
    GrewBy(d, m, m, 0, Meta(0, 0, ""), Value(Last(w), ref), h, wide, w);
  }

  lemma DirGrew(d: Dirs, h: string -> nat, wide: set<Id>, w: Path, c: Id, ref: Ref)
    requires WF(d, h) && Injective(h) && w != [] && IsDir(d, h, Front(w)) && Lookup(d, h, w) == None && c !in d
    ensures Locate(d, h, ROOT, Front(w)).Some? && Locate(d, h, ROOT, Front(w)).value in d
    ensures var m := WithRoom(d, h, wide, Front(w)); m.Keys == d.Keys
    ensures var k := h(Last(w));
      var n := WithDir(WithRoom(d, h, wide, Front(w)), c, Meta(ref, k, Last(w)));
      var e := WithSlot(n, Locate(d, h, ROOT, Front(w)).value, k, Layer(c, true));
      && WF(e, h) && Added(d, e, h, w, Entry(true, Last(w), ref)) && Grew(d, e, h, wide, Front(w))
      && Locate(e, h, ROOT, w) == Some(c) && EdgeCurrent(e, h, w) && c in e && e[c].slots == map[]
  {
    LocateIsDir(d, h, Front(w));
    LocateIn(d, h, ROOT, Front(w));
    hide WF; hide Injective; hide Locate; hide Grew; hide WithRoom; hide EdgeCurrent;
    RoomSame(d, h, wide, Front(w));
    var m := WithRoom(d, h, wide, Front(w));
    var meta := Meta(ref, h(Last(w)), Last(w));
    AddDir(m, h, w, c, ref);
    GrewBy(d, m, WithDir(m, c, meta), c, meta, Layer(c, true), h, wide, w);
    NewEdge(m, h, w, c, meta);
  }

  lemma NewEdge(d: Dirs, h: string -> nat, w: Path, c: Id, meta: Meta)
    requires WF(d, h) && Injective(h) && w != [] && Locate(d, h, ROOT, Front(w)).Some? && c !in d
    ensures Locate(d, h, ROOT, Front(w)).value in d
    ensures var e := WithSlot(WithDir(d, c, meta), Locate(d, h, ROOT, Front(w)).value, h(Last(w)), Layer(c, true));
      Locate(e, h, ROOT, w) == Some(c) && EdgeCurrent(e, h, w) && c in e && e[c].slots == map[]
  {
    LocateIn(d, h, ROOT, Front(w));
    var x, k := Locate(d, h, ROOT, Front(w)).value, h(Last(w));
    var e := WithSlot(WithDir(d, c, meta), x, k, Layer(c, true));
    DirSame(d, x, k, c, meta);
    PathAway(d, e, h, w, x, Front(w));
    LocateLast(e, h, ROOT, w);
  }

  lemma RoomSize(d: Dirs, h: string -> nat, wide: set<Id>, p: Path, x: Id)
    requires WF(d, h) && Locate(d, h, ROOT, p) == Some(x)
    ensures var m := WithRoom(d, h, wide, p);
      x in d && x in m && m[x].slots.Keys == d[x].slots.Keys && |m[x].slots| == |d[x].slots|
    ensures p != [] ==> EdgeCurrent(WithRoom(d, h, wide, p), h, p) == (EdgeCurrent(d, h, p) && !Full(d, wide, x))
  {
    LocateIn(d, h, ROOT, p);
    RoomSame(d, h, wide, p);
    if p != [] { LocateLast(d, h, ROOT, p); }
    var m := WithRoom(d, h, wide, p);
    assert m[x].slots.Keys == d[x].slots.Keys;
    KeysSize(m[x].slots);
    KeysSize(d[x].slots);
  }

  lemma {:induction false} KeysSize(m: map<nat, Slot>)
    ensures |m| == |m.Keys|
  { }

  // what filling the slot of w does to its directory: m is the state with room, n the one with the new directory if any
  lemma GrewBy(d: Dirs, m: Dirs, n: Dirs, c: Id, meta: Meta, s: Slot, h: string -> nat, wide: set<Id>, w: Path)
    requires WF(d, h) && Injective(h) && w != [] && Locate(d, h, ROOT, Front(w)).Some? && Lookup(d, h, w) == None
    requires m == WithRoom(d, h, wide, Front(w)) && (n == m || (c !in m && n == WithDir(m, c, meta)))
    ensures Locate(d, h, ROOT, Front(w)).value in n
    ensures Grew(d, WithSlot(n, Locate(d, h, ROOT, Front(w)).value, h(Last(w)), s), h, wide, Front(w))
  {
    var p, k, x := Front(w), h(Last(w)), Locate(d, h, ROOT, Front(w)).value;
    RoomSame(d, h, wide, p);
    SlotIsEntry(m, h, w);
    RoomSize(d, h, wide, p, x);
    var e := WithSlot(n, x, k, s);
    assert SameBut(m, e, x, k);
    KeysSize(e[x].slots);
    assert e[x].slots.Keys == m[x].slots.Keys + {k};
    hide Lookup; hide Injective; hide WithRoom; hide SameBut; hide EdgeCurrent;
    PathAway(m, e, h, w, x, p);
    if p != [] { EdgeAway(m, n, x, s, h, w); }
  }

  lemma EdgeAway(m: Dirs, n: Dirs, x: Id, s: Slot, h: string -> nat, w: Path)
    requires WF(m, h) && Injective(h) && |w| > 1 && Locate(m, h, ROOT, Front(w)) == Some(x) && x in m
      && h(Last(w)) !in m[x].slots
    requires x in n && (forall y :: y in m ==> y in n && n[y] == m[y])
    ensures EdgeCurrent(WithSlot(n, x, h(Last(w)), s), h, Front(w)) == EdgeCurrent(m, h, Front(w))
  {
    var e := WithSlot(n, x, h(Last(w)), s);
    assert SameBut(m, e, x, h(Last(w)));
    PathAway(m, e, h, w, x, Front(Front(w)));
    LocateLast(m, h, ROOT, Front(w));
  }

  // making room for the new name leaves the old edge as it is
  lemma RoomElsewhere(d: Dirs, h: string -> nat, wide: set<Id>, p: Path, w: Path)
    requires WF(d, h) && Injective(h) && w != [] && w != p && Locate(d, h, ROOT, p).Some? && Locate(d, h, ROOT, w).Some?
    ensures EdgeCurrent(WithRoom(d, h, wide, p), h, w) == EdgeCurrent(d, h, w)
  {
    RoomSame(d, h, wide, p);
    LocateLast(d, h, ROOT, w);
    if p != [] {
      LocateLast(d, h, ROOT, p);
      if Locate(d, h, ROOT, Front(p)) == Locate(d, h, ROOT, Front(w)) {
        UniquePath(d, h, Front(p), Front(w));
        assert p == Front(p) + [Last(p)] && w == Front(w) + [Last(w)];
      }
    }
  }

  // a rename with room made first: where it leaves the names, with and without the last step
  lemma MoveWithRoom(d: Dirs, h: string -> nat, wide: set<Id>, old_: Path, new_: Path)
    requires WF(d, h) && Injective(h) && CanMove(d, h, old_, new_)
    ensures Locate(d, h, ROOT, Front(old_)).Some? && Locate(d, h, ROOT, Front(new_)).Some?
      && Locate(d, h, ROOT, old_).Some?
    ensures var x, y, c := Locate(d, h, ROOT, Front(old_)).value, Locate(d, h, ROOT, Front(new_)).value,
      Locate(d, h, ROOT, old_).value;
      var m := WithRoom(d, h, wide, Front(new_));
      && x in m && y in m && c in m && m[c].meta.Some?
      && var a := Attached(m, h, c, m[c].meta.value.ref, y, Last(new_));
         var e := WithoutSlot(a, x, h(Last(old_)));
         && HalfMoved(d, a, h, old_, new_) && WF(e, h) && Moved(d, e, h, old_, new_)
         && Locate(e, h, ROOT, Front(new_)) == Some(y) && (x, h(Last(old_))) != (y, h(Last(new_)))
         && Edge(a, x, h(Last(old_))) && a[x].slots[h(Last(old_))].current == EdgeCurrent(d, h, old_)
  {
    LocateIsDir(d, h, Front(new_));
    LocateIsDir(d, h, old_);
    RoomSame(d, h, wide, Front(new_));
    RoomElsewhere(d, h, wide, Front(new_), old_);
    var m := WithRoom(d, h, wide, Front(new_));
    assert CanMove(m, h, old_, new_);
    hide WF; hide Injective; hide WithRoom; hide Moved; hide HalfMoved; hide CanMove; hide EdgeCurrent; hide Edge;
    MoveIn(m, h, old_, new_);
    var x, y, c := Locate(m, h, ROOT, Front(old_)).value, Locate(m, h, ROOT, Front(new_)).value,
      Locate(m, h, ROOT, old_).value;
    var a := Attached(m, h, c, m[c].meta.value.ref, y, Last(new_));
    SameMoves(d, m, a, WithoutSlot(a, x, h(Last(old_))), h, old_, new_);
  }

  lemma SameMoves(d: Dirs, m: Dirs, a: Dirs, e: Dirs, h: string -> nat, old_: Path, new_: Path)
    requires forall q :: Lookup(m, h, q) == Lookup(d, h, q)
    requires forall q :: Locate(m, h, ROOT, q) == Locate(d, h, ROOT, q)
    ensures HalfMoved(m, a, h, old_, new_) ==> HalfMoved(d, a, h, old_, new_)
    ensures Moved(m, e, h, old_, new_) ==> Moved(d, e, h, old_, new_)
  { hide Lookup; hide Locate; }

  lemma MoveIn(m: Dirs, h: string -> nat, old_: Path, new_: Path)
    requires WF(m, h) && Injective(h) && CanMove(m, h, old_, new_)
    ensures Locate(m, h, ROOT, Front(old_)).Some? && Locate(m, h, ROOT, Front(new_)).Some?
      && Locate(m, h, ROOT, old_).Some?
    ensures var x, y, c := Locate(m, h, ROOT, Front(old_)).value, Locate(m, h, ROOT, Front(new_)).value,
      Locate(m, h, ROOT, old_).value;
      && x in m && y in m && c in m && m[c].meta.Some?
      && var a := Attached(m, h, c, m[c].meta.value.ref, y, Last(new_));
         var e := WithoutSlot(a, x, h(Last(old_)));
         && HalfMoved(m, a, h, old_, new_) && WF(e, h) && Moved(m, e, h, old_, new_)
         && Locate(e, h, ROOT, Front(new_)) == Some(y) && (x, h(Last(old_))) != (y, h(Last(new_)))
         && Edge(a, x, h(Last(old_))) && a[x].slots[h(Last(old_))].current == EdgeCurrent(m, h, old_)
  {
    LocateIsDir(m, h, old_);
    LocateIsDir(m, h, Front(new_));
    LocateLast(m, h, ROOT, old_);
    SlotIsEntry(m, h, new_);
    SlotIsEntry(m, h, old_);
    hide WF; hide Injective; hide Lookup; hide Locate; hide Moved; hide HalfMoved;
    MoveDir(m, h, old_, new_);
    AttachedTwice(m, h, old_, new_);
  }

  // the last step of a rename leaves the new edge alone
  lemma NewIsCurrent(d: Dirs, h: string -> nat, c: Id, ref: Ref, x: Id, k: nat, y: Id, new_: Path)
    requires c in d && x in d && y in d && new_ != [] && (x, k) != (y, h(Last(new_)))
    requires var e := WithoutSlot(Attached(d, h, c, ref, y, Last(new_)), x, k);
      Locate(e, h, ROOT, Front(new_)) == Some(y)
    ensures var e := WithoutSlot(Attached(d, h, c, ref, y, Last(new_)), x, k); EdgeCurrent(e, h, new_)
  { }

  // ---------- the table ----------
  class Table {
    const hash: string -> nat
    var dirs: Dirs
    var fresh_: Id
    var wide: set<Id>

    ghost predicate Valid() reads this {
      WF(dirs, hash) && Injective(hash) && (forall x :: x in dirs ==> x < fresh_)
        && forall x :: x in wide ==> x < fresh_
    }

    // a directory without entries that is one leaf
    ghost predicate Empty(p: Path) reads this {
      var x := Locate(dirs, hash, ROOT, p);
      x.Some? && x.value in dirs && dirs[x.value].slots == map[] && x.value !in wide
    }

    ghost function At(p: Path): Option<Entry> reads this { Lookup(dirs, hash, p) }

    constructor (h: string -> nat)
      requires Injective(h)
      ensures Valid() && hash == h && forall p :: At(p) == if p == [] then Some(Entry(true, "/", 0)) else None
    {
      hash := h;
      dirs, fresh_, wide := map[ROOT := Dir(map[], None)], 1, {};
      new;
      forall p | p != [] ensures At(p) == None {
        if Front(p) != [] { assert Step(dirs, ROOT, h(Front(p)[0])) == None; }
      }
    }

    method LocateRoot(p: Path) returns (r: Option<Id>)
      ensures r == Locate(dirs, hash, ROOT, p)
    {
      var at, i := ROOT, 0;
      assert p[0..] == p;
      while i < |p|
        invariant 0 <= i <= |p| && Locate(dirs, hash, at, p[i..]) == Locate(dirs, hash, ROOT, p)
      {
        assert p[i..][0] == p[i] && p[i..][1..] == p[i + 1..];
        var k := hash(p[i]);
        if !Edge(dirs, at, k) { return None; }
        at := dirs[at].slots[k].id;
        i := i + 1;
      }
      return Some(at);
    }

    method LookupEntry(p: Path) returns (r: Option<Entry>)
      ensures r == At(p)
    {
      if p == [] { return Some(Entry(true, "/", 0)); }
      var x := LocateRoot(Front(p));
      if x.None? { return None; }
      return Child(dirs, hash, x.value, Last(p));
    }

    // what an insertion in the directory at p does first: a full leaf that is still the directory's root splits
    method MakeRoom(p: Path)
      requires Valid() && Locate(dirs, hash, ROOT, p).Some?
      modifies this
      ensures Valid() && fresh_ == old(fresh_) && dirs == WithRoom(old(dirs), hash, old(wide), p)
      ensures wide == Widened(old(dirs), hash, old(wide), p)
      ensures forall q :: At(q) == old(At(q)) && Locate(dirs, hash, ROOT, q) == Locate(old(dirs), hash, ROOT, q)
    {
      RoomSame(dirs, hash, wide, p);
      var x := LocateRoot(p);
      if x.value in dirs && |dirs[x.value].slots| >= WIDTH && x.value !in wide {
        LocateIn(dirs, hash, ROOT, p);
        wide := wide + {x.value};
        if p != [] {
          LocateLast(dirs, hash, ROOT, p);
          var y := LocateRoot(Front(p));
          dirs := WithSlot(dirs, y.value, hash(Last(p)), Layer(x.value, false));
        }
      }
    }

    method Creat(p: Path, ref: Ref) returns (ok: bool)
      requires Valid()
      modifies this
      ensures Valid()
      ensures ok <==> p != [] && |Last(p)| <= MAX_NAME && IsDir(old(dirs), hash, Front(p)) && old(At(p)) == None
      ensures if ok then Added(old(dirs), dirs, hash, p, Entry(false, Last(p), ref)) else dirs == old(dirs)
      ensures if ok then Grew(old(dirs), dirs, hash, old(wide), Front(p))
        && wide == Widened(old(dirs), hash, old(wide), Front(p))
              else wide == old(wide)
      ensures fresh_ == old(fresh_)
    {
      hide WF; hide Injective;
      if p == [] || |Last(p)| > MAX_NAME { return false; }
      LocateIsDir(dirs, hash, Front(p));
      var x := LocateRoot(Front(p));
      if x.None? { return false; }
      SlotIsEntry(dirs, hash, p);
      if hash(Last(p)) in dirs[x.value].slots { return false; }
      FileGrew(dirs, hash, wide, p, ref);
      hide Grew; hide WithRoom; hide Widened; hide Added; hide Lookup; hide IsDir; hide Locate;
      MakeRoom(Front(p));
      dirs := WithSlot(dirs, x.value, hash(Last(p)), Value(Last(p), ref));
      return true;
    }

    method Mkdir(p: Path, ref: Ref) returns (ok: bool)
      requires Valid()
      modifies this
      ensures Valid()
      ensures ok <==> p != [] && |Last(p)| <= MAX_NAME && IsDir(old(dirs), hash, Front(p)) && old(At(p)) == None
      ensures if ok then Added(old(dirs), dirs, hash, p, Entry(true, Last(p), ref)) else dirs == old(dirs)
      ensures if ok then Grew(old(dirs), dirs, hash, old(wide), Front(p))
        && wide == Widened(old(dirs), hash, old(wide), Front(p))
              else wide == old(wide)
      ensures ok ==> Empty(p) && EdgeCurrent(dirs, hash, p)
    {
      hide WF; hide Injective;
      if p == [] || |Last(p)| > MAX_NAME { return false; }
      LocateIsDir(dirs, hash, Front(p));
      var x := LocateRoot(Front(p));
      if x.None? { return false; }
      SlotIsEntry(dirs, hash, p);
      if hash(Last(p)) in dirs[x.value].slots { return false; }
      DirGrew(dirs, hash, wide, p, fresh_, ref);
      var meta := Meta(ref, hash(Last(p)), Last(p));
      hide Grew; hide WithRoom; hide Added; hide Lookup; hide IsDir; hide Locate; hide EdgeCurrent;
      MakeRoom(Front(p));
      dirs := WithSlot(WithDir(dirs, fresh_, meta), x.value, hash(Last(p)), Layer(fresh_, true));
      fresh_ := fresh_ + 1;
      return true;
    }

    method Remove(p: Path) returns (ok: bool)
      requires Valid()
      modifies this
      ensures Valid()
      ensures ok <==> Removable(old(dirs), hash, p)
      ensures if ok then Dropped(old(dirs), dirs, hash, p) else dirs == old(dirs)
      ensures fresh_ == old(fresh_) && wide == old(wide)
    {
      hide WF; hide Injective; hide Removable;
      if p == [] { RemovableMeans(p); return false; }
      LocateIsDir(dirs, hash, Front(p));
      LocateIsDir(dirs, hash, p);
      LocateLast(dirs, hash, ROOT, p);
      RemovableMeans(p);
      var x := LocateRoot(Front(p));
      if x.None? { return false; }
      var k := hash(Last(p));
      SlotIsEntry(dirs, hash, p);
      if k !in dirs[x.value].slots { return false; }
      RemovableIff(dirs, hash, p);
      match dirs[x.value].slots[k] {
        case Layer(c, _) =>
          if c !in dirs || dirs[c].meta.None? || dirs[c].meta.value.name != Last(p) || dirs[c].slots != map[] {
            return false;
          }
        case Value(n, _) =>
          if n != Last(p) { return false; }
      }
      RemoveEntry(dirs, hash, p);
      dirs := WithoutSlot(dirs, x.value, k);
      return true;
    }

    lemma RemovableMeans(p: Path)
      ensures Removable(dirs, hash, p) ==> p != [] && At(p).Some?
    { }

    // Later insertions and removals can give a directory that has outgrown its leaf yet another root.
    method RootMoves(x: Id, k: nat)
      requires Valid() && Edge(dirs, x, k) && dirs[x].slots[k].id in wide
      modifies this
      ensures Valid() && fresh_ == old(fresh_) && wide == old(wide) && Edge(dirs, x, k) && !dirs[x].slots[k].current
      ensures forall p :: At(p) == old(At(p)) && Locate(dirs, hash, ROOT, p) == Locate(old(dirs), hash, ROOT, p)
    {
      var s := dirs[x].slots[k];
      StaleSame(dirs, hash, x, k);
      dirs := WithSlot(dirs, x, k, Layer(s.id, false));
    }

    // A rename that returns true has moved the directory. It returns false after attaching when the old edge is not
    // current: then both names lead to the directory.
    method RenameDirectory(old_: Path, new_: Path) returns (ok: bool)
      requires Valid()
      modifies this
      ensures ok <==> old_ != [] && (old_ == new_ || (old(Allowed(old_, new_)) && old(EdgeCurrent(dirs, hash, old_))))
      ensures ok && old_ != new_ ==>
        Valid() && Moved(old(dirs), dirs, hash, old_, new_) && EdgeCurrent(dirs, hash, new_)
      ensures !ok && old(Allowed(old_, new_)) ==> HalfMoved(old(dirs), dirs, hash, old_, new_)
      ensures old_ == new_ || !old(Allowed(old_, new_)) ==> dirs == old(dirs) && wide == old(wide)
      ensures old(Allowed(old_, new_)) ==> wide == Widened(old(dirs), hash, old(wide), Front(new_))
      ensures fresh_ == old(fresh_)
    {
      hide WF; hide Injective;
      if old_ == [] || new_ == [] { return false; }
      if old_ == new_ { return true; }
      if old_ <= new_ || |Last(new_)| > MAX_NAME { return false; }
      LocateIsDir(dirs, hash, old_);
      LocateLast(dirs, hash, ROOT, old_);
      LocateIsDir(dirs, hash, Front(old_));
      LocateIsDir(dirs, hash, Front(new_));
      var xo := LocateRoot(Front(old_));
      if xo.None? { return false; }
      var xn := LocateRoot(Front(new_));
      if xn.None? { return false; }
      var ko := hash(Last(old_));
      if !Edge(dirs, xo.value, ko) { return false; }
      SlotIsEntry(dirs, hash, old_);
      var c := dirs[xo.value].slots[ko].id;
      if c !in dirs || dirs[c].meta.None? || dirs[c].meta.value.name != Last(old_) { return false; }
      SlotIsEntry(dirs, hash, new_);
      if Child(dirs, hash, xn.value, Last(new_)).Some? { return false; }
      ok := Carry(old_, new_, xo.value, xn.value, c);
    }

    ghost predicate Allowed(old_: Path, new_: Path) reads this
    { CanMove(dirs, hash, old_, new_) && |Last(new_)| <= MAX_NAME }

    // the stores of a rename
    method Carry(old_: Path, new_: Path, xo: Id, xn: Id, c: Id) returns (ok: bool)
      requires Valid() && CanMove(dirs, hash, old_, new_)
      requires Locate(dirs, hash, ROOT, Front(old_)) == Some(xo) && Locate(dirs, hash, ROOT, Front(new_)) == Some(xn)
      requires Locate(dirs, hash, ROOT, old_) == Some(c)
      modifies this
      ensures ok == old(EdgeCurrent(dirs, hash, old_))
      ensures if ok then Valid() && Moved(old(dirs), dirs, hash, old_, new_) && EdgeCurrent(dirs, hash, new_)
        else HalfMoved(old(dirs), dirs, hash, old_, new_)
      ensures fresh_ == old(fresh_) && wide == Widened(old(dirs), hash, old(wide), Front(new_))
    {
      hide WF; hide Injective;
      ghost var d, w := dirs, wide;
      MoveWithRoom(d, hash, w, old_, new_);
      MakeRoom(Front(new_));
      hide WithRoom; hide Moved; hide HalfMoved; hide Lookup; hide Locate; hide Widened; hide CanMove; hide EdgeCurrent;
      var ko, kn := hash(Last(old_)), hash(Last(new_));
      ghost var m := dirs;
      dirs := WithSlot(dirs, xn, kn, Layer(c, true));
      var meta := dirs[c].meta.value;
      dirs := WithMeta(dirs, c, Meta(meta.ref, kn, Last(new_)));
      assert dirs == Attached(m, hash, c, m[c].meta.value.ref, xn, Last(new_));
      if !dirs[xo].slots[ko].current { return false; }
      dirs := WithoutSlot(dirs, xo, ko);
      NewIsCurrent(m, hash, c, m[c].meta.value.ref, xo, ko, xn, new_);
      return true;
    }
  }

  lemma StaleSame(d: Dirs, h: string -> nat, x: Id, k: nat)
    requires WF(d, h) && Edge(d, x, k)
    ensures var e := WithSlot(d, x, k, Layer(d[x].slots[k].id, false));
      WF(e, h) && forall p :: Lookup(e, h, p) == Lookup(d, h, p) && Locate(e, h, ROOT, p) == Locate(d, h, ROOT, p)
  {
    var e := WithSlot(d, x, k, Layer(d[x].slots[k].id, false));
    forall y, l ensures EdgeOk(e, y, l) && ValueOk(e, h, y, l) && Step(e, y, l) == Step(d, y, l)
    { assert EdgeOk(d, y, l) && ValueOk(d, h, y, l); }
    forall y ensures MetaOk(e, h, y) { assert MetaOk(d, h, y); }
    forall y, l, z, m ensures OneEdge(e, y, l, z, m) { assert OneEdge(d, y, l, z, m); }
    forall p ensures Lookup(e, h, p) == Lookup(d, h, p) && Locate(e, h, ROOT, p) == Locate(d, h, ROOT, p) {
      LocateSteps(d, e, h, ROOT, p);
      if p != [] {
        LocateSteps(d, e, h, ROOT, Front(p));
      }
    }
  }

  lemma {:induction false} LocateSteps(d: Dirs, e: Dirs, h: string -> nat, from: Id, p: Path)
    requires forall y, l :: Step(e, y, l) == Step(d, y, l)
    ensures Locate(e, h, from, p) == Locate(d, h, from, p)
    decreases |p|
  {
    if p != [] && Step(d, from, h(p[0])).Some? { LocateSteps(d, e, h, Step(d, from, h(p[0])).value, p[1..]); }
  }

  // ---------- a run that leaves a directory under two names ----------
  function Name(i: nat): string { seq(i + 1, _ => 'f') }

  // directory a is one leaf with n entries, or has just outgrown it
  ghost predicate Filled(d: Dirs, h: string -> nat, wide: set<Id>, n: nat) {
    var x := Locate(d, h, ROOT, ["a"]);
    && x.Some? && x.value in d && |d[x.value].slots| == n
    && (x.value in wide <==> n > WIDTH) && EdgeCurrent(d, h, ["a"]) == (n <= WIDTH)
  }

  lemma FilledMore(d: Dirs, e: Dirs, h: string -> nat, wide: set<Id>, n: nat)
    requires n <= WIDTH && Filled(d, h, wide, n) && Grew(d, e, h, wide, ["a"])
    ensures Filled(e, h, Widened(d, h, wide, ["a"]), n + 1)
  { }

  // the names, while the files from n on are still to come
  ghost predicate Names(d: Dirs, h: string -> nat, n: nat) {
    && Lookup(d, h, []) == Some(Entry(true, "/", 0)) && Lookup(d, h, ["a"]) == Some(Entry(true, "a", 1))
    && Lookup(d, h, ["b"]) == None
    && forall j :: 0 <= j ==> Lookup(d, h, ["a", Name(j)]) == if j < n then Some(Entry(false, Name(j), j)) else None
  }

  lemma NamesMore(d: Dirs, e: Dirs, h: string -> nat, n: nat)
    requires Names(d, h, n) && Added(d, e, h, ["a", Name(n)], Entry(false, Name(n), n))
    ensures Names(e, h, n + 1)
  {
    forall j: nat | j != n ensures Lookup(e, h, ["a", Name(j)]) == Lookup(d, h, ["a", Name(j)]) {
      assert |Name(j)| != |Name(n)|;
      assert ["a", Name(j)][1] != ["a", Name(n)][1];
    }
    assert |["a"]| == 1 && |["b"]| == 1;
    hide Lookup;
  }

  lemma NamesFirst(d: Dirs, e: Dirs, h: string -> nat)
    requires Added(d, e, h, ["a"], Entry(true, "a", 1))
    requires forall p :: Lookup(d, h, p) == if p == [] then Some(Entry(true, "/", 0)) else None
    ensures Names(e, h, 0)
  {
    assert ["a"][0] != ["b"][0];
    forall j: nat ensures Lookup(e, h, ["a", Name(j)]) == None { assert |["a", Name(j)]| == 2; }
  }

  // A directory with one file more than a leaf holds, and a rename of it: it returns false, the directory has its new
  // name and inode, and every file is found under both names.
  method UnderTwoNames(h: string -> nat) returns (t: Table, before: Dirs, ok: bool)
    requires Injective(h)
    ensures fresh(t) && t.hash == h && !ok && HalfMoved(before, t.dirs, h, ["a"], ["b"])
    ensures Lookup(before, h, ["a"]) == Some(Entry(true, "a", 1)) && Lookup(before, h, ["b"]) == None
    ensures t.At(["a"]) == None && t.At(["b"]) == Some(Entry(true, "b", 1))
    ensures forall j: nat :: j <= WIDTH ==>
      t.At(["a", Name(j)]) == t.At(["b", Name(j)]) == Some(Entry(false, Name(j), j))
  {
    hide WF; hide Injective; hide Lookup; hide Names; hide Filled; hide Added; hide Grew; hide Widened; hide Locate;
    t := new Table(h);
    assert Front(["a"]) == [] && Last(["a"]) == "a" && Front(["b"]) == [] && Last(["b"]) == "b";
    StartDir(t.dirs, h);
    ghost var d := t.dirs;
    forall p ensures Lookup(d, h, p) == if p == [] then Some(Entry(true, "/", 0)) else None
    { assert Lookup(d, h, p) == t.At(p); }
    ok := t.Mkdir(["a"], 1);
    NamesFirst(d, t.dirs, h);
    assert Filled(t.dirs, h, t.wide, 0) by { EmptyFilled(t); }
    var i := 0;
    while i <= WIDTH
      invariant fresh(t) && t.Valid() && t.hash == h && i <= WIDTH + 1
      invariant Names(t.dirs, h, i) && Filled(t.dirs, h, t.wide, i)
    {
      d := t.dirs;
      ghost var w := t.wide;
      NamesUse(d, h, i);
      ok := t.Creat(["a", Name(i)], i);
      FilledMore(d, t.dirs, h, w, i);
      NamesMore(d, t.dirs, h, i);
      i := i + 1;
    }
    before := t.dirs;
    NamesMove(before, h, i);
    assert !EdgeCurrent(before, h, ["a"]) by { FilledUse(before, h, t.wide, i); }
    ok := t.RenameDirectory(["a"], ["b"]);
    NamesAfter(before, t.dirs, h, i);
  }

  lemma NamesAfter(d: Dirs, e: Dirs, h: string -> nat, n: nat)
    requires Names(d, h, n) && HalfMoved(d, e, h, ["a"], ["b"])
    ensures Lookup(d, h, ["a"]) == Some(Entry(true, "a", 1)) && Lookup(d, h, ["b"]) == None
    ensures Lookup(e, h, ["a"]) == None && Lookup(e, h, ["b"]) == Some(Entry(true, "b", 1))
    ensures forall j: nat :: j < n ==>
      Lookup(e, h, ["a", Name(j)]) == Lookup(e, h, ["b", Name(j)]) == Some(Entry(false, Name(j), j))
  {
    assert ["a"][0] == "a" && ["b"][0] == "b" && "a"[0] == 'a' && "b"[0] == 'b';
    hide Lookup; hide Locate;
    forall j: nat | j < n
      ensures Lookup(e, h, ["a", Name(j)]) == Lookup(e, h, ["b", Name(j)]) == Some(Entry(false, Name(j), j))
    {
      var p, q := ["a", Name(j)], ["b", Name(j)];
      assert p[0] != q[0] && |p| == 2 && |q| == 2;
      assert q[..1] == ["b"] && q[1..] == [Name(j)] && ["a"] + [Name(j)] == p;
    }
  }

  lemma StartDir(d: Dirs, h: string -> nat)
    ensures IsDir(d, h, [])
  { }

  lemma EmptyFilled(t: Table)
    requires t.Empty(["a"]) && EdgeCurrent(t.dirs, t.hash, ["a"])
    ensures Filled(t.dirs, t.hash, t.wide, 0)
  { }

  lemma FilledUse(d: Dirs, h: string -> nat, wide: set<Id>, n: nat)
    requires Filled(d, h, wide, n)
    ensures EdgeCurrent(d, h, ["a"]) == (n <= WIDTH)
  { }

  lemma NamesUse(d: Dirs, h: string -> nat, n: nat)
    requires Names(d, h, n) && n <= WIDTH
    ensures var p := ["a", Name(n)];
      Front(p) == ["a"] && Last(p) == Name(n) && |Name(n)| <= MAX_NAME && IsDir(d, h, ["a"]) && Lookup(d, h, p) == None
  { assert Front(["a", Name(n)]) == ["a"]; }

  lemma NamesMove(d: Dirs, h: string -> nat, n: nat)
    requires Names(d, h, n)
    ensures CanMove(d, h, ["a"], ["b"]) && IsDir(d, h, ["a"]) && Lookup(d, h, ["b"]) == None
      && |Last(["b"])| <= MAX_NAME
  {
    assert !(["a"] <= ["b"]) by { assert ["a"][0] != ["b"][0]; }
    assert Front(["b"]) == [];
    hide Locate;
  }
}
