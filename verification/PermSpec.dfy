module PermSpec {
  // order[0..size) are the live slots in key order, the rest are free slots
  datatype Perm = Perm(order: seq<nat>, size: nat)

  ghost predicate PermOk(w: nat, p: Perm) {
    && |p.order| == w && p.size <= w
    && (forall i :: 0 <= i < w ==> p.order[i] < w)
    && (forall i, j :: 0 <= i < j < w ==> p.order[i] != p.order[j])
  }

  function Back(p: Perm): nat requires |p.order| > 0 { p.order[|p.order| - 1] }

  function MakeSorted(w: nat, n: nat): Perm
    requires n <= w
  {
    Perm(seq(w, i requires 0 <= i < w => if i < n then i else w - 1 - (i - n)), n)
  }

  function SetSize(p: Perm, n: nat): Perm { p.(size := n) }

  function InsertFromBack(p: Perm, i: nat): Perm
    requires i < |p.order|
  {
    Perm(p.order[..i] + [Back(p)] + p.order[i..|p.order| - 1], p.size + 1)
  }

  function InsertSelected(p: Perm, di: nat, si: nat): Perm
    requires di <= si < |p.order|
  {
    Perm(p.order[..di] + [p.order[si]] + p.order[di..si] + p.order[si+1..], p.size + 1)
  }

  function Remove(p: Perm, i: nat): Perm
    requires i < p.size <= |p.order|
  {
    Perm(p.order[..i] + p.order[i+1..p.size] + [p.order[i]] + p.order[p.size..], p.size - 1)
  }

  function RemoveToBack(p: Perm, i: nat): Perm
    requires i < p.size <= |p.order|
  {
    Perm(p.order[..i] + p.order[i+1..] + [p.order[i]], p.size - 1)
  }

  function Exchange(p: Perm, i: nat, j: nat): Perm
    requires i < |p.order| && j < |p.order|
  {
    p.(order := p.order[i := p.order[j]][j := p.order[i]])
  }

  // elements i to the end turn left by j - i places
  function Rotate(p: Perm, i: nat, j: nat): Perm
    requires i <= j <= |p.order|
  {
    p.(order := p.order[..i] + p.order[j..] + p.order[i..j])
  }

  function Swapped(v: nat, x: nat, y: nat): nat { if v == x then y else if v == y then x else v }

  function ExchangeValues(p: Perm, x: nat, y: nat): Perm {
    p.(order := seq(|p.order|, k requires 0 <= k < |p.order| => Swapped(p.order[k], x, y)))
  }

  // ---------- every operation keeps a permutation of 0..w-1 ----------
  ghost predicate Injective(s: seq<nat>, w: nat) {
    && (forall i :: 0 <= i < |s| ==> s[i] < w)
    && (forall i, j :: 0 <= i < j < |s| ==> s[i] != s[j])
  }

  // q is p with its places renumbered
  lemma Rearranged(w: nat, p: Perm, q: Perm, at: seq<nat>)
    requires PermOk(w, p) && |q.order| == w == |at| && q.size <= w && Injective(at, w)
    requires forall k :: 0 <= k < w ==> q.order[k] == p.order[at[k]]
    ensures PermOk(w, q)
  { }

  lemma MakeSortedOk(w: nat, n: nat)
    requires n <= w
    ensures PermOk(w, MakeSorted(w, n))
  { }

  // where the element at place k comes from
  function InsertIx(w: nat, i: nat, k: nat): nat
    requires k < w
  { if k < i then k else if k == i then w - 1 else k - 1 }

  function SelectIx(di: nat, si: nat, k: nat): nat { if k < di || k > si then k else if k == di then si else k - 1 }

  function RemoveIx(size: nat, i: nat, k: nat): nat
  { if k < i || k >= size then k else if k < size - 1 then k + 1 else i }

  function RotateIx(w: nat, i: nat, j: nat, k: nat): nat
    requires i <= j <= w
  { if k < i then k else if k < i + (w - j) then k + (j - i) else k - (w - j) }

  function SwapIx(i: nat, j: nat, k: nat): nat { if k == i then j else if k == j then i else k }

  lemma InsertFromBackAt(w: nat, p: Perm, i: nat, k: nat)
    requires |p.order| == w && k < w && i < w && p.size < w
    ensures InsertIx(w, i, k) < w && |InsertFromBack(p, i).order| == w
      && InsertFromBack(p, i).order[k] == p.order[InsertIx(w, i, k)]
  { }

  lemma InsertFromBackSize(p: Perm, i: nat)
    requires i < |p.order|
    ensures InsertFromBack(p, i).size == p.size + 1 && |InsertFromBack(p, i).order| == |p.order|
  { }

  lemma InsertSelectedSize(p: Perm, di: nat, si: nat)
    requires di <= si < |p.order|
    ensures InsertSelected(p, di, si).size == p.size + 1 && |InsertSelected(p, di, si).order| == |p.order|
  { }

  lemma RemoveSize(p: Perm, i: nat)
    requires i < p.size <= |p.order|
    ensures Remove(p, i).size == p.size - 1 && |Remove(p, i).order| == |p.order|
  { }

  lemma RemoveToBackSize(p: Perm, i: nat)
    requires i < p.size <= |p.order|
    ensures RemoveToBack(p, i).size == p.size - 1 && |RemoveToBack(p, i).order| == |p.order|
  { }

  lemma RotateSize(p: Perm, i: nat, j: nat)
    requires i <= j <= |p.order|
    ensures Rotate(p, i, j).size == p.size && |Rotate(p, i, j).order| == |p.order|
  { }

  lemma ExchangeSize(p: Perm, i: nat, j: nat)
    requires i < |p.order| && j < |p.order|
    ensures Exchange(p, i, j).size == p.size && |Exchange(p, i, j).order| == |p.order|
  { }

  lemma InsertFromBackOk(w: nat, p: Perm, i: nat)
    requires PermOk(w, p) && i < w && p.size < w
    ensures PermOk(w, InsertFromBack(p, i))
  {
    forall k: nat | k < w
      ensures InsertIx(w, i, k) < w && |InsertFromBack(p, i).order| == w
        && InsertFromBack(p, i).order[k] == p.order[InsertIx(w, i, k)] {
      InsertFromBackAt(w, p, i, k);
    }
    hide InsertFromBack;
    Rearranged(w, p, InsertFromBack(p, i), seq(w, k requires 0 <= k < w => InsertIx(w, i, k)));
  }

  lemma InsertSelectedAt(w: nat, p: Perm, di: nat, si: nat, k: nat)
    requires |p.order| == w && k < w && di <= si < w && p.size < w
    ensures SelectIx(di, si, k) < w && |InsertSelected(p, di, si).order| == w
      && InsertSelected(p, di, si).order[k] == p.order[SelectIx(di, si, k)]
  { }

  lemma InsertSelectedOk(w: nat, p: Perm, di: nat, si: nat)
    requires PermOk(w, p) && di <= si < w && p.size < w
    ensures PermOk(w, InsertSelected(p, di, si))
  {
    forall k: nat | k < w
      ensures SelectIx(di, si, k) < w && |InsertSelected(p, di, si).order| == w
        && InsertSelected(p, di, si).order[k] == p.order[SelectIx(di, si, k)] {
      InsertSelectedAt(w, p, di, si, k);
    }
    hide InsertSelected;
    Rearranged(w, p, InsertSelected(p, di, si), seq(w, k requires 0 <= k < w => SelectIx(di, si, k)));
  }

  lemma RemoveAt(w: nat, p: Perm, i: nat, k: nat)
    requires |p.order| == w && k < w && i < p.size <= w
    ensures RemoveIx(p.size, i, k) < w && |Remove(p, i).order| == w
      && Remove(p, i).order[k] == p.order[RemoveIx(p.size, i, k)]
  { }

  lemma RemoveOk(w: nat, p: Perm, i: nat)
    requires PermOk(w, p) && i < p.size <= w
    ensures PermOk(w, Remove(p, i))
  {
    forall k: nat | k < w
      ensures RemoveIx(p.size, i, k) < w && |Remove(p, i).order| == w
        && Remove(p, i).order[k] == p.order[RemoveIx(p.size, i, k)] {
      RemoveAt(w, p, i, k);
    }
    hide Remove;
    Rearranged(w, p, Remove(p, i), seq(w, k requires 0 <= k < w => RemoveIx(p.size, i, k)));
  }

  lemma RemoveToBackAt(w: nat, p: Perm, i: nat, k: nat)
    requires |p.order| == w && k < w && i < p.size <= w
    ensures RemoveIx(w, i, k) < w && |RemoveToBack(p, i).order| == w
      && RemoveToBack(p, i).order[k] == p.order[RemoveIx(w, i, k)]
  { }

  lemma RemoveToBackOk(w: nat, p: Perm, i: nat)
    requires PermOk(w, p) && i < p.size <= w
    ensures PermOk(w, RemoveToBack(p, i))
  {
    forall k: nat | k < w
      ensures RemoveIx(w, i, k) < w && |RemoveToBack(p, i).order| == w
        && RemoveToBack(p, i).order[k] == p.order[RemoveIx(w, i, k)] {
      RemoveToBackAt(w, p, i, k);
    }
    hide RemoveToBack;
    Rearranged(w, p, RemoveToBack(p, i), seq(w, k requires 0 <= k < w => RemoveIx(w, i, k)));
  }

  lemma RotateAt(w: nat, p: Perm, i: nat, j: nat, k: nat)
    requires |p.order| == w && k < w && i <= j <= w
    ensures RotateIx(w, i, j, k) < w && |Rotate(p, i, j).order| == w
      && Rotate(p, i, j).order[k] == p.order[RotateIx(w, i, j, k)]
  { }

  lemma RotateOk(w: nat, p: Perm, i: nat, j: nat)
    requires PermOk(w, p) && i <= j <= w
    ensures PermOk(w, Rotate(p, i, j))
  {
    forall k: nat | k < w
      ensures RotateIx(w, i, j, k) < w && |Rotate(p, i, j).order| == w
        && Rotate(p, i, j).order[k] == p.order[RotateIx(w, i, j, k)] {
      RotateAt(w, p, i, j, k);
    }
    hide Rotate;
    Rearranged(w, p, Rotate(p, i, j), seq(w, k requires 0 <= k < w => RotateIx(w, i, j, k)));
  }

  lemma ExchangeAt(w: nat, p: Perm, i: nat, j: nat, k: nat)
    requires |p.order| == w && k < w && i < w && j < w
    ensures SwapIx(i, j, k) < w && |Exchange(p, i, j).order| == w
      && Exchange(p, i, j).order[k] == p.order[SwapIx(i, j, k)]
  { }

  lemma ExchangeOk(w: nat, p: Perm, i: nat, j: nat)
    requires PermOk(w, p) && i < w && j < w
    ensures PermOk(w, Exchange(p, i, j))
  {
    forall k: nat | k < w
      ensures SwapIx(i, j, k) < w && |Exchange(p, i, j).order| == w
        && Exchange(p, i, j).order[k] == p.order[SwapIx(i, j, k)] {
      ExchangeAt(w, p, i, j, k);
    }
    hide Exchange;
    Rearranged(w, p, Exchange(p, i, j), seq(w, k requires 0 <= k < w => SwapIx(i, j, k)));
  }

  lemma ExchangeValuesOk(w: nat, p: Perm, x: nat, y: nat)
    requires PermOk(w, p) && x < w && y < w
    ensures PermOk(w, ExchangeValues(p, x, y))
  { }

  // insert_from_back undoes remove_to_back at the same place
  lemma InsertUndoesRemove(w: nat, p: Perm, i: nat)
    requires PermOk(w, p) && i < p.size
    ensures InsertFromBack(RemoveToBack(p, i), i) == p
  {
    var q := RemoveToBack(p, i);
    var r := InsertFromBack(q, i);
    assert forall k :: 0 <= k < w ==>
      q.order[k] == if k < i then p.order[k] else if k < w - 1 then p.order[k + 1] else p.order[i];
    assert forall k :: 0 <= k < w ==> r.order[k] == p.order[k];
  }

  // and remove_to_back undoes insert_from_back
  lemma RemoveUndoesInsert(w: nat, p: Perm, i: nat)
    requires PermOk(w, p) && p.size < w && i <= p.size
    ensures RemoveToBack(InsertFromBack(p, i), i) == p
  {
    var q := InsertFromBack(p, i);
    var r := RemoveToBack(q, i);
    assert forall k :: 0 <= k < w ==>
      q.order[k] == if k < i then p.order[k] else if k == i then p.order[w - 1] else p.order[k - 1];
    assert forall k :: 0 <= k < w ==> r.order[k] == p.order[k];
  }

  // a turn within n places, as the comment above rotate puts it
  function Turned(i: nat, d: nat, n: nat, k: nat): nat
    requires i <= k && n > 0
  { i + (k - i + d) % n }

  lemma TurnedIs(i: nat, d: nat, n: nat, k: nat)
    requires i <= k < i + n && d <= n
    ensures Turned(i, d, n, k) == if k + d < i + n then k + d else k + d - n
  {
    if k + d >= i + n {
      assert (k - i + d) == n + (k - i + d - n);
      assert (k - i + d) % n == k - i + d - n;
    }
  }

  // rotate as the comment above it has it: positions i to size() turn
  ghost predicate AsCommented(p: Perm, q: seq<nat>, i: nat, j: nat)
    requires i <= j <= p.size <= |p.order| == |q|
  { forall k :: i <= k < p.size ==> CommentAt(p, q, i, j, k) }

  ghost predicate CommentAt(p: Perm, q: seq<nat>, i: nat, j: nat, k: nat)
    requires i <= j <= p.size <= |p.order| == |q| && i <= k < p.size
  {
    TurnedIs(i, j - i, p.size - i, k);
    q[k] == p.order[Turned(i, j - i, p.size - i, k)]
  }

  lemma CommentIs(w: nat, p: Perm, i: nat, j: nat, k: nat)
    requires |p.order| == w && i <= j <= p.size <= w && i <= k < p.size
    ensures |Rotate(p, i, j).order| == w
    ensures CommentAt(p, Rotate(p, i, j).order, i, j, k) <==>
      p.order[if k < i + (w - j) then k + (j - i) else k - (w - j)] ==
        p.order[if k + j - i < p.size then k + j - i else k + j - p.size]
  {
    TurnedIs(i, j - i, p.size - i, k);
    RotateAt(w, p, i, j, k);
    hide Turned; hide Rotate;
  }

  // The code turns positions i to W instead. The two agree exactly when all slots are live or nothing moves.
  lemma RotateComment(w: nat, p: Perm, i: nat, j: nat)
    requires PermOk(w, p) && i <= j <= p.size
    ensures |Rotate(p, i, j).order| == w && (AsCommented(p, Rotate(p, i, j).order, i, j) <==> p.size == w || i == j)
  {
    var q := Rotate(p, i, j).order;
    RotateSize(p, i, j);
    hide Rotate; hide Turned; hide CommentAt;
    if p.size == w || i == j {
      forall k | i <= k < p.size ensures CommentAt(p, q, i, j, k) { CommentIs(w, p, i, j, k); }
    } else {
      // the place that should wrap around holds a free slot
      var k := p.size - (j - i);
      CommentIs(w, p, i, j, k);
      assert !CommentAt(p, q, i, j, k);
    }
  }
}
