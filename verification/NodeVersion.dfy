// The 32-bit version word of a node: a lock bit, two dirty bits, a 6-bit insert counter that carries into a 19-bit
// split counter, and state bits above them.
module NodeVersion {
  const LOCK: bv32 := 0x1
  const INSERTING: bv32 := 0x2
  const SPLITTING: bv32 := 0x4
  const DIRTY: bv32 := 0x6
  const VSPLIT_LOW: bv32 := 0x200
  const UNUSED: bv32 := 0x1000_0000
  const DELETED: bv32 := 0x2000_0000
  const ROOT: bv32 := 0x4000_0000
  const SPLIT_UNLOCK_MASK: bv32 := 0xAFFF_FE00   // ~(root | unused | low nine bits)
  const UNLOCK_MASK: bv32 := 0xEFFF_FFF8         // ~(unused | low three bits)

  function Unlocked(x: bv32): bv32 {
    if x & SPLITTING != 0 then (x + VSPLIT_LOW) & SPLIT_UNLOCK_MASK
    else (x + ((x & INSERTING) << 2)) & UNLOCK_MASK
  }

  predicate HasChanged(x: bv32, v: bv32) { x ^ v > LOCK }
  predicate HasSplit(x: bv32, v: bv32) { x ^ v >= VSPLIT_LOW }

  // ---------- the low w bits as a number ----------
  function Pow2(w: nat): (r: nat)
    ensures r >= 1
  { if w == 0 then 1 else 2 * Pow2(w - 1) }

  function Bit(x: bv32): (r: nat)
    ensures r <= 1
  { if Odd(x) then 1 else 0 }

  predicate Odd(x: bv32) { x & 1 != 0 }

  function Half(x: bv32): bv32 { x >> 1 }
  function Succ(x: bv32): bv32 { x + 1 }
  predicate Small(x: bv32) { x < 0x8000_0000 }

  function Val(x: bv32, w: nat): (r: nat)
    ensures r < Pow2(w)
  { if w == 0 then 0 else Bit(x) + 2 * Val(Half(x), w - 1) }

  function Mask(w: nat): bv32 { if w == 0 then 0 else Longer(Mask(w - 1)) }
  function Longer(m: bv32): bv32 { (m << 1) | 1 }
  predicate Agree(a: bv32, b: bv32, m: bv32) { (a ^ b) & m == 0 }

  lemma {:induction false} ValAgree(a: bv32, b: bv32, w: nat)
    requires Agree(a, b, Mask(w))
    ensures Val(a, w) == Val(b, w)
    decreases w
  {
    hide Agree; hide Odd; hide Half; hide Longer;
    if w > 0 {
      AgreeStep(a, b, Mask(w - 1));
      ValAgree(Half(a), Half(b), w - 1);
    }
  }

  lemma AgreeStep(a: bv32, b: bv32, m: bv32)
    ensures Agree(a, b, Longer(m)) <==> (Odd(a) <==> Odd(b)) && Agree(Half(a), Half(b), m)
  {
    hide Agree; hide Odd; hide Half; hide Longer;
    if Agree(a, b, Longer(m)) { AgreeLow(a, b, m); AgreeHigh(a, b, m); }
    if (Odd(a) <==> Odd(b)) && Agree(Half(a), Half(b), m) { AgreeUp(a, b, m); }
  }

  lemma AgreeLow(a: bv32, b: bv32, m: bv32)
    requires Agree(a, b, Longer(m))
    ensures Odd(a) <==> Odd(b)
  { }

  lemma AgreeHigh(a: bv32, b: bv32, m: bv32)
    requires Agree(a, b, Longer(m))
    ensures Agree(Half(a), Half(b), m)
  { }

  lemma AgreeUp(a: bv32, b: bv32, m: bv32)
    requires (Odd(a) <==> Odd(b)) && Agree(Half(a), Half(b), m)
    ensures Agree(a, b, Longer(m))
  { }

  lemma {:induction false} ValSame(a: bv32, b: bv32, w: nat)
    requires Val(a, w) == Val(b, w)
    ensures Agree(a, b, Mask(w))
    decreases w
  {
    if w == 0 { AgreeNone(a, b); }
    else {
      hide Agree; hide Odd; hide Half; hide Longer;
      ValSame(Half(a), Half(b), w - 1);
      AgreeStep(a, b, Mask(w - 1));
    }
  }

  lemma AgreeNone(a: bv32, b: bv32)
    ensures Agree(a, b, 0)
  { }

  lemma {:induction false} ValInc(x: bv32, w: nat)
    requires Small(x)
    ensures Val(Succ(x), w) == if Val(x, w) + 1 == Pow2(w) then 0 else Val(x, w) + 1
    decreases w
  {
    hide Small; hide Odd; hide Half; hide Succ;
    if w > 0 {
      IncBits(x);
      if Odd(x) { ValInc(Half(x), w - 1); }
    }
  }

  lemma IncBits(x: bv32)
    requires Small(x)
    ensures if !Odd(x) then Odd(Succ(x)) && Half(Succ(x)) == Half(x)
            else !Odd(Succ(x)) && Half(Succ(x)) == Succ(Half(x)) && Small(Half(x))
  { }

  function SixDown(x: bv32): bv32 { x >> 6 }

  lemma ValThree(x: bv32, w: nat)
    ensures Val(x, 3 + w) == Val(x, 3) + 8 * Val(Half(Half(Half(x))), w)
  {
    hide Val; hide Bit; hide Half; hide Pow2;
    var a := Half(x);
    var b := Half(a);
    ValStep(x, 2 + w); ValStep(x, 2);
    ValStep(a, 1 + w); ValStep(a, 1);
    ValStep(b, w); ValStep(b, 0);
    ValStep(Half(b), 0);
  }

  lemma ValSplit(x: bv32, w: nat)
    ensures Val(x, 6 + w) == Val(x, 6) + 64 * Val(SixDown(x), w)
  {
    SixHalves(x);
    hide Val; hide Bit; hide Half; hide Pow2; hide SixDown;
    ValThree(x, 3 + w);
    ValThree(Half(Half(Half(x))), w);
    ValThree(x, 3);
  }

  lemma SixHalves(x: bv32)
    ensures Half(Half(Half(Half(Half(Half(x)))))) == SixDown(x)
  { }

  lemma ValStep(x: bv32, w: nat)
    ensures Val(x, w + 1) == Bit(x) + 2 * Val(Half(x), w) && Val(x, 0) == 0
  { hide Bit; hide Half; assert Val(x, w + 1) == Bit(x) + 2 * Val(Half(x), w + 1 - 1); }

  // ---------- the counters ----------
  const COUNT_RANGE: nat := 0x200_0000
  const SPLIT_RANGE: nat := 0x8_0000

  function Count(v: bv32): nat { Val(CountField(v), 25) }    // split and insert counter as one number
  function Splits(v: bv32): nat { Val(SplitField(v), 19) }

  lemma Ranges()
    ensures Pow2(25) == COUNT_RANGE && Pow2(19) == SPLIT_RANGE && Pow2(6) == 64
  {
    assert Pow2(6) == 64;
    assert Pow2(19) == 64 * 8192;
    assert Pow2(25) == 64 * SPLIT_RANGE;
  }

  lemma MaskSix(w: nat)
    ensures Mask(w + 6) == Longer(Longer(Longer(Longer(Longer(Longer(Mask(w)))))))
  {
    hide Longer;
    assert Mask(w + 1) == Longer(Mask(w));
    assert Mask(w + 2) == Longer(Mask(w + 1));
    assert Mask(w + 3) == Longer(Mask(w + 2));
    assert Mask(w + 4) == Longer(Mask(w + 3));
    assert Mask(w + 5) == Longer(Mask(w + 4));
    assert Mask(w + 6) == Longer(Mask(w + 5));
  }

  lemma Masks()
    ensures Mask(25) == 0x1FF_FFFF && Mask(19) == 0x7_FFFF && Mask(6) == 63
  {
    MaskSix(0);
    MaskSix(1);
    MaskSix(7);
    MaskSix(13);
    MaskSix(19);
  }

  predicate CountersAgree(a: bv32, b: bv32) { (a ^ b) & 0x0FFF_FFF8 == 0 }
  function CountField(v: bv32): bv32 { v >> 3 }
  function SplitField(v: bv32): bv32 { v >> 9 }
  predicate Splitting(v: bv32) { v & SPLITTING != 0 }
  predicate Inserting(v: bv32) { v & INSERTING != 0 }
  predicate Dirty(v: bv32) { v & DIRTY != 0 }

  lemma CountSame(a: bv32, b: bv32)
    requires CountersAgree(a, b)
    ensures Count(a) == Count(b) && Splits(a) == Splits(b)
  {
    Masks();
    CountBits(a, b);
    SplitCounterBits(a, b);
    hide Agree; hide CountField; hide SplitField; hide CountersAgree;
    ValAgree(CountField(a), CountField(b), 25);
    ValAgree(SplitField(a), SplitField(b), 19);
  }

  lemma CountBits(a: bv32, b: bv32)
    requires CountersAgree(a, b)
    ensures Agree(CountField(a), CountField(b), 0x1FF_FFFF)
  { }

  lemma SplitCounterBits(a: bv32, b: bv32)
    requires CountersAgree(a, b)
    ensures Agree(SplitField(a), SplitField(b), 0x7_FFFF)
  { }

  lemma CountParts(v: bv32)
    ensures Count(v) == Val(CountField(v), 6) + 64 * Splits(v)
  {
    ShiftNine(v);
    hide CountField; hide SplitField; hide SixDown;
    ValSplit(CountField(v), 19);
  }

  lemma ShiftNine(v: bv32)
    ensures SixDown(CountField(v)) == SplitField(v)
  { }

  // an insert section: the counter goes up by one, carrying into the split counter
  lemma InsertUnlock(v: bv32)
    requires !Splitting(v) && Inserting(v)
    ensures Count(Unlocked(v)) == if Count(v) + 1 == COUNT_RANGE then 0 else Count(v) + 1
  {
    hide Agree; hide CountField; hide Unlocked; hide Succ; hide Small; hide Splitting; hide Inserting; hide Val;
    hide Mask; hide Pow2;
    InsertBits(v);
    Masks();
    Ranges();
    ValAgree(CountField(Unlocked(v)), Succ(CountField(v)), 25);
    ValInc(CountField(v), 25);
  }

  lemma InsertBits(v: bv32)
    requires !Splitting(v) && Inserting(v)
    ensures Agree(CountField(Unlocked(v)), Succ(CountField(v)), 0x1FF_FFFF) && Small(CountField(v))
  { }

  // a split section: the split counter goes up by one, the insert counter starts over
  lemma SplitUnlock(v: bv32)
    requires Splitting(v)
    ensures Splits(Unlocked(v)) == (if Splits(v) + 1 == SPLIT_RANGE then 0 else Splits(v) + 1)
      && Val(CountField(Unlocked(v)), 6) == 0
  {
    Masks();
    Ranges();
    SplitBits(v);
    ZeroVal(6);
    hide Agree; hide CountField; hide SplitField; hide Unlocked; hide Succ; hide Small; hide Splitting;
    ValAgree(SplitField(Unlocked(v)), Succ(SplitField(v)), 19);
    ValAgree(CountField(Unlocked(v)), 0, 6);
    ValInc(SplitField(v), 19);
  }

  lemma {:induction false} ZeroVal(w: nat)
    ensures Val(0, w) == 0
  { if w > 0 { ZeroVal(w - 1); } }

  lemma SplitBits(v: bv32)
    requires Splitting(v)
    ensures Agree(SplitField(Unlocked(v)), Succ(SplitField(v)), 0x7_FFFF) && Small(SplitField(v))
      && Agree(CountField(Unlocked(v)), 0, 63)
  { }

  // ---------- what happens to a node's word between two looks of a reader ----------
  // The steps of whoever holds the lock; marks are made, and the word is unlocked, under the lock only.
  datatype Step = Lock | MarkIns | MarkSplitting | MarkDel | MarkDelTree | MarkRoot | MarkNonroot | Unlock

  predicate Locked(v: bv32) { v & LOCK != 0 }

  // masstree_invariant: an unlocked word is not dirty
  predicate Enabled(v: bv32, a: Step) { if a.Lock? then !Locked(v) && !Dirty(v) else Locked(v) }

  function Do(v: bv32, a: Step): bv32 {
    match a
    case Lock => v | LOCK
    case MarkIns => v | INSERTING
    case MarkSplitting => v | SPLITTING
    case MarkDel => v | DELETED | SPLITTING
    case MarkDelTree => v | DELETED
    case MarkRoot => v | ROOT
    case MarkNonroot => v & 0xBFFF_FFFF
    case Unlock => Unlocked(v)
  }

  predicate IsMark(a: Step) { a.MarkIns? || a.MarkSplitting? || a.MarkDel? }

  ghost predicate Run(v: bv32, acts: seq<Step>, w: bv32)
    decreases |acts|
  {
    if acts == [] then v == w else Enabled(v, acts[0]) && Run(Do(v, acts[0]), acts[1..], w)
  }

  // marked unlocks, and those among them that end a split or delete
  ghost function Sections(v: bv32, acts: seq<Step>): nat
    decreases |acts|
  {
    if acts == [] then 0 else (if acts[0].Unlock? && Dirty(v) then 1 else 0) + Sections(Do(v, acts[0]), acts[1..])
  }

  ghost function SplitSections(v: bv32, acts: seq<Step>): nat
    decreases |acts|
  {
    if acts == [] then 0
    else (if acts[0].Unlock? && Splitting(v) then 1 else 0) + SplitSections(Do(v, acts[0]), acts[1..])
  }

  lemma StepKeepsCounters(v: bv32, a: Step)
    requires !(a.Unlock? && Dirty(v))
    ensures CountersAgree(v, Do(v, a))
  {
    match a
    case Unlock => UnlockUnmarked(v);
    case MarkNonroot => ClearRoot(v);
    case Lock => SetBits(v, LOCK);
    case MarkIns => SetBits(v, INSERTING);
    case MarkSplitting => SetBits(v, SPLITTING);
    case MarkDel => SetBits(v, DELETED | SPLITTING);
    case MarkDelTree => SetBits(v, DELETED);
    case MarkRoot => SetBits(v, ROOT);
  }

  lemma SetBits(v: bv32, m: bv32)
    requires m & 0x0FFF_FFF8 == 0
    ensures (v ^ (v | m)) & 0x0FFF_FFF8 == 0
  { }

  lemma ClearRoot(v: bv32)
    ensures (v ^ (v & 0xBFFF_FFFF)) & 0x0FFF_FFF8 == 0
  { }

  lemma UnlockUnmarked(v: bv32)
    requires v & 6 == 0
    ensures (v ^ Unlocked(v)) & 0x0FFF_FFF8 == 0
  { }

  lemma DirtyIff(v: bv32)
    ensures Dirty(v) <==> Splitting(v) || Inserting(v)
  {
    hide Dirty; hide Splitting; hide Inserting;
    if Dirty(v) && !Splitting(v) { DirtyInserts(v); }
    if !Dirty(v) { CleanIsNeither(v); }
  }

  lemma DirtyInserts(v: bv32)
    requires Dirty(v) && !Splitting(v)
    ensures Inserting(v)
  { }

  lemma CleanIsNeither(v: bv32)
    requires !Dirty(v)
    ensures !Splitting(v) && !Inserting(v)
  { }

  lemma MarkDirties(v: bv32, a: Step)
    requires IsMark(a)
    ensures Dirty(Do(v, a))
  {
    match a
    case MarkIns => SetDirty(v, INSERTING);
    case MarkSplitting => SetDirty(v, SPLITTING);
    case MarkDel => SetDirty(v, DELETED | SPLITTING);
  }

  lemma PlainDirty(v: bv32, a: Step)
    requires !IsMark(a) && !a.Unlock?
    ensures Dirty(Do(v, a)) <==> Dirty(v)
  {
    match a
    case MarkNonroot => RootDirty(v);
    case Lock => SetDirty(v, LOCK);
    case MarkDelTree => SetDirty(v, DELETED);
    case MarkRoot => SetDirty(v, ROOT);
  }

  lemma SetDirty(v: bv32, m: bv32)
    ensures (v | m) & 6 == (v & 6) | (m & 6) && (m & 6 != 0 ==> (v | m) & 6 != 0)
  { }

  lemma RootDirty(v: bv32)
    ensures (v & 0xBFFF_FFFF) & 6 == v & 6
  { }

  // a counter d steps on
  function Turn(c: nat, d: nat, m: nat): nat
    requires m > 0
  { (c + d) % m }

  // one step: how far the counters move
  lemma StepCounts(v: bv32, a: Step) returns (d: nat, e: nat)
    requires Enabled(v, a)
    ensures Count(Do(v, a)) == Turn(Count(v), d, COUNT_RANGE) && Splits(Do(v, a)) == Turn(Splits(v), e, SPLIT_RANGE)
    ensures if a.Unlock? && Dirty(v) then 1 <= d <= 64 else d == 0
    ensures e <= (if a.Unlock? && Dirty(v) then 1 else 0) && (a.Unlock? && Splitting(v) ==> e == 1)
  {
    hide Do; hide Enabled; hide Dirty; hide Splitting; hide Inserting; hide CountersAgree; hide Val; hide CountField;
    hide SplitField; hide Pow2; hide Unlocked;
    DirtyIff(v);
    var w := Do(v, a);
    CountRange(v);
    CountRange(w);
    CountParts(v);
    CountParts(w);
    if a.Unlock? && Dirty(v) {
      UnlockIs(v);
      if Splitting(v) {
        SplitUnlock(v);
        d, e := 64 - Val(CountField(v), 6), 1;
      } else {
        InsertUnlock(v);
        d := 1;
        e := if Val(CountField(v), 6) == 63 then 1 else 0;
      }
    } else {
      StepKeepsCounters(v, a);
      CountSame(v, w);
      d, e := 0, 0;
    }
  }

  lemma UnlockIs(v: bv32)
    ensures Do(v, Unlock) == Unlocked(v)
  { }

  lemma CountRange(v: bv32)
    ensures Count(v) < COUNT_RANGE && Splits(v) < SPLIT_RANGE && Val(CountField(v), 6) < 64
  { Ranges(); }

  // over a run: each marked unlock moves the counter by 1 to 64 and the split counter by at most 1, at least 1 for a
  // split
  lemma {:induction false} RunCounts(v: bv32, acts: seq<Step>, w: bv32) returns (d: nat, e: nat)
    requires Run(v, acts, w)
    ensures Count(w) == Turn(Count(v), d, COUNT_RANGE) && Splits(w) == Turn(Splits(v), e, SPLIT_RANGE)
    ensures Sections(v, acts) <= d <= 64 * Sections(v, acts)
    ensures SplitSections(v, acts) <= e <= Sections(v, acts)
    decreases |acts|
  {
    hide Do; hide Enabled; hide Dirty; hide Splitting; hide Inserting; hide Val; hide CountField; hide SplitField;
    hide Pow2; hide Unlocked; hide Count; hide Splits;
    CountRange(v);
    TurnNone(Count(v), COUNT_RANGE);
    TurnNone(Splits(v), SPLIT_RANGE);
    hide Turn;
    if acts == [] {
      d, e := 0, 0;
    } else {
      var d1, e1 := StepCounts(v, acts[0]);
      var d2, e2 := RunCounts(Do(v, acts[0]), acts[1..], w);
      DirtyIff(v);
      ModAdd(Count(v), d1, d2, COUNT_RANGE);
      ModAdd(Splits(v), e1, e2, SPLIT_RANGE);
      d, e := d1 + d2, e1 + e2;
    }
  }

  lemma TurnNone(c: nat, m: nat)
    requires c < m
    ensures Turn(c, 0, m) == c
  { }

  lemma ModAdd(a: nat, b: nat, c: nat, m: nat)
    requires m > 0
    ensures Turn(Turn(a, b, m), c, m) == Turn(a, b + c, m)
  {
    var q := (a + b) / m;
    assert a + b == q * m + (a + b) % m;
    ModPlus((a + b) % m + c, q, m);
  }

  lemma {:induction false} ModPlus(x: nat, q: nat, m: nat)
    requires m > 0
    ensures (x + q * m) % m == x % m
  {
    if q > 0 {
      ModPlus(x, q - 1, m);
      assert x + q * m == (x + (q - 1) * m) + m;
      ModOnce(x + (q - 1) * m, m);
    }
  }

  lemma ModOnce(x: nat, m: nat)
    requires m > 0
    ensures (x + m) % m == x % m
  {
    var q, r := x / m, x % m;
    assert x == q * m + r;
    assert x + m == (q + 1) * m + r;
    DivUnique(x + m, m, q + 1, r);
  }

  lemma MulGap(a: nat, b: nat, m: nat)
    ensures a < b ==> a * m + m <= b * m
  {
    if a < b {
      var k := b - a - 1;
      assert b * m == (a + 1 + k) * m == a * m + m + k * m;
    }
  }

  lemma DivUnique(x: nat, m: nat, q: nat, r: nat)
    requires m > 0 && x == q * m + r && r < m
    ensures x % m == r
  {
    var q2, r2 := x / m, x % m;
    assert x == q2 * m + r2;
    MulGap(q, q2, m);
    MulGap(q2, q, m);
  }

  // a mark is either still there or has become a section
  lemma {:induction false} MarksCount(v: bv32, acts: seq<Step>, w: bv32)
    requires Run(v, acts, w) && !Dirty(w) && Sections(v, acts) == 0
    ensures !Dirty(v) && forall i :: 0 <= i < |acts| ==> !IsMark(acts[i])
    decreases |acts|
  {
    hide Do; hide Enabled; hide Dirty;
    if acts != [] {
      var a := acts[0];
      MarksCount(Do(v, a), acts[1..], w);
      if IsMark(a) { MarkDirties(v, a); }
      else if !a.Unlock? { PlainDirty(v, a); }
      forall i | 0 <= i < |acts| ensures !IsMark(acts[i]) { if i > 0 { assert acts[i] == acts[1..][i-1]; } }
    }
  }

  lemma Unchanged(x: bv32, w: bv32)
    requires !HasChanged(x, w)
    ensures CountersAgree(x, w) && (Dirty(w) <==> Dirty(x))
  {
    SameButLock(x, w);
    SameDirty(x, w);
  }

  lemma SameButLock(x: bv32, w: bv32)
    requires !HasChanged(x, w)
    ensures CountersAgree(x, w)
  { }

  lemma SameDirty(x: bv32, w: bv32)
    requires !HasChanged(x, w)
    ensures Dirty(w) <==> Dirty(x)
  { }

  // A reader took the stable version x and finds later that nothing has changed. With fewer than 2^19 marked unlocks in
  // between, nobody marked an insert, split or delete in between, finished or not.
  lemma StableMeansUntouched(x: bv32, acts: seq<Step>, w: bv32)
    requires !Dirty(x) && Run(x, acts, w) && !HasChanged(x, w) && Sections(x, acts) < SPLIT_RANGE
    ensures forall i :: 0 <= i < |acts| ==> !IsMark(acts[i])
  {
    hide Dirty; hide HasChanged; hide Val; hide CountField; hide SplitField; hide CountersAgree; hide Splits;
    Unchanged(x, w);
    CountSame(x, w);
    var d, e := RunCounts(x, acts, w);
    CountRange(x);
    NoWrap(Count(x), d, COUNT_RANGE);
    MarksCount(x, acts, w);
  }

  lemma NoWrap(c: nat, d: nat, m: nat)
    requires c < m && d < m && c == Turn(c, d, m)
    ensures d == 0
  {
    if c + d >= m { DivUnique(c + d, m, 1, c + d - m); } else { DivUnique(c + d, m, 0, c + d); }
  }

  // has_split false: no split or delete was completed in between.
  lemma NoSplitMissed(x: bv32, acts: seq<Step>, w: bv32)
    requires Run(x, acts, w) && !HasSplit(x, w) && Sections(x, acts) < SPLIT_RANGE
    ensures SplitSections(x, acts) == 0
  {
    hide Dirty; hide Val; hide CountField; hide SplitField; hide Count;
    var d, e := RunCounts(x, acts, w);
    SplitsSame(x, w);
    CountRange(x);
    NoWrap(Splits(x), e, SPLIT_RANGE);
  }

  lemma SplitsSame(x: bv32, w: bv32)
    requires !HasSplit(x, w)
    ensures Splits(x) == Splits(w)
  {
    SplitFieldSame(x, w);
    hide SplitField; hide HasSplit;
  }

  lemma SplitFieldSame(x: bv32, w: bv32)
    requires !HasSplit(x, w)
    ensures SplitField(x) == SplitField(w)
  { }

  // ---------- the bound is exact ----------
  // unlocked and clean, no root or unused bit, insert counter at zero
  predicate Plain(v: bv32) { v & 0x5000_01FF == 0 }
  predicate StateSame(a: bv32, b: bv32) { (a ^ b) & 0xA000_0000 == 0 }

  function Round(v: bv32): bv32 { Unlocked(v | LOCK | SPLITTING) }

  function Around(v: bv32, n: nat): bv32 { if n == 0 then v else Round(Around(v, n - 1)) }

  function Rounds(n: nat): seq<Step> { if n == 0 then [] else [Lock, MarkSplitting, Unlock] + Rounds(n - 1) }

  lemma RoundPlain(v: bv32)
    requires Plain(v)
    ensures Plain(Round(v))
  { }

  lemma RoundState(v: bv32)
    requires Plain(v)
    ensures StateSame(v, Round(v))
  { }

  lemma RoundSplits(v: bv32)
    requires Plain(v)
    ensures Splits(Round(v)) == Turn(Splits(v), 1, SPLIT_RANGE)
  {
    RoundMarks(v);
    hide Splitting; hide Val; hide SplitField; hide Unlocked;
    SplitUnlock(v | LOCK | SPLITTING);
    CountSame(v, v | LOCK | SPLITTING);
    CountRange(v);
  }

  lemma RoundMarks(v: bv32)
    ensures Splitting(v | LOCK | SPLITTING) && CountersAgree(v, v | LOCK | SPLITTING)
  { }

  lemma StateTrans(a: bv32, b: bv32, c: bv32)
    requires StateSame(a, b) && StateSame(b, c)
    ensures StateSame(a, c)
  { }

  // n splits later
  ghost predicate Later(v: bv32, w: bv32, n: nat)
  { Plain(w) && StateSame(v, w) && Splits(w) == Turn(Splits(v), n, SPLIT_RANGE) }

  lemma LaterNone(v: bv32)
    requires Plain(v)
    ensures Later(v, v, 0)
  {
    CountRange(v);
    TurnNone(Splits(v), SPLIT_RANGE);
    StateRefl(v);
    hide Plain; hide StateSame; hide Splits; hide Turn;
  }

  lemma LaterNext(v: bv32, w: bv32, n: nat)
    requires Later(v, w, n)
    ensures Later(v, Round(w), n + 1)
  {
    hide Plain; hide StateSame; hide Round; hide Splits; hide Turn;
    RoundPlain(w);
    RoundState(w);
    RoundSplits(w);
    StateTrans(v, w, Round(w));
    ModAdd(Splits(v), n, 1, SPLIT_RANGE);
  }

  lemma {:induction false} AroundFacts(v: bv32, n: nat)
    requires Plain(v)
    ensures Later(v, Around(v, n), n)
    decreases n
  {
    hide Plain; hide Later; hide Round;
    if n == 0 { LaterNone(v); }
    else {
      AroundFacts(v, n - 1);
      LaterNext(v, Around(v, n - 1), n - 1);
    }
  }

  lemma StateRefl(v: bv32)
    ensures StateSame(v, v)
  { }

  lemma SameWord(a: bv32, b: bv32)
    requires Plain(a) && Plain(b) && StateSame(a, b) && Agree(SplitField(a), SplitField(b), 0x7_FFFF)
    ensures a == b
  { }

  lemma {:induction false} RoundsRun(v: bv32, n: nat)
    requires Plain(v)
    ensures Run(v, Rounds(n), Back(v, n)) && Sections(v, Rounds(n)) == n == SplitSections(v, Rounds(n))
    decreases n
  {
    if n > 0 {
      RoundPlain(v);
      RoundSteps(v);
      hide Plain; hide Round; hide Do; hide Enabled; hide Dirty; hide Splitting;
      RoundsRun(Round(v), n - 1);
      var rest, w := Rounds(n - 1), Back(v, n);
      var a := Do(v, Lock);
      var b := Do(a, MarkSplitting);
      assert Rounds(n) == [Lock] + ([MarkSplitting] + ([Unlock] + rest));
      hide Rounds; hide Back; hide Run; hide Sections; hide SplitSections;
      Cons(b, Unlock, rest, w);
      Cons(a, MarkSplitting, [Unlock] + rest, w);
      Cons(v, Lock, [MarkSplitting] + ([Unlock] + rest), w);
    }
  }

  lemma Cons(v: bv32, a: Step, rest: seq<Step>, w: bv32)
    requires Enabled(v, a) && Run(Do(v, a), rest, w)
    ensures Run(v, [a] + rest, w)
    ensures Sections(v, [a] + rest) == (if a.Unlock? && Dirty(v) then 1 else 0) + Sections(Do(v, a), rest)
    ensures SplitSections(v, [a] + rest) == (if a.Unlock? && Splitting(v) then 1 else 0) + SplitSections(Do(v, a), rest)
  {
    hide Do; hide Enabled; hide Dirty; hide Splitting;
    assert ([a] + rest)[0] == a && ([a] + rest)[1..] == rest;
  }

  // the rounds counted from the other end
  function Back(v: bv32, n: nat): bv32
    decreases n
  { if n == 0 then v else Back(Round(v), n - 1) }

  lemma {:induction false} BackIsAround(v: bv32, n: nat)
    ensures Back(v, n) == Around(v, n)
    decreases n
  {
    hide Round;
    if n > 1 {
      BackIsAround(Round(v), n - 1);
      BackIsAround(Round(v), n - 2);
      BackIsAround(v, n - 1);
    }
  }

  lemma RoundSteps(v: bv32)
    requires Plain(v)
    ensures Enabled(v, Lock) && Enabled(Do(v, Lock), MarkSplitting) && Enabled(Do(Do(v, Lock), MarkSplitting), Unlock)
    ensures Do(Do(Do(v, Lock), MarkSplitting), Unlock) == Round(v)
    ensures Dirty(Do(Do(v, Lock), MarkSplitting)) && Splitting(Do(Do(v, Lock), MarkSplitting))
  {
    hide Plain; hide Dirty; hide Locked; hide Splitting; hide Round; hide Enabled; hide Do;
    var a := Do(v, Lock);
    LockFree(v);
    LockedThen(a);
    MarkDirties(a, MarkSplitting);
    RoundIs(v);
  }

  lemma LockFree(v: bv32)
    requires Plain(v)
    ensures Enabled(v, Lock) && Locked(Do(v, Lock))
  {
    PlainFree(v);
    SetLock(v, LOCK);
    hide Plain; hide Dirty; hide Locked;
  }

  lemma LockedThen(a: bv32)
    requires Locked(a)
    ensures Enabled(a, MarkSplitting) && Enabled(Do(a, MarkSplitting), Unlock)
  {
    SetLock(a, SPLITTING);
    hide Locked;
  }

  lemma RoundIs(v: bv32)
    ensures Do(Do(Do(v, Lock), MarkSplitting), Unlock) == Round(v) && Splitting(Do(Do(v, Lock), MarkSplitting))
  {
    RoundMarks(v);
    hide Splitting; hide Unlocked;
  }

  lemma PlainFree(v: bv32)
    requires Plain(v)
    ensures !Locked(v) && !Dirty(v)
  { }

  lemma SetLock(v: bv32, m: bv32)
    requires m == LOCK || Locked(v)
    ensures Locked(v | m)
  { }

  // 2^19 splits of a node that is not a root bring its version back: a reader who slept that long sees no change.
  lemma BoundIsExact(v: bv32)
    requires Plain(v)
    ensures Run(v, Rounds(SPLIT_RANGE), v) && SplitSections(v, Rounds(SPLIT_RANGE)) == SPLIT_RANGE && !HasChanged(v, v)
      && !HasSplit(v, v)
  {
    AroundFacts(v, SPLIT_RANGE);
    hide Plain; hide StateSame; hide Around; hide Rounds; hide Run; hide SplitSections; hide SplitField; hide Val;
    hide Sections;
    CountRange(v);
    ModOnce(Splits(v), SPLIT_RANGE);
    TurnNone(Splits(v), SPLIT_RANGE);
    var w := Around(v, SPLIT_RANGE);
    assert Turn(Splits(v), SPLIT_RANGE, SPLIT_RANGE) == Splits(v);
    Masks();
    ValSame(SplitField(v), SplitField(w), 19);
    hide Agree; hide Mask;
    SameWord(v, w);
    RoundsRun(v, SPLIT_RANGE);
    BackIsAround(v, SPLIT_RANGE);
  }

  // ---------- the word of a node, and its readers ----------
  lemma {:induction false} RunSnoc(v: bv32, acts: seq<Step>, w: bv32, a: Step)
    requires Run(v, acts, w) && Enabled(w, a)
    ensures Run(v, acts + [a], Do(w, a))
    decreases |acts|
  {
    hide Do; hide Enabled;
    var more := acts + [a];
    if acts == [] {
      assert more[1..] == [];
      assert Run(Do(w, a), more[1..], Do(w, a));
    } else {
      assert more[1..] == acts[1..] + [a];
      RunSnoc(Do(v, acts[0]), acts[1..], w, a);
    }
  }

  lemma {:induction false} RunFrom(v: bv32, acts: seq<Step>, w: bv32, i: nat, x: bv32)
    requires Run(v, acts, w) && i <= |acts| && Run(v, acts[..i], x)
    ensures Run(x, acts[i..], w)
    decreases |acts|
  {
    hide Do; hide Enabled;
    if i > 0 {
      assert acts[..i][1..] == acts[1..][..i - 1] && acts[1..][i - 1..] == acts[i..];
      RunFrom(Do(v, acts[0]), acts[1..], w, i - 1, x);
    }
  }

  lemma UnlockFrees(v: bv32)
    ensures !Locked(Unlocked(v)) && !Dirty(Unlocked(v))
  { }

  lemma StillLocked(v: bv32, a: Step)
    requires a.Lock? || (Locked(v) && !a.Unlock?)
    ensures Locked(Do(v, a))
  { }

  lemma Neighbours(v: bv32, one: bv32)
    ensures one == 0 ==> v | ((one + 1) << 1) == v | INSERTING
    ensures one == 1 ==> v | ((one + 1) << 1) == v | SPLITTING
  { }

  // ---------- the flags above the counters ----------
  predicate Root(v: bv32) { v & ROOT != 0 }
  predicate Deleted(v: bv32) { v & DELETED != 0 }
  predicate IsLeaf(v: bv32) { v & 0x8000_0000 != 0 }
  predicate Clean(v: bv32) { v & UNUSED == 0 }

  predicate MarksSplit(a: Step) { a.MarkSplitting? || a.MarkDel? }

  lemma OrBit(v: bv32, m: bv32, b: bv32)
    ensures (v | m) & b != 0 <==> v & b != 0 || m & b != 0
  { }

  lemma SetFlags(v: bv32, m: bv32)
    ensures Root(v | m) <==> Root(v) || Root(m)
    ensures Deleted(v | m) <==> Deleted(v) || Deleted(m)
    ensures IsLeaf(v | m) <==> IsLeaf(v) || IsLeaf(m)
    ensures Splitting(v | m) <==> Splitting(v) || Splitting(m)
    ensures Clean(v | m) <==> Clean(v) && Clean(m)
  {
    OrBit(v, m, ROOT);
    OrBit(v, m, DELETED);
    OrBit(v, m, 0x8000_0000);
    OrBit(v, m, SPLITTING);
    OrBit(v, m, UNUSED);
  }

  lemma ConstantFlags()
    ensures !Root(LOCK) && !Deleted(LOCK) && !IsLeaf(LOCK) && !Splitting(LOCK) && Clean(LOCK)
    ensures !Root(INSERTING) && !Deleted(INSERTING) && !IsLeaf(INSERTING) && !Splitting(INSERTING) && Clean(INSERTING)
    ensures !Root(SPLITTING) && !Deleted(SPLITTING) && !IsLeaf(SPLITTING) && Splitting(SPLITTING) && Clean(SPLITTING)
    ensures !Root(DELETED) && Deleted(DELETED) && !IsLeaf(DELETED) && !Splitting(DELETED) && Clean(DELETED)
    ensures Root(ROOT) && !Deleted(ROOT) && !IsLeaf(ROOT) && !Splitting(ROOT) && Clean(ROOT)
  { }

  lemma NonrootRoot(v: bv32)
    ensures !Root(v & 0xBFFF_FFFF)
  { }

  lemma NonrootDeleted(v: bv32)
    ensures Deleted(v & 0xBFFF_FFFF) == Deleted(v)
  { }

  lemma NonrootIsLeaf(v: bv32)
    ensures IsLeaf(v & 0xBFFF_FFFF) == IsLeaf(v)
  { }

  lemma NonrootSplitting(v: bv32)
    ensures Splitting(v & 0xBFFF_FFFF) == Splitting(v)
  { }

  lemma NonrootClean(v: bv32)
    ensures Clean(v & 0xBFFF_FFFF) == Clean(v)
  { }

  lemma NonrootFlags(v: bv32)
    ensures var w := v & 0xBFFF_FFFF;
      && !Root(w) && Deleted(w) == Deleted(v) && IsLeaf(w) == IsLeaf(v) && Splitting(w) == Splitting(v)
      && Clean(w) == Clean(v)
  {
    hide Root; hide Deleted; hide IsLeaf; hide Splitting; hide Clean;
    NonrootRoot(v);
    NonrootDeleted(v);
    NonrootIsLeaf(v);
    NonrootSplitting(v);
    NonrootClean(v);
  }

  lemma UnlockRoot(v: bv32)
    requires Clean(v)
    ensures Root(Unlocked(v)) <==> Root(v) && !Splitting(v)
  {
    if Splitting(v) { SplitRoot(v); } else { InsertRoot(v); }
    hide Root; hide Clean;
  }

  lemma SplitRoot(v: bv32)
    ensures !Root((v + VSPLIT_LOW) & SPLIT_UNLOCK_MASK)
  { }

  lemma InsertRoot(v: bv32)
    requires Clean(v)
    ensures Root((v + ((v & INSERTING) << 2)) & UNLOCK_MASK) <==> Root(v)
  { }

  lemma UnlockDeleted(v: bv32)
    requires Clean(v)
    ensures Deleted(Unlocked(v)) == Deleted(v)
  { }

  lemma UnlockIsLeaf(v: bv32)
    requires Clean(v)
    ensures IsLeaf(Unlocked(v)) == IsLeaf(v)
  { }

  lemma UnlockSplitting(v: bv32)
    requires Clean(v)
    ensures !Splitting(Unlocked(v))
  { }

  lemma UnlockClean(v: bv32)
    requires Clean(v)
    ensures Clean(Unlocked(v))
  { }

  lemma UnlockFlags(v: bv32)
    requires Clean(v)
    ensures var w := Unlocked(v);
      && (Root(w) <==> Root(v) && !Splitting(v)) && Deleted(w) == Deleted(v) && IsLeaf(w) == IsLeaf(v) && !Splitting(w)
      && Clean(w)
  {
    hide Root; hide Deleted; hide IsLeaf; hide Splitting; hide Clean; hide Unlocked;
    UnlockRoot(v);
    UnlockDeleted(v);
    UnlockIsLeaf(v);
    UnlockSplitting(v);
    UnlockClean(v);
  }

  // What each step does to each flag: the end of a split or delete takes the root flag away, and no other unlock
  // touches a flag. The unused bit, into which the split counter overflows, is never left set.
  predicate FlagsAfter(v: bv32, a: Step, w: bv32) {
    && (Root(w) <==> a.MarkRoot? || (Root(v) && !a.MarkNonroot? && !(a.Unlock? && Splitting(v))))
    && (Deleted(w) <==> Deleted(v) || a.MarkDel? || a.MarkDelTree?)
    && IsLeaf(w) == IsLeaf(v)
    && (Splitting(w) <==> MarksSplit(a) || (Splitting(v) && !a.Unlock?))
    && Clean(w)
  }

  lemma FlagsLock(v: bv32)
    requires Clean(v)
    ensures FlagsAfter(v, Lock, v | LOCK)
  {
    hide Root; hide Deleted; hide IsLeaf; hide Splitting; hide Clean;
    ConstantFlags();
    SetFlags(v, LOCK);
  }

  lemma FlagsMarkIns(v: bv32)
    requires Clean(v)
    ensures FlagsAfter(v, MarkIns, v | INSERTING)
  {
    hide Root; hide Deleted; hide IsLeaf; hide Splitting; hide Clean;
    ConstantFlags();
    SetFlags(v, INSERTING);
  }

  lemma FlagsMarkSplitting(v: bv32)
    requires Clean(v)
    ensures FlagsAfter(v, MarkSplitting, v | SPLITTING)
  {
    hide Root; hide Deleted; hide IsLeaf; hide Splitting; hide Clean;
    ConstantFlags();
    SetFlags(v, SPLITTING);
  }

  lemma FlagsMarkDelTree(v: bv32)
    requires Clean(v)
    ensures FlagsAfter(v, MarkDelTree, v | DELETED)
  {
    hide Root; hide Deleted; hide IsLeaf; hide Splitting; hide Clean;
    ConstantFlags();
    SetFlags(v, DELETED);
  }

  lemma FlagsMarkRoot(v: bv32)
    requires Clean(v)
    ensures FlagsAfter(v, MarkRoot, v | ROOT)
  {
    hide Root; hide Deleted; hide IsLeaf; hide Splitting; hide Clean;
    ConstantFlags();
    SetFlags(v, ROOT);
  }

  lemma FlagsMarkDel(v: bv32)
    requires Clean(v)
    ensures FlagsAfter(v, MarkDel, v | DELETED | SPLITTING)
  {
    hide Root; hide Deleted; hide IsLeaf; hide Splitting; hide Clean;
    ConstantFlags();
    SetFlags(v, DELETED);
    SetFlags(v | DELETED, SPLITTING);
  }

  lemma FlagsUnlock(v: bv32)
    requires Clean(v)
    ensures FlagsAfter(v, Unlock, Unlocked(v))
  {
    hide Root; hide Deleted; hide IsLeaf; hide Splitting; hide Clean; hide Unlocked;
    UnlockFlags(v);
  }

  lemma FlagsMarkNonroot(v: bv32)
    requires Clean(v)
    ensures FlagsAfter(v, MarkNonroot, v & 0xBFFF_FFFF)
  {
    hide Root; hide Deleted; hide IsLeaf; hide Splitting; hide Clean;
    NonrootFlags(v);
  }

  lemma StepFlags(v: bv32, a: Step)
    requires Clean(v)
    ensures FlagsAfter(v, a, Do(v, a))
  {
    hide FlagsAfter; hide Clean; hide Unlocked;
    match a
    case Unlock => FlagsUnlock(v);
    case MarkNonroot => FlagsMarkNonroot(v);
    case Lock => FlagsLock(v);
    case MarkIns => FlagsMarkIns(v);
    case MarkSplitting => FlagsMarkSplitting(v);
    case MarkDel => FlagsMarkDel(v);
    case MarkDelTree => FlagsMarkDelTree(v);
    case MarkRoot => FlagsMarkRoot(v);
  }

  lemma {:induction false} RunLast(v: bv32, acts: seq<Step>, w: bv32) returns (u: bv32)
    requires Run(v, acts, w) && acts != []
    ensures var n := |acts| - 1; Run(v, acts[..n], u) && Enabled(u, acts[n]) && w == Do(u, acts[n])
    decreases |acts|
  {
    hide Do; hide Enabled;
    var n := |acts| - 1;
    if n == 0 {
      u := v;
      assert acts[1..] == [] && acts[..0] == [];
      assert Run(Do(v, acts[0]), acts[1..], w);
    } else {
      u := RunLast(Do(v, acts[0]), acts[1..], w);
      assert acts[..n][1..] == acts[1..][..n - 1] && acts[..n][0] == acts[0];
    }
  }

  // the section under way after the first j steps is marked as a split or delete
  ghost predicate InSplit(v: bv32, acts: seq<Step>, j: nat)
    requires j <= |acts|
  {
    || (exists k :: 0 <= k < j && MarksSplit(acts[k]) && NoUnlock(acts, k + 1, j))
    || (Splitting(v) && NoUnlock(acts, 0, j))
  }

  ghost predicate NoUnlock(acts: seq<Step>, i: nat, j: nat)
    requires j <= |acts|
  { forall m :: i <= m < j ==> !acts[m].Unlock? }

  // step j takes the root flag away
  ghost predicate Unroots(v: bv32, acts: seq<Step>, j: nat)
    requires j < |acts|
  { acts[j].MarkNonroot? || (acts[j].Unlock? && InSplit(v, acts, j)) }

  ghost predicate RootFrom(v: bv32, acts: seq<Step>, i: nat) {
    forall j :: i <= j < |acts| ==> !Unroots(v, acts, j)
  }

  lemma InSplitFront(v: bv32, acts: seq<Step>, n: nat, j: nat)
    requires j <= n <= |acts|
    ensures InSplit(v, acts[..n], j) <==> InSplit(v, acts, j)
  {
    var front := acts[..n];
    assert forall i: nat :: NoUnlock(front, i, j) <==> NoUnlock(acts, i, j);
    if InSplit(v, front, j) && !(Splitting(v) && NoUnlock(front, 0, j)) {
      var k :| 0 <= k < j && MarksSplit(front[k]) && NoUnlock(front, k + 1, j);
      assert MarksSplit(acts[k]);
    }
    if InSplit(v, acts, j) && !(Splitting(v) && NoUnlock(acts, 0, j)) {
      var k :| 0 <= k < j && MarksSplit(acts[k]) && NoUnlock(acts, k + 1, j);
      assert MarksSplit(front[k]);
    }
  }

  lemma {:induction false} SplitFlag(v: bv32, acts: seq<Step>, w: bv32)
    requires Run(v, acts, w) && Clean(v)
    ensures (Splitting(w) <==> InSplit(v, acts, |acts|)) && Clean(w)
    decreases |acts|
  {
    hide Do; hide Splitting; hide Clean;
    if acts != [] {
      var n := |acts| - 1;
      var u := RunLast(v, acts, w);
      SplitFlag(v, acts[..n], u);
      InSplitFront(v, acts, n, n);
      StepFlags(u, acts[n]);
      hide InSplit; hide Root; hide Deleted; hide IsLeaf;
      InSplitStep(v, acts);
    }
  }

  lemma InSplitStep(v: bv32, acts: seq<Step>)
    requires acts != []
    ensures var n := |acts| - 1;
      InSplit(v, acts, n + 1) <==> MarksSplit(acts[n]) || (InSplit(v, acts, n) && !acts[n].Unlock?)
  {
    hide Splitting;
    var n := |acts| - 1;
    assert NoUnlock(acts, n + 1, n + 1);
    forall i: nat | i <= n ensures NoUnlock(acts, i, n + 1) <==> NoUnlock(acts, i, n) && !acts[n].Unlock? { }
  }

  // Over any run the root flag is set at the end exactly when it was set, by mark_root or from the start, and after
  // that neither a split or delete section ended nor mark_nonroot was called.
  lemma {:induction false} RootFlag(v: bv32, acts: seq<Step>, w: bv32)
    requires Run(v, acts, w) && Clean(v)
    ensures Root(w) <==>
      (exists i :: 0 <= i < |acts| && acts[i].MarkRoot? && RootFrom(v, acts, i + 1))
        || (Root(v) && RootFrom(v, acts, 0))
    decreases |acts|
  {
    hide Do; hide Root; hide Splitting; hide InSplit; hide Clean; hide Deleted; hide IsLeaf; hide Enabled;
    if acts != [] {
      var n := |acts| - 1;
      var u := RunLast(v, acts, w);
      RootFlag(v, acts[..n], u);
      SplitFlag(v, acts[..n], u);
      InSplitFront(v, acts, n, n);
      StepFlags(u, acts[n]);
      forall i: nat | i <= n ensures RootFrom(v, acts, i) <==> RootFrom(v, acts[..n], i) && !Unroots(v, acts, n) {
        RootFromFront(v, acts, i);
      }
      assert RootFrom(v, acts, n + 1);
      RootSteps(v, acts, Root(u), Root(w));
    }
  }

  lemma RootFromFront(v: bv32, acts: seq<Step>, i: nat)
    requires acts != [] && i <= |acts| - 1
    ensures RootFrom(v, acts, i) <==> RootFrom(v, acts[..|acts| - 1], i) && !Unroots(v, acts, |acts| - 1)
  {
    hide Splitting; hide InSplit;
    var n := |acts| - 1;
    forall j: nat | j < n ensures Unroots(v, acts[..n], j) <==> Unroots(v, acts, j) { InSplitFront(v, acts, n, j); }
  }

  lemma RootSteps(v: bv32, acts: seq<Step>, before: bool, after: bool)
    requires acts != [] && RootFrom(v, acts, |acts|)
    requires var n := |acts| - 1; forall i: nat :: i <= n ==>
      (RootFrom(v, acts, i) <==> RootFrom(v, acts[..n], i) && !Unroots(v, acts, n))
    requires var n := |acts| - 1; before <==>
      (exists i :: 0 <= i < n && acts[..n][i].MarkRoot? && RootFrom(v, acts[..n], i + 1))
      || (Root(v) && RootFrom(v, acts[..n], 0))
    requires var n := |acts| - 1; after <==> acts[n].MarkRoot? || (before && !Unroots(v, acts, n))
    ensures after <==>
      (exists i :: 0 <= i < |acts| && acts[i].MarkRoot? && RootFrom(v, acts, i + 1))
        || (Root(v) && RootFrom(v, acts, 0))
  {
    hide Root; hide Unroots; hide RootFrom;
    var n := |acts| - 1;
    if before && !Unroots(v, acts, n) && !(Root(v) && RootFrom(v, acts[..n], 0)) {
      var i :| 0 <= i < n && acts[..n][i].MarkRoot? && RootFrom(v, acts[..n], i + 1);
      assert acts[i].MarkRoot? && RootFrom(v, acts, i + 1);
    }
    if i :| 0 <= i < n && acts[i].MarkRoot? && RootFrom(v, acts, i + 1) {
      assert acts[..n][i].MarkRoot? && RootFrom(v, acts[..n], i + 1);
    }
  }

  // ---------- a reader is not told of a change without one ----------
  predicate Quiet(a: Step) { a.Lock? || a.Unlock? }

  predicate SameButLocks(a: bv32, b: bv32) { (a ^ b) & 0xFFFF_FFFE == 0 }
  predicate SameHigh(a: bv32, b: bv32) { (a ^ b) & 0xFFFF_FE00 == 0 }

  lemma QuietLock(v: bv32)
    requires !Dirty(v)
    ensures !Dirty(v | LOCK) && SameButLocks(v, v | LOCK)
  { }

  lemma QuietUnlock(v: bv32)
    requires !Dirty(v) && Clean(v)
    ensures SameButLocks(v, Unlocked(v))
  {
    CleanPlus(v);
    hide Clean;
  }

  lemma CleanPlus(v: bv32)
    requires !Dirty(v)
    ensures v & SPLITTING == 0 && (v + ((v & INSERTING) << 2)) == v
  { }

  lemma QuietStep(v: bv32, a: Step)
    requires Quiet(a) && !Dirty(v) && Clean(v)
    ensures !Dirty(Do(v, a)) && SameButLocks(v, Do(v, a)) && Clean(Do(v, a))
  {
    hide Dirty; hide Unlocked; hide Clean; hide SameButLocks; hide Locked;
    StepClean(v, a);
    match a
    case Lock => QuietLock(v);
    case Unlock =>
      QuietUnlock(v);
      UnlockFrees(v);
  }

  lemma StepClean(v: bv32, a: Step)
    requires Clean(v)
    ensures Clean(Do(v, a))
  {
    hide Do; hide Root; hide Deleted; hide IsLeaf; hide Splitting; hide Clean;
    StepFlags(v, a);
  }

  lemma SameTrans(a: bv32, b: bv32, c: bv32)
    requires SameButLocks(a, b) && SameButLocks(b, c)
    ensures SameButLocks(a, c)
  { }

  lemma SameMeansUnchanged(a: bv32, b: bv32)
    ensures SameButLocks(a, a)
    ensures SameButLocks(a, b) ==> !HasChanged(a, b)
  { }

  lemma {:induction false} QuietSame(x: bv32, acts: seq<Step>, w: bv32)
    requires Run(x, acts, w) && !Dirty(x) && Clean(x) && forall i :: 0 <= i < |acts| ==> Quiet(acts[i])
    ensures SameButLocks(x, w)
    decreases |acts|
  {
    hide Do; hide Dirty; hide Clean; hide HasChanged; hide Enabled; hide SameButLocks; hide Quiet;
    if acts == [] {
      SameMeansUnchanged(x, x);
    } else {
      QuietStep(x, acts[0]);
      QuietSame(Do(x, acts[0]), acts[1..], w);
      SameTrans(x, Do(x, acts[0]), w);
    }
  }

  // steps that do not reach bit 9 or above
  predicate Low(a: Step) { a.Lock? || a.Unlock? || a.MarkIns? || a.MarkSplitting? }

  lemma LowLock(v: bv32)
    ensures SameHigh(v, v | LOCK)
  { }

  lemma LowInserting(v: bv32)
    ensures SameHigh(v, v | INSERTING)
  { }

  lemma LowSplitting(v: bv32)
    ensures SameHigh(v, v | SPLITTING)
  { }

  lemma SameIsHigh(v: bv32, w: bv32)
    requires SameButLocks(v, w)
    ensures SameHigh(v, w)
  { }

  lemma LowStep(v: bv32, a: Step)
    requires Low(a) && Clean(v) && !(a.Unlock? && Dirty(v))
    ensures SameHigh(v, Do(v, a))
  {
    hide Dirty; hide Clean; hide Unlocked; hide SameButLocks; hide SameHigh;
    LowLock(v);
    LowInserting(v);
    LowSplitting(v);
    if a.Unlock? {
      QuietUnlock(v);
      SameIsHigh(v, Unlocked(v));
    }
  }

  lemma HighTrans(a: bv32, b: bv32, c: bv32)
    requires SameHigh(a, b) && SameHigh(b, c)
    ensures SameHigh(a, c)
  { }

  lemma HighMeansNoSplit(a: bv32, b: bv32)
    ensures SameHigh(a, a)
    ensures SameHigh(a, b) ==> !HasSplit(a, b)
  { }

  lemma {:induction false} LowSame(x: bv32, acts: seq<Step>, w: bv32)
    requires Run(x, acts, w) && Clean(x) && Sections(x, acts) == 0 && forall i :: 0 <= i < |acts| ==> Low(acts[i])
    ensures SameHigh(x, w)
    decreases |acts|
  {
    hide Do; hide Dirty; hide Clean; hide HasSplit; hide Enabled; hide SameHigh; hide Low;
    if acts == [] {
      HighMeansNoSplit(x, x);
    } else {
      LowStep(x, acts[0]);
      StepClean(x, acts[0]);
      LowSame(Do(x, acts[0]), acts[1..], w);
      HighTrans(x, Do(x, acts[0]), w);
    }
  }

  lemma {:induction false} RunClean(v: bv32, acts: seq<Step>, w: bv32)
    requires Run(v, acts, w) && Clean(v)
    ensures Clean(w)
    decreases |acts|
  {
    hide Do; hide Clean; hide Enabled;
    if acts != [] {
      StepClean(v, acts[0]);
      RunClean(Do(v, acts[0]), acts[1..], w);
    }
  }

  method UnlockedWord(v: bv32) returns (x: bv32)
    ensures x == Unlocked(v)
  {
    x := v;
    if x & SPLITTING != 0 {
      x := (x + VSPLIT_LOW) & SPLIT_UNLOCK_MASK;
    } else {
      x := (x + ((x & INSERTING) << 2)) & UNLOCK_MASK;
    }
  }

  // log: what has happened to the word so far
  class Version {
    var v: bv32
    ghost const first: bv32
    ghost var log: seq<Step>

    ghost predicate Valid() reads this { Run(first, log, v) && Clean(first) && (!Locked(v) ==> !Dirty(v)) }

    constructor (isLeaf: bool)
      ensures Valid() && log == [] && v == if isLeaf then 0x8000_0000 else 0
    {
      v := if isLeaf then 0x8000_0000 else 0;
      first := if isLeaf then 0x8000_0000 else 0;
      log := [];
    }

    // the word becomes w by step a
    method Store(w: bv32, ghost a: Step)
      requires Valid() && Enabled(v, a) && w == Do(v, a)
      modifies this
      ensures Valid() && log == old(log) + [a] && v == w
    {
      RunSnoc(first, log, v, a);
      if a.Unlock? { UnlockFrees(v); UnlockIs(v); } else { StillLocked(v, a); }
      hide Do; hide Enabled; hide Run; hide Locked; hide Dirty;
      v := w;
      log := log + [a];
    }

    method TryLock() returns (ok: bool)
      requires Valid()
      modifies this
      ensures Valid() && ok == !old(Locked(v)) && Locked(v)
      ensures log == old(log) + (if ok then [Step.Lock] else []) && v == if ok then Do(old(v), Lock) else old(v)
    {
      var expected := v;
      ok := expected & LOCK == 0;
      if ok {
        StillLocked(v, Step.Lock);
        Store(expected | LOCK, Step.Lock);
      }
    }

    method MarkInsert()
      requires Valid() && Locked(v)
      modifies this
      ensures Valid() && log == old(log) + [MarkIns] && v == Do(old(v), MarkIns)
    { Store(v | INSERTING, MarkIns); }

    method MarkSplit()
      requires Valid() && Locked(v)
      modifies this
      ensures Valid() && log == old(log) + [MarkSplitting] && v == Do(old(v), MarkSplitting)
    { Store(v | SPLITTING, MarkSplitting); }

    // mark_change(is_split): inserting and splitting are neighbouring bits
    method MarkChange(isSplit: bool)
      requires Valid() && Locked(v)
      modifies this
      ensures var a := if isSplit then MarkSplitting else MarkIns;
        Valid() && log == old(log) + [a] && v == Do(old(v), a)
    {
      var one: bv32 := if isSplit then 1 else 0;
      Neighbours(v, one);
      Store(v | ((one + 1) << 1), if isSplit then MarkSplitting else MarkIns);
    }

    method MarkDeleted()
      requires Valid() && Locked(v)
      modifies this
      ensures Valid() && log == old(log) + [MarkDel] && v == Do(old(v), MarkDel)
    { Store(v | (DELETED | SPLITTING), MarkDel); }

    method Unlock()
      requires Valid() && Locked(v)
      modifies this
      ensures Valid() && log == old(log) + [Step.Unlock] && v == Do(old(v), Step.Unlock) && !Locked(v) && !Dirty(v)
      ensures Root(v) <==> old(Root(v)) && !old(Splitting(v))
      ensures Deleted(v) == old(Deleted(v)) && IsLeaf(v) == old(IsLeaf(v))
    {
      hide Run; hide Clean; hide Root; hide Deleted; hide IsLeaf; hide Splitting; hide Unlocked; hide Dirty;
      hide Locked;
      var x := UnlockedWord(v);
      UnlockFrees(v);
      RunClean(first, log, v);
      UnlockFlags(v);
      Store(x, Step.Unlock);
    }

    // A reader has loaded x after the first since steps, and asks now.
    method Changed(x: bv32, ghost since: nat) returns (changed: bool)
      requires Loaded(x, since) && !Dirty(x)
      ensures !changed ==> forall i :: since <= i < |log| ==> !IsMark(log[i])
      ensures changed ==> exists i :: since <= i < |log| && !Quiet(log[i])
    {
      changed := x ^ v > LOCK;
      assert changed == HasChanged(x, v);
      Told(x, since);
    }

    ghost predicate Loaded(x: bv32, since: nat) reads this {
      Valid() && since <= |log| && Run(first, log[..since], x) && Sections(x, log[since..]) < SPLIT_RANGE
    }

    lemma Told(x: bv32, since: nat)
      requires Loaded(x, since) && !Dirty(x)
      ensures !HasChanged(x, v) ==> forall i :: since <= i < |log| ==> !IsMark(log[i])
      ensures HasChanged(x, v) ==> exists i :: since <= i < |log| && !Quiet(log[i])
    {
      hide Run; hide Clean; hide Sections; hide Dirty; hide Quiet; hide IsMark; hide HasChanged; hide SameButLocks;
      RunFrom(first, log, v, since, x);
      RunClean(first, log[..since], x);
      var acts := log[since..];
      assert forall i :: since <= i < |log| ==> log[i] == acts[i - since];
      if HasChanged(x, v) {
        if forall i :: 0 <= i < |acts| ==> Quiet(acts[i]) {
          QuietSame(x, acts, v);
          SameMeansUnchanged(x, v);
        }
      } else {
        StableMeansUntouched(x, acts, v);
      }
    }

    lemma ToldSplit(x: bv32, since: nat)
      requires Loaded(x, since)
      ensures !HasSplit(x, v) ==> SplitSections(x, log[since..]) == 0
      ensures HasSplit(x, v) ==> Sections(x, log[since..]) > 0 || exists i :: since <= i < |log| && !Low(log[i])
    {
      hide Run; hide Clean; hide Sections; hide SplitSections; hide Low; hide HasSplit; hide SameHigh;
      RunFrom(first, log, v, since, x);
      RunClean(first, log[..since], x);
      var acts := log[since..];
      assert forall i :: since <= i < |log| ==> log[i] == acts[i - since];
      if !HasSplit(x, v) {
        NoSplitMissed(x, acts, v);
      } else if Sections(x, acts) == 0 && forall i :: 0 <= i < |acts| ==> Low(acts[i]) {
        LowSame(x, acts, v);
        HighMeansNoSplit(x, v);
      }
    }

    method Split(x: bv32, ghost since: nat) returns (split: bool)
      requires Loaded(x, since)
      ensures !split ==> SplitSections(x, log[since..]) == 0
      ensures split ==> Sections(x, log[since..]) > 0 || exists i :: since <= i < |log| && !Low(log[i])
    {
      split := x ^ v >= VSPLIT_LOW;
      assert split == HasSplit(x, v);
      ToldSplit(x, since);
    }
  }
}
