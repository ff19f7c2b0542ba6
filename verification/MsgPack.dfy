// MessagePack: the writer, a byte-at-a-time reading of what the format means, and the incremental parser.
module MsgPack {
  import opened Key
  import opened Options

  // Reals are kept as their bytes. An Int is tagged as the C++ value is: signed long or unsigned long.
  datatype Json =
    | Null
    | Bool(b: bool)
    | Int(n: int, unsigned: bool)
    | Real(bits: Str)
    | Text(s: Str)
    | Arr(items: seq<Json>)
    | Obj(pairs: seq<Pair>)
  datatype Pair = Pair(key: Str, value: Json)

  // ---------- writing ----------
  function Wrap(n: int, m: nat): int { if n < 0 then n + m else n }

  function WriteUnsigned(n: nat): Str
    requires n < 0x1_0000_0000_0000_0000
  {
    Powers();
    if n < 0x80 then [n]
    else if n < 256 then [0xCC] + Bytes(n, 1)
    else if n < 65536 then [0xCD] + Bytes(n, 2)
    else if n < 0x1_0000_0000 then [0xCE] + Bytes(n, 4)
    else [0xCF] + Bytes(n, 8)
  }

  function WriteSigned(n: int): Str
    requires -0x8000_0000_0000_0000 <= n < 0x8000_0000_0000_0000
  {
    Powers();
    if -32 <= n < 128 then Bytes(Wrap(n, 256), 1)
    else if -128 <= n < 128 then [0xD0] + Bytes(Wrap(n, 256), 1)
    else if -32768 <= n < 32768 then [0xD1] + Bytes(Wrap(n, 65536), 2)
    else if -0x8000_0000 <= n < 0x8000_0000 then [0xD2] + Bytes(Wrap(n, 0x1_0000_0000), 4)
    else [0xD3] + Bytes(Wrap(n, 0x1_0000_0000_0000_0000), 8)
  }

  lemma Powers()
    ensures Pow(1) == 256 && Pow(2) == 65536 && Pow(4) == 0x1_0000_0000 && Pow(8) == 0x1_0000_0000_0000_0000
  {
    assert Pow(0) == 1;
    assert Pow(1) == 256;
    assert Pow(2) == 65536;
    assert Pow(3) == 0x100_0000;
    assert Pow(4) == 0x1_0000_0000;
    assert Pow(5) == 0x100_0000_0000;
    assert Pow(6) == 0x1_0000_0000_0000;
    assert Pow(7) == 0x100_0000_0000_0000;
  }

  // a length, in the shortest of the fixed, 8-bit (if there is one), 16-bit and 32-bit forms
  function Length(n: nat, fix: nat, small: nat, f8: Byte, f16: Byte, f32: Byte): Str
    requires n < 0x8000_0000 && fix + small <= 256
  {
    Powers();
    if n < small then [fix + n]
    else if f8 != 0 && n < 256 then [f8] + Bytes(n, 1)
    else if n < 65536 then [f16] + Bytes(n, 2)
    else [f32] + Bytes(n, 4)
  }

  function TextHeader(n: nat): Str requires n < 0x8000_0000 { Length(n, 0xA0, 0x20, 0xD9, 0xDA, 0xDB) }
  function ArrayHeader(n: nat): Str requires n < 0x8000_0000 { Length(n, 0x90, 0x10, 0, 0xDC, 0xDD) }
  function MapHeader(n: nat): Str requires n < 0x8000_0000 { Length(n, 0x80, 0x10, 0, 0xDE, 0xDF) }

  ghost predicate Keyed(pairs: seq<Pair>, k: Str) { exists x :: 0 <= x < |pairs| && pairs[x].key == k }

  // what a Json value can be: integers of 64 bits, lengths that fit an int, distinct keys
  ghost predicate Ok(v: Json) {
    match v
    case Int(n, u) => if u then 0 <= n < 0x1_0000_0000_0000_0000
      else -0x8000_0000_0000_0000 <= n < 0x8000_0000_0000_0000
    case Real(bits) => |bits| == 8
    case Text(s) => |s| < 0x8000_0000
    case Arr(items) => |items| < 0x8000_0000 && OkAll(items)
    case Obj(pairs) => |pairs| < 0x8000_0000 && OkPairs(pairs)
    case _ => true
  }
  ghost predicate OkAll(vs: seq<Json>) { vs == [] || (Ok(vs[0]) && OkAll(vs[1..])) }
  ghost predicate OkPairs(ps: seq<Pair>) {
    ps == [] || (Ok(ps[0].value) && |ps[0].key| < 0x8000_0000 && !Keyed(ps[1..], ps[0].key) && OkPairs(ps[1..]))
  }

  ghost function Unparse(v: Json): Str
    requires Ok(v)
  {
    match v
    case Null => [0xC0]
    case Bool(b) => [if b then 0xC3 else 0xC2]
    case Int(n, u) => if u then WriteUnsigned(n) else WriteSigned(n)
    case Real(bits) => [0xCB] + bits
    case Text(s) => TextHeader(|s|) + s
    case Arr(items) => ArrayHeader(|items|) + UnparseAll(items)
    case Obj(pairs) => MapHeader(|pairs|) + UnparsePairs(pairs)
  }
  ghost function UnparseAll(vs: seq<Json>): Str
    requires OkAll(vs)
  { if vs == [] then [] else Unparse(vs[0]) + UnparseAll(vs[1..]) }
  ghost function UnparsePairs(ps: seq<Pair>): Str
    requires OkPairs(ps)
  { if ps == [] then [] else TextHeader(|ps[0].key|) + ps[0].key + Unparse(ps[0].value) + UnparsePairs(ps[1..]) }

  // equal values: operator== on Json compares integers by value, whatever their tag
  ghost predicate Same(v: Json, w: Json) {
    match v
    case Int(n, _) => w.Int? && w.n == n
    case Arr(items) => w.Arr? && SameAll(items, w.items)
    case Obj(pairs) => w.Obj? && SamePairs(pairs, w.pairs)
    case _ => v == w
  }
  ghost predicate SameAll(vs: seq<Json>, ws: seq<Json>) {
    |vs| == |ws| && (vs == [] || (Same(vs[0], ws[0]) && SameAll(vs[1..], ws[1..])))
  }
  ghost predicate SamePairs(ps: seq<Pair>, qs: seq<Pair>) {
    |ps| == |qs| && (ps == []
      || (ps[0].key == qs[0].key && Same(ps[0].value, qs[0].value) && SamePairs(ps[1..], qs[1..])))
  }

  // ---------- reading, one byte at a time ----------
  // a container under construction: what it has, and how many elements come after the current one
  datatype Frame =
    | ArrFrame(items: seq<Json>, size: nat)
    | KeyFrame(pairs: seq<Pair>, size: nat)
    | ValFrame(pairs: seq<Pair>, key: Str, size: nat)
  datatype Stack = Empty | On(top: Frame, below: Stack)

  datatype Parse =
    | Between(stack: Stack)
    | Header(stack: Stack, str: Str)
    | Body(stack: Stack, n: nat, str: Str)
    | Final(v: Json)
    | Overrun
    | Error

  function Put(st: Stack, v: Json): Parse {
    match st
    case Empty => Final(v)
    case On(ArrFrame(items, size), below) =>
      if size == 0 then Put(below, Arr(items + [v])) else Between(On(ArrFrame(items + [v], size - 1), below))
    case On(KeyFrame(pairs, size), below) =>
      if v.Text? then Between(On(ValFrame(pairs, v.s, size), below))
      else if v.Int? then Between(On(ValFrame(pairs, Decimal(v.n), size), below))
      else Error
    case On(ValFrame(pairs, key, size), below) =>
      var q := Assign(pairs, key, v);
      if size == 0 then Put(below, Obj(q)) else Between(On(KeyFrame(q, size - 1), below))
  }

  // get_insert, then assignment
  function Assign(pairs: seq<Pair>, key: Str, v: Json): seq<Pair> {
    if pairs == [] then [Pair(key, v)]
    else if pairs[0].key == key then [Pair(key, v)] + pairs[1..]
    else [pairs[0]] + Assign(pairs[1..], key, v)
  }

  // an integer key becomes its decimal text
  function Decimal(n: int): Str
    decreases if n < 0 then 1 - n else n
  {
    if n < 0 then [0x2D] + Decimal(-n) else if n < 10 then [0x30 + n] else Decimal(n / 10) + [0x30 + n % 10]
  }

  predicate AtKey(st: Stack) { st.On? && st.top.KeyFrame? }

  function Open(st: Stack, n: nat, obj: bool): Parse {
    if AtKey(st) then Error
    else if n == 0 then Put(st, if obj then Obj([]) else Arr([]))
    else Between(On(if obj then KeyFrame([], n - 1) else ArrFrame([], n - 1), st))
  }

  function Raw(st: Stack, n: nat): Parse { if n == 0 then Put(st, Text([])) else Body(st, n, []) }

  // the length of a format's fixed part; 0 for formats that are not read, and for those of one byte
  function Need(b: Byte): nat {
    if b < 0xC4 || b >= 0xE0 then 0
    else [2, 3, 5, 0, 0, 0, 5, 9, 2, 3, 5, 9, 2, 3, 5, 9, 0, 0, 0, 0, 0, 2, 3, 5, 3, 5, 3, 5][b - 0xC4]
  }

  function Signed(x: nat, m: nat): int { if x >= m / 2 then x - m else x }

  predicate One(b: Byte) { b < 0xC1 || b == 0xC2 || b == 0xC3 || b >= 0xE0 }

  function First(st: Stack, b: Byte): Parse {
    if b < 0x80 || b >= 0xE0 then Put(st, Int(Signed(b, 256), false))
    else if b < 0x90 then Open(st, b - 0x80, true)
    else if b < 0xA0 then Open(st, b - 0x90, false)
    else if b < 0xC0 then Raw(st, b - 0xA0)
    else if b == 0xC0 then Put(st, Null)
    else if b == 0xC2 || b == 0xC3 then Put(st, Bool(b == 0xC3))
    else if Need(b) == 0 then Error
    else Header(st, [b])
  }

  // what has been read: a value, a container's header, or a string's
  datatype Act = Value(v: Json) | Container(n: nat, obj: bool) | Chars(n: nat)

  // what a whole fixed part stands for
  function Fixed(h: Str): Act
    requires h != [] && |h| == Need(h[0])
  {
    var b, r := h[0], h[1..];
    var x := Num(r, |r|);
    if b == 0xCA || b == 0xCB then Value(Real(r))
    else if b == 0xCC || b == 0xCD then Value(Int(x, false))
    else if b == 0xCE || b == 0xCF then Value(Int(x, true))
    else if 0xD0 <= b <= 0xD3 then Value(Int(Signed(x, Pow(|r|)), false))
    else if b <= 0xC6 || 0xD9 <= b <= 0xDB then Chars(x)
    else Container(x, b >= 0xDE)
  }

  function Do(st: Stack, act: Act): Parse {
    match act
    case Value(v) => Put(st, v)
    case Container(n, obj) => Open(st, n, obj)
    case Chars(n) => Raw(st, n)
  }

  function Decode(st: Stack, h: Str): Parse
    requires h != [] && |h| == Need(h[0])
  { Do(st, Fixed(h)) }

  function Byte1(p: Parse, b: Byte): Parse {
    match p
    case Between(st) => First(st, b)
    case Header(st, str) =>
      var h := str + [b];
      if |h| == Need(h[0]) then Decode(st, h) else Header(st, h)
    case Body(st, n, str) =>
      var s := str + [b];
      if |s| == n then Put(st, Text(s)) else Body(st, n, s)
    case Error => Error
    case _ => Overrun
  }

  function Eat(p: Parse, s: Str): Parse
    decreases |s|
  { if s == [] then p else Eat(Byte1(p, s[0]), s[1..]) }

  // Bytes in two pieces are the same as bytes in one.
  lemma {:induction false} EatConcat(p: Parse, a: Str, b: Str)
    ensures Eat(p, a + b) == Eat(Eat(p, a), b)
    decreases |a|
  {
    if a == [] { assert a + b == b; }
    else {
      assert (a + b)[1..] == a[1..] + b;
      EatConcat(Byte1(p, a[0]), a[1..], b);
    }
  }

  lemma {:induction false} EatHeader(st: Stack, h: Str, s: Str)
    requires h != [] && |h| + |s| <= Need(h[0]) && (s == [] ==> |h| < Need(h[0]))
    ensures Eat(Header(st, h), s) == if |h| + |s| == Need(h[0]) then Decode(st, h + s) else Header(st, h + s)
    decreases |s|
  {
    if s == [] { assert h + s == h; }
    else {
      var g := h + [s[0]];
      assert g + s[1..] == h + s;
      if |s| == 1 { assert g == h + s && s[1..] == []; }
      else { EatHeader(st, g, s[1..]); }
    }
  }

  lemma {:induction false} EatBody(st: Stack, n: nat, t: Str, s: Str)
    requires |t| + |s| <= n && |t| < n
    ensures Eat(Body(st, n, t), s) == if |t| + |s| == n then Put(st, Text(t + s)) else Body(st, n, t + s)
    decreases |s|
  {
    if s == [] { assert t + s == t; }
    else {
      var u := t + [s[0]];
      assert u + s[1..] == t + s;
      if |s| == 1 { assert u == t + s && s[1..] == []; }
      else { EatBody(st, n, u, s[1..]); }
    }
  }

  // a whole fixed part
  lemma EatFixed(st: Stack, h: Str)
    requires h != [] && |h| == Need(h[0])
    ensures Eat(Between(st), h) == Decode(st, h)
  {
    assert Need(h[0]) >= 2;
    assert [h[0]] + h[1..] == h;
    EatHeader(st, [h[0]], h[1..]);
  }

  lemma EatOne(p: Parse, b: Byte)
    ensures Eat(p, [b]) == Byte1(p, b)
  { assert [b][1..] == []; }

  // ---------- what is written is read back ----------
  // a format byte followed by a number
  lemma EatNumber(st: Stack, b: Byte, x: nat, k: nat)
    requires x < Pow(k) && k > 0 && Need(b) == k + 1
    ensures var h := [b] + Bytes(x, k);
      Eat(Between(st), h) == Decode(st, h) && h[1..] == Bytes(x, k) && Num(h[1..], k) == x
  {
    NumOfBytes(x, k);
    hide Bytes; hide Num; hide Pow; hide Decode;
    EatFixed(st, [b] + Bytes(x, k));
  }

  lemma EatUnsigned(st: Stack, n: nat) returns (u: bool)
    requires n < 0x1_0000_0000_0000_0000
    ensures Eat(Between(st), WriteUnsigned(n)) == Put(st, Int(n, u))
  {
    Powers();
    hide Eat; hide Bytes; hide Num; hide Pow; hide Put;
    u := n >= 65536;
    if n < 0x80 { EatOne(Between(st), n); }
    else if n < 256 { EatNumber(st, 0xCC, n, 1); }
    else if n < 65536 { EatNumber(st, 0xCD, n, 2); }
    else if n < 0x1_0000_0000 { EatNumber(st, 0xCE, n, 4); }
    else { EatNumber(st, 0xCF, n, 8); }
  }

  // a number in two's complement
  lemma EatComplement(st: Stack, b: Byte, n: int, k: nat)
    requires 0xD0 <= b <= 0xD3 && Need(b) == k + 1 && Pow(k) % 2 == 0 && -(Pow(k) / 2) <= n < Pow(k) / 2
    ensures 0 <= Wrap(n, Pow(k)) < Pow(k) && Eat(Between(st), [b] + Bytes(Wrap(n, Pow(k)), k)) == Put(st, Int(n, false))
  {
    hide Eat; hide Bytes; hide Num; hide Pow; hide Put;
    var m, x := Pow(k), Wrap(n, Pow(k));
    assert 0 <= x < m && Signed(x, m) == n;
    EatNumber(st, b, x, k);
    var h := [b] + Bytes(x, k);
    assert |h[1..]| == k && Num(h[1..], |h[1..]|) == x;
    hide Need;
    assert Decode(st, h) == Put(st, Int(Signed(x, m), false));
  }

  lemma EatSigned(st: Stack, n: int)
    requires -0x8000_0000_0000_0000 <= n < 0x8000_0000_0000_0000
    ensures Eat(Between(st), WriteSigned(n)) == Put(st, Int(n, false))
  {
    Powers();
    if -32 <= n < 128 {
      OneByte(Wrap(n, 256));
      EatOne(Between(st), Wrap(n, 256));
    } else {
      hide Eat; hide Bytes; hide Num; hide Pow; hide Put; hide Wrap;
      if -128 <= n < 128 { EatComplement(st, 0xD0, n, 1); }
      else if -32768 <= n < 32768 { EatComplement(st, 0xD1, n, 2); }
      else if -0x8000_0000 <= n < 0x8000_0000 { EatComplement(st, 0xD2, n, 4); }
      else { EatComplement(st, 0xD3, n, 8); }
    }
  }

  lemma OneByte(x: nat)
    requires x < 256
    ensures x < Pow(1) && Bytes(x, 1) == [x]
  {
    Powers();
    assert Pow(0) == 1;
  }

  // a length in front of something
  lemma EatText(st: Stack, s: Str)
    requires |s| < 0x8000_0000
    ensures Eat(Between(st), TextHeader(|s|) + s) == Put(st, Text(s))
  {
    var h := TextHeader(|s|);
    EatConcat(Between(st), h, s);
    EatTextHeader(st, |s|);
    if s != [] {
      EatBody(st, |s|, [], s);
      assert [] + s == s;
    }
  }

  lemma EatTextHeader(st: Stack, n: nat)
    requires n < 0x8000_0000
    ensures Eat(Between(st), TextHeader(n)) == Raw(st, n)
  {
    Powers();
    hide Eat; hide Bytes; hide Num; hide Pow; hide Raw;
    if n < 0x20 { EatOne(Between(st), 0xA0 + n); }
    else if n < 256 { EatNumber(st, 0xD9, n, 1); }
    else if n < 65536 { EatNumber(st, 0xDA, n, 2); }
    else { EatNumber(st, 0xDB, n, 4); }
  }

  lemma EatArrayHeader(st: Stack, n: nat)
    requires n < 0x8000_0000
    ensures Eat(Between(st), ArrayHeader(n)) == Open(st, n, false)
  {
    Powers();
    hide Eat; hide Bytes; hide Num; hide Pow; hide Open;
    if n < 0x10 { EatOne(Between(st), 0x90 + n); }
    else if n < 65536 { EatNumber(st, 0xDC, n, 2); }
    else { EatNumber(st, 0xDD, n, 4); }
  }

  lemma EatMapHeader(st: Stack, n: nat)
    requires n < 0x8000_0000
    ensures Eat(Between(st), MapHeader(n)) == Open(st, n, true)
  {
    Powers();
    hide Eat; hide Bytes; hide Num; hide Pow; hide Open;
    if n < 0x10 { EatOne(Between(st), 0x80 + n); }
    else if n < 65536 { EatNumber(st, 0xDE, n, 2); }
    else { EatNumber(st, 0xDF, n, 4); }
  }

  lemma EatReal(st: Stack, bits: Str)
    requires |bits| == 8
    ensures Eat(Between(st), [0xCB] + bits) == Put(st, Real(bits))
  {
    var h := [0xCB as Byte] + bits;
    EatFixed(st, h);
    assert h[1..] == bits;
  }

  lemma {:induction false} AssignNew(pairs: seq<Pair>, k: Str, v: Json)
    requires !Keyed(pairs, k)
    ensures Assign(pairs, k, v) == pairs + [Pair(k, v)]
  {
    if pairs != [] {
      assert pairs[0].key != k;
      assert forall x :: 0 <= x < |pairs[1..]| ==> pairs[1..][x] == pairs[x + 1];
      AssignNew(pairs[1..], k, v);
    }
  }

  // Reading what was written for v, wherever a value may stand, puts an equal value there.
  lemma {:induction false} EatValue(st: Stack, v: Json) returns (w: Json)
    requires Ok(v) && !AtKey(st)
    ensures Same(v, w) && Eat(Between(st), Unparse(v)) == Put(st, w)
    decreases v, 1
  {
    w := v;
    match v {
      case Null => EatOne(Between(st), 0xC0);
      case Bool(b) => EatOne(Between(st), if b then 0xC3 else 0xC2);
      case Int(n, u) =>
        if u { var t := EatUnsigned(st, n); w := Int(n, t); }
        else { EatSigned(st, n); w := Int(n, false); }
      case Real(bits) => EatReal(st, bits);
      case Text(s) => EatText(st, s);
      case Arr(items) =>
        EatArrayHeader(st, |items|);
        EatConcat(Between(st), ArrayHeader(|items|), UnparseAll(items));
        if items != [] {
          var ws := EatItems(st, [], items);
          w := Arr(ws);
          assert [] + ws == ws;
        }
      case Obj(pairs) =>
        EatMapHeader(st, |pairs|);
        EatConcat(Between(st), MapHeader(|pairs|), UnparsePairs(pairs));
        if pairs != [] {
          var qs := EatPairs(st, [], pairs);
          w := Obj(qs);
          assert [] + qs == qs;
        }
    }
  }

  lemma {:induction false} EatItems(st: Stack, had: seq<Json>, vs: seq<Json>) returns (ws: seq<Json>)
    requires vs != [] && OkAll(vs)
    ensures SameAll(vs, ws) && Eat(Between(On(ArrFrame(had, |vs| - 1), st)), UnparseAll(vs)) == Put(st, Arr(had + ws))
    decreases vs, 0
  {
    var here := On(ArrFrame(had, |vs| - 1), st);
    assert UnparseAll(vs) == Unparse(vs[0]) + UnparseAll(vs[1..]);
    hide Eat; hide Unparse; hide Same;
    EatConcat(Between(here), Unparse(vs[0]), UnparseAll(vs[1..]));
    var w := EatValue(here, vs[0]);
    if |vs| == 1 {
      ws := [w];
      assert vs[1..] == [] && ws[1..] == [];
    } else {
      var rest := EatItems(st, had + [w], vs[1..]);
      ws := [w] + rest;
      assert had + [w] + rest == had + ws && ws[1..] == rest;
    }
  }

  lemma KeysApart(had: seq<Pair>, ps: seq<Pair>, w: Json)
    requires ps != [] && OkPairs(ps) && forall x :: 0 <= x < |ps| ==> !Keyed(had, ps[x].key)
    ensures var now := had + [Pair(ps[0].key, w)]; forall x :: 0 <= x < |ps[1..]| ==> !Keyed(now, ps[1..][x].key)
  {
    var now := had + [Pair(ps[0].key, w)];
    forall x | 0 <= x < |ps[1..]| ensures !Keyed(now, ps[1..][x].key) {
      assert ps[1..][x] == ps[x + 1];
      assert !Keyed(had, ps[x + 1].key);
      assert ps[1..][x].key != ps[0].key;
    }
  }

  lemma {:induction false} EatPairs(st: Stack, had: seq<Pair>, ps: seq<Pair>) returns (qs: seq<Pair>)
    requires ps != [] && OkPairs(ps) && forall x :: 0 <= x < |ps| ==> !Keyed(had, ps[x].key)
    ensures SamePairs(ps, qs)
      && Eat(Between(On(KeyFrame(had, |ps| - 1), st)), UnparsePairs(ps)) == Put(st, Obj(had + qs))
    decreases ps, 1
  {
    var k, n := ps[0].key, |ps| - 1;
    var w := EatPair(st, had, n, ps);
    AssignNew(had, k, w) by { assert !Keyed(had, k); }
    var now := had + [Pair(k, w)];
    KeysApart(had, ps, w);
    hide *;
    PutValue(st, had, k, n, w);
    if n == 0 {
      qs := [Pair(k, w)];
      OnePair(ps, w);
      EatNone(Put(On(ValFrame(had, k, n), st), w));
    } else {
      var rest := EatPairs(st, now, ps[1..]);
      qs := [Pair(k, w)] + rest;
      MorePairs(ps, w, rest);
      assert now + rest == had + qs;
    }
  }

  lemma OnePair(ps: seq<Pair>, w: Json)
    requires |ps| == 1 && Same(ps[0].value, w) && OkPairs(ps)
    ensures SamePairs(ps, [Pair(ps[0].key, w)]) && UnparsePairs(ps[1..]) == []
  { hide Same; }

  lemma MorePairs(ps: seq<Pair>, w: Json, rest: seq<Pair>)
    requires ps != [] && Same(ps[0].value, w) && SamePairs(ps[1..], rest)
    ensures SamePairs(ps, [Pair(ps[0].key, w)] + rest)
  {
    hide Same;
    assert ([Pair(ps[0].key, w)] + rest)[1..] == rest;
  }

  // the first pair
  lemma EatPair(st: Stack, had: seq<Pair>, n: nat, ps: seq<Pair>) returns (w: Json)
    requires ps != [] && OkPairs(ps)
    ensures Same(ps[0].value, w)
      && Eat(Between(On(KeyFrame(had, n), st)), UnparsePairs(ps))
        == Eat(Put(On(ValFrame(had, ps[0].key, n), st), w), UnparsePairs(ps[1..]))
    decreases ps, 0
  {
    var k := ps[0].key;
    var here, there := On(KeyFrame(had, n), st), On(ValFrame(had, k, n), st);
    var a, b, c := TextHeader(|k|) + k, Unparse(ps[0].value), UnparsePairs(ps[1..]);
    assert UnparsePairs(ps) == a + b + c;
    assert Put(here, Text(k)) == Between(there);
    hide Eat; hide Unparse; hide UnparsePairs; hide TextHeader; hide Same; hide Put; hide Keyed;
    EatConcat(Between(here), a + b, c);
    EatConcat(Between(here), a, b);
    EatText(here, k);
    w := EatValue(there, ps[0].value);
  }

  // Reading what was written for a value ends in an equal value, at exactly the last byte: one byte more would be too
  // many.
  lemma RoundTrip(v: Json) returns (w: Json)
    requires Ok(v)
    ensures Same(v, w) && Eat(Between(Empty), Unparse(v)) == Final(w)
  { w := EatValue(Empty, v); }

  lemma {:induction false} EatOverrun(s: Str)
    ensures Eat(Overrun, s) == Overrun
    decreases |s|
  { if s != [] { EatOverrun(s[1..]); } }

  lemma EatFrom(p: Parse, s: Str, i: nat, j: nat)
    requires i <= j <= |s|
    ensures Eat(p, s[..j]) == Eat(Eat(p, s[..i]), s[i..j])
  {
    assert s[..j] == s[..i] + s[i..j];
    EatConcat(p, s[..i], s[i..j]);
  }

  // the start of a fixed part
  lemma EatStart(st: Stack, h: Str)
    requires h != [] && |h| < Need(h[0])
    ensures Eat(Between(st), h) == Header(st, h)
  {
    assert [h[0]] + h[1..] == h;
    EatHeader(st, [h[0]], h[1..]);
  }

  // no two prefixes of the same bytes are both whole values
  lemma PrefixUnique(p: Parse, s: Str, i: nat, j: nat)
    requires i < j <= |s| && Eat(p, s[..i]).Final?
    ensures Eat(p, s[..j]) == Overrun
  {
    var m := s[i..j];
    assert s[..j] == s[..i] + m;
    EatConcat(p, s[..i], m);
    EatOverrun(m[1..]);
  }

  // ---------- the writer ----------
  class Unparser {
    var buf: Str

    constructor () ensures buf == [] { buf := []; }

    method Write(v: Json)
      requires Ok(v)
      modifies this
      ensures buf == old(buf) + Unparse(v)
      decreases v, 1
    {
      match v {
        case Null => buf := buf + [0xC0];
        case Bool(b) => buf := buf + [if b then 0xC3 else 0xC2];
        case Int(n, u) => buf := buf + if u then WriteUnsigned(n) else WriteSigned(n);
        case Real(bits) => buf := buf + ([0xCB] + bits);
        case Text(s) => buf := buf + (TextHeader(|s|) + s);
        case Arr(items) =>
          buf := buf + ArrayHeader(|items|);
          WriteItems(items);
          Join(old(buf), ArrayHeader(|items|), UnparseAll(items));
        case Obj(pairs) =>
          buf := buf + MapHeader(|pairs|);
          WritePairs(pairs);
          Join(old(buf), MapHeader(|pairs|), UnparsePairs(pairs));
      }
    }

    method WriteItems(items: seq<Json>)
      requires OkAll(items)
      modifies this
      ensures buf == old(buf) + UnparseAll(items)
      decreases items, 0
    {
      hide Unparse;
      var i := 0;
      while i < |items|
        invariant 0 <= i <= |items| && OkAll(items[i..]) && buf + UnparseAll(items[i..]) == old(buf) + UnparseAll(items)
      {
        ghost var before, tail := buf, items[i..];
        assert tail[0] == items[i] && tail[1..] == items[i + 1..];
        Write(items[i]);
        Join(before, Unparse(items[i]), UnparseAll(items[i + 1..]));
        i := i + 1;
      }
    }

    method WritePairs(pairs: seq<Pair>)
      requires OkPairs(pairs)
      modifies this
      ensures buf == old(buf) + UnparsePairs(pairs)
      decreases pairs, 0
    {
      hide Unparse; hide TextHeader; hide Keyed;
      var i := 0;
      while i < |pairs|
        invariant 0 <= i <= |pairs| && OkPairs(pairs[i..])
          && buf + UnparsePairs(pairs[i..]) == old(buf) + UnparsePairs(pairs)
      {
        ghost var before, tail := buf, pairs[i..];
        assert tail[0] == pairs[i] && tail[1..] == pairs[i + 1..];
        var k := pairs[i].key;
        buf := buf + (TextHeader(|k|) + k);
        Write(pairs[i].value);
        ghost var w := Unparse(pairs[i].value);
        Join(before, TextHeader(|k|) + k, w);
        Join(before, TextHeader(|k|) + k + w, UnparsePairs(pairs[i + 1..]));
        i := i + 1;
      }
    }
  }

  lemma Join(a: Str, b: Str, c: Str)
    ensures a + b + c == a + (b + c)
  { }

  // ---------- the incremental parser ----------
  datatype State = StFinal | StError | StNormal | StPartial | StString

  class StreamingParser {
    var state: State
    var stack: Stack
    var str: Str
    // the length of the string being read; the source keeps it in an extra stack element
    var want: nat
    var json: Json

    ghost function View(): Parse reads this {
      match state
      case StFinal => Final(json)
      case StError => Error
      case StNormal => Between(stack)
      case StPartial => Header(stack, str)
      case StString => Body(stack, want, str)
    }

    ghost predicate Valid() reads this {
      && (state.StPartial? ==> str != [] && |str| < Need(str[0]))
      && (state.StString? ==> |str| < want)
    }

    constructor ()
      ensures Valid() && View() == Between(Empty)
    { state, stack, str, want, json := StNormal, Empty, [], 0, Null; }

    // a value is complete: it goes into its container, and containers that have all their elements are complete in turn
    method Add(v: Json)
      requires state.StNormal?
      modifies `state, `stack, `json
      ensures Valid() && View() == Put(old(stack), v) && (state.StNormal? || state.StFinal? || state.StError?)
    {
      var cur := v;
      while stack.On? && !stack.top.KeyFrame? && stack.top.size == 0
        invariant state.StNormal? && Put(stack, cur) == Put(old(stack), v)
        decreases stack
      {
        cur := if stack.top.ArrFrame? then Arr(stack.top.items + [cur])
          else Obj(Assign(stack.top.pairs, stack.top.key, cur));
        stack := stack.below;
      }
      match stack
      case Empty => state, json := StFinal, cur;
      case On(ArrFrame(items, size), below) => stack := On(ArrFrame(items + [cur], size - 1), below);
      case On(ValFrame(pairs, key, size), below) => stack := On(KeyFrame(Assign(pairs, key, cur), size - 1), below);
      case On(KeyFrame(pairs, size), below) =>
        if cur.Text? { stack := On(ValFrame(pairs, cur.s, size), below); }
        else if cur.Int? { stack := On(ValFrame(pairs, Decimal(cur.n), size), below); }
        else { state := StError; }
    }

    // a container's header
    method Enter(n: nat, obj: bool)
      requires state.StNormal?
      modifies `state, `stack, `json
      ensures Valid() && View() == Open(old(stack), n, obj) && (state.StNormal? || state.StFinal? || state.StError?)
    {
      if AtKey(stack) { state := StError; }
      else if n != 0 { stack := On(if obj then KeyFrame([], n - 1) else ArrFrame([], n - 1), stack); }
      else { Add(if obj then Obj([]) else Arr([])); }
    }

    // the characters of a string, if they are all there
    method ReadChars(s: Str, n: nat, k0: nat) returns (k: nat)
      requires state.StNormal? && k0 <= |s|
      modifies this
      ensures Valid() && k0 <= k <= |s| && View() == Eat(Raw(old(stack), n), s[k0..k])
        && (k == |s| || !state.StString?) && !state.StPartial?
    {
      hide Put;
      if |s| - k0 < n {
        EatBody(stack, n, [], s[k0..]);
        assert [] + s[k0..] == s[k0..] && s[k0..|s|] == s[k0..];
        str := s[k0..];
        want := n;
        state := StString;
        k := |s|;
      } else {
        k := k0 + n;
        if n > 0 {
          EatBody(stack, n, [], s[k0..k]);
          assert [] + s[k0..k] == s[k0..k];
        }
        Add(Text(s[k0..k]));
      }
    }

    // the loop over the input
    method Scan(s: Str) returns (k: nat)
      requires state.StNormal?
      modifies this
      ensures Valid() && Consumed(old(View()), s, k, View())
      ensures k == |s| || state.StFinal? || state.StError?
    {
      hide Eat; hide Put; hide Need;
      k := 0;
      assert s[..0] == [];
      EatNone(View());
      while k < |s|
        invariant state.StNormal? && k <= |s| && View() == Eat(old(View()), s[..k])
        decreases |s| - k
      {
        var got := Recognise(s, k, stack);
        if got.Bad? {
          EatFrom(old(View()), s, k, k + 1);
          state := StError;
          return;
        } else if got.Short? {
          EatFrom(old(View()), s, k, |s|);
          assert s[k..|s|] == s[k..];
          str := s[k..];
          state := StPartial;
          k := |s|;
          return;
        }
        EatFrom(old(View()), s, k, k + got.m);
        k := k + got.m;
        match got.act {
          case Value(v) => Add(v);
          case Container(n, obj) => Enter(n, obj);
          case Chars(n) =>
            ghost var k1 := k;
            k := ReadChars(s, n, k);
            EatFrom(old(View()), s, k1, k);
        }
        if !state.StNormal? { return; }
      }
    }

    // One chunk. Some of it may be left for the next call: a string whose header came in two chunks is not begun at
    // once.
    method Consume(s: Str) returns (k: nat)
      requires Valid()
      modifies this
      ensures Valid() && Consumed(old(View()), s, k, View())
      ensures k == |s| || state.StFinal? || state.StError? || k > 0
    {
      hide Eat; hide Put; hide Need; hide Decode;
      k := 0;
      EatNone(View());
      assert s[..0] == [];
      if state.StFinal? || state.StError? { return; }
      if state.StPartial? || state.StString? {
        var need := if state.StPartial? then Need(str[0]) else want;
        ghost var had := str;
        k := if |s| < need - |str| then |s| else need - |str|;
        str := str + s[..k];
        if state.StPartial? { EatHeader(stack, had, s[..k]); } else { EatBody(stack, want, had, s[..k]); }
        if |str| != need { return; }
        if state.StString? {
          state := StNormal;
          Add(Text(str));
        } else {
          ghost var st := stack;
          var h := str;
          state := StNormal;
          var m := Scan(h);
          WholeHeader(st, h, m, View());
        }
        if !state.StNormal? { return; }
      }
      ghost var mid := View();
      var m := Scan(s[k..]);
      ConsumedMore(old(View()), s, k, m, mid, View());
      k := k + m;
    }

    // all of a sequence of chunks, handing in again what was not taken
    method Feed(chunks: seq<Str>) returns (taken: nat)
      requires Valid()
      modifies this
      ensures Valid() && Consumed(old(View()), Flatten(chunks), taken, View())
      ensures taken == |Flatten(chunks)| || state.StFinal? || state.StError?
    {
      hide Consumed; hide Eat; hide Need;
      taken := 0;
      var i, rest := 0, [];
      ghost var all := Flatten(chunks);
      assert chunks[0..] == chunks && rest + all == all && all[0..] == all;
      ConsumedNone(View(), all);
      while (rest != [] || i < |chunks|) && !state.StFinal? && !state.StError?
        invariant Valid() && i <= |chunks| && taken <= |all| && all[taken..] == rest + Flatten(chunks[i..])
        invariant Consumed(old(View()), all, taken, View())
        decreases |chunks| - i, |rest|
      {
        if rest == [] {
          assert chunks[i..][1..] == chunks[i + 1..];
          rest := chunks[i];
          i := i + 1;
        } else {
          ghost var mid := View();
          var k := Consume(rest);
          ghost var tail := Flatten(chunks[i..]);
          ConsumedIs(old(View()), all, taken, mid);
          ConsumedIs(mid, rest, k, View());
          ConsumedPart(mid, rest, tail, k, View());
          ConsumedMore(old(View()), all, taken, k, mid, View());
          taken := taken + k;
          assert (rest + tail)[k..] == rest[k..] + tail;
          rest := rest[k..];
          if state.StFinal? || state.StError? { break; }
        }
      }
    }
  }

  ghost function Flatten(chunks: seq<Str>): Str { if chunks == [] then [] else chunks[0] + Flatten(chunks[1..]) }

  // consumed k bytes of s, starting from p; an unreadable format byte is noticed but not consumed
  ghost predicate Consumed(p: Parse, s: Str, k: nat, q: Parse) {
    k <= |s| && (Eat(p, s[..k]) == q || (q.Error? && k < |s| && Eat(p, s[..k + 1]).Error?))
  }

  // what stands at position k of the input
  datatype Lexed = Whole(act: Act, m: nat) | Short | Bad

  method Recognise(s: Str, k: nat, ghost st: Stack) returns (r: Lexed)
    requires k < |s|
    ensures r.Bad? ==> Eat(Between(st), s[k..k + 1]) == Error
    ensures r.Short? ==> |s| - k < Need(s[k]) && Eat(Between(st), s[k..]) == Header(st, s[k..])
    ensures r.Whole? ==> 0 < r.m <= |s| - k && Eat(Between(st), s[k..k + r.m]) == Do(st, r.act)
  {
    var b := s[k];
    assert s[k..k + 1] == [b];
    EatOne(Between(st), b);
    hide Eat; hide Put; hide Open; hide Raw; hide Fixed;
    if b < 0x80 || b >= 0xE0 { r := Whole(Value(Int(Signed(b, 256), false)), 1); }
    else if b < 0x90 { r := Whole(Container(b - 0x80, true), 1); }
    else if b < 0xA0 { r := Whole(Container(b - 0x90, false), 1); }
    else if b < 0xC0 { r := Whole(Chars(b - 0xA0), 1); }
    else if b == 0xC0 { r := Whole(Value(Null), 1); }
    else if b == 0xC2 || b == 0xC3 { r := Whole(Value(Bool(b == 0xC3)), 1); }
    else if Need(b) == 0 { r := Bad; }
    else if |s| - k < Need(b) {
      EatStart(st, s[k..]);
      r := Short;
    } else {
      r := Whole(Fixed(s[k..k + Need(b)]), Need(b));
      EatFixed(st, s[k..k + Need(b)]);
    }
  }

  lemma EatNone(p: Parse)
    ensures Eat(p, []) == p
  { }

  lemma ConsumedNone(p: Parse, s: Str)
    ensures Consumed(p, s, 0, p)
  { assert s[..0] == []; }

  lemma ConsumedIs(p: Parse, s: Str, k: nat, q: Parse)
    requires Consumed(p, s, k, q)
    ensures k <= |s| && (!q.Error? ==> Eat(p, s[..k]) == q)
  { }

  lemma ConsumedPart(p: Parse, s: Str, t: Str, k: nat, q: Parse)
    requires Consumed(p, s, k, q)
    ensures Consumed(p, s + t, k, q)
  {
    assert (s + t)[..k] == s[..k];
    if k < |s| { assert (s + t)[..k + 1] == s[..k + 1]; }
  }

  lemma ConsumedMore(p: Parse, s: Str, k: nat, m: nat, mid: Parse, q: Parse)
    requires k <= |s| && Eat(p, s[..k]) == mid && Consumed(mid, s[k..], m, q)
    ensures Consumed(p, s, k + m, q)
  {
    assert s[k..k + m] == s[k..][..m];
    EatFrom(p, s, k, k + m);
    if k + m < |s| {
      assert s[k..k + m + 1] == s[k..][..m + 1];
      EatFrom(p, s, k, k + m + 1);
    }
  }

  // a complete fixed part, read on its own
  lemma WholeHeader(st: Stack, h: Str, m: nat, q: Parse)
    requires h != [] && |h| == Need(h[0]) && Consumed(Between(st), h, m, q) && (m == |h| || q.Final? || q.Error?)
    ensures q == Decode(st, h)
  {
    assert h[..|h|] == h;
    EatFixed(st, h);
    if 0 < m < |h| {
      assert h[..m][0] == h[0];
      EatStart(st, h[..m]);
    }
    if m + 1 < |h| {
      assert h[..m + 1][0] == h[0];
      EatStart(st, h[..m + 1]);
    }
    if m == 0 { assert h[..0] == []; }
  }

  lemma {:induction false} EatError(s: Str)
    ensures Eat(Error, s) == Error
    decreases |s|
  { if s != [] { EatError(s[1..]); } }

  // where a whole value can end, and only there
  lemma EndsThere(p: Parse, all: Str, n: nat, w: Json, t: nat, q: Parse)
    requires n <= |all| && Eat(p, all[..n]) == Final(w)
    requires Consumed(p, all, t, q) && q != Overrun && (t == |all| || q.Final? || q.Error?)
    ensures t == n && q == Final(w)
  {
    if q.Error? {
      var k := if Eat(p, all[..t]) == q then t else t + 1;
      if k > n { PrefixUnique(p, all, n, k); }
      else {
        EatFrom(p, all, k, n);
        EatError(all[k..n]);
      }
    } else if t > n { PrefixUnique(p, all, n, t); }
    else if t < n { PrefixUnique(p, all, t, n); }
  }

  // Parsing what was written for a value gives an equal value and takes exactly those bytes, whatever follows them and
  // however they are cut into chunks.
  method ReadBack(chunks: seq<Str>, ghost v: Json, ghost tail: Str) returns (json: Json, taken: nat)
    requires Ok(v) && Flatten(chunks) == Unparse(v) + tail
    ensures Same(v, json) && taken == |Unparse(v)|
  {
    hide Unparse; hide Eat; hide Consumed; hide Same;
    var parser := new StreamingParser();
    ghost var w := RoundTrip(v);
    ghost var all := Flatten(chunks);
    assert all[..|Unparse(v)|] == Unparse(v);
    taken := parser.Feed(chunks);
    EndsThere(Between(Empty), all, |Unparse(v)|, w, taken, parser.View());
    json := parser.json;
  }

  // ---------- the format, byte by byte ----------
  ghost predicate Unsigned(h: Str, b: Byte, k: nat, n: int) { 0 <= n < Pow(k) && h == [b] + Bytes(n, k) }

  ghost predicate Complement(h: Str, b: Byte, k: nat, n: int) {
    -(Pow(k) / 2) <= n < Pow(k) / 2 && h == [b] + Bytes(if n < 0 then n + Pow(k) else n, k)
  }

  // every form of an integer, not only the shortest; the 32-bit and 64-bit unsigned forms give an unsigned long
  ghost predicate IntForm(h: Str, n: int, unsigned: bool) {
    if unsigned then Unsigned(h, 0xCE, 4, n) || Unsigned(h, 0xCF, 8, n)
    else
      || (0 <= n < 0x80 && h == [n])                 // positive fixint
      || (-32 <= n < 0 && h == [n + 256])            // negative fixint
      || Unsigned(h, 0xCC, 1, n) || Unsigned(h, 0xCD, 2, n)
      || Complement(h, 0xD0, 1, n) || Complement(h, 0xD1, 2, n) || Complement(h, 0xD2, 4, n)
      || Complement(h, 0xD3, 8, n)
  }

  // fixstr, str 8, 16, 32, and bin 8, 16, 32, which are read as strings too
  ghost predicate TextHead(h: Str, n: nat) {
    n < 0x8000_0000 && (
      || (n < 32 && h == [0xA0 + n])
      || Unsigned(h, 0xD9, 1, n) || Unsigned(h, 0xDA, 2, n) || Unsigned(h, 0xDB, 4, n)
      || Unsigned(h, 0xC4, 1, n) || Unsigned(h, 0xC5, 2, n) || Unsigned(h, 0xC6, 4, n))
  }

  ghost predicate ArrayHead(h: Str, n: nat) {
    n < 0x8000_0000 && ((n < 16 && h == [0x90 + n]) || Unsigned(h, 0xDC, 2, n) || Unsigned(h, 0xDD, 4, n))
  }

  ghost predicate MapHead(h: Str, n: nat) {
    n < 0x8000_0000 && ((n < 16 && h == [0x80 + n]) || Unsigned(h, 0xDE, 2, n) || Unsigned(h, 0xDF, 4, n))
  }

  ghost predicate TextForm(s: Str, t: Str) {
    |t| <= |s| && TextHead(s[..|s| - |t|], |t|) && s[|s| - |t|..] == t
  }

  // a key is a string, or an integer, which stands for its decimal text
  ghost predicate KeyForm(s: Str, k: Str) {
    TextForm(s, k) || exists n, u :: IntForm(s, n, u) && k == Decimal(n)
  }

  // The bytes s are a form of v. An Obj lists the pairs as they come, keys repeated or not.
  ghost predicate Encodes(s: Str, v: Json)
    decreases v, 0
  {
    match v
    case Null => s == [0xC0]
    case Bool(b) => s == [if b then 0xC3 else 0xC2]
    case Int(n, u) => IntForm(s, n, u)
    case Real(bits) => (|bits| == 4 && s == [0xCA] + bits) || (|bits| == 8 && s == [0xCB] + bits)
    case Text(t) => TextForm(s, t)
    case Arr(items) => exists i :: 0 <= i <= |s| && ArrayHead(s[..i], |items|) && EncodesAll(s[i..], items)
    case Obj(pairs) => exists i :: 0 <= i <= |s| && MapHead(s[..i], |pairs|) && EncodesPairs(s[i..], pairs)
  }

  ghost predicate EncodesAll(s: Str, vs: seq<Json>)
    decreases vs
  {
    if vs == [] then s == []
    else exists i :: 0 <= i <= |s| && Encodes(s[..i], vs[0]) && EncodesAll(s[i..], vs[1..])
  }

  ghost predicate EncodesPair(s: Str, p: Pair, i: int)
    decreases p, 1
  { 0 <= i <= |s| && KeyForm(s[..i], p.key) && Encodes(s[i..], p.value) }

  ghost predicate EncodesPairs(s: Str, ps: seq<Pair>)
    decreases ps
  {
    if ps == [] then s == []
    else exists i, j :: 0 <= j <= |s| && EncodesPair(s[..j], ps[0], i) && EncodesPairs(s[j..], ps[1..])
  }

  // ---------- what a form is read as ----------
  ghost function Built(v: Json): Json {
    match v
    case Arr(items) => Arr(BuiltAll(items))
    case Obj(pairs) => Obj(BuiltPairs([], pairs))
    case _ => v
  }
  ghost function BuiltAll(vs: seq<Json>): seq<Json> { if vs == [] then [] else [Built(vs[0])] + BuiltAll(vs[1..]) }
  ghost function BuiltPairs(had: seq<Pair>, ps: seq<Pair>): seq<Pair>
    decreases ps
  { if ps == [] then had else BuiltPairs(Assign(had, ps[0].key, Built(ps[0].value)), ps[1..]) }

  lemma EatInt(st: Stack, h: Str, n: int, u: bool)
    requires IntForm(h, n, u)
    ensures Eat(Between(st), h) == Put(st, Int(n, u))
  {
    Powers();
    hide Eat; hide Bytes; hide Num; hide Pow; hide Put;
    if u {
      if Unsigned(h, 0xCE, 4, n) { EatNumber(st, 0xCE, n, 4); } else { EatNumber(st, 0xCF, n, 8); }
    } else if 0 <= n < 0x80 && h == [n] { EatOne(Between(st), n); }
    else if -32 <= n < 0 && h == [n + 256] { EatOne(Between(st), n + 256); }
    else if Unsigned(h, 0xCC, 1, n) { EatNumber(st, 0xCC, n, 1); }
    else if Unsigned(h, 0xCD, 2, n) { EatNumber(st, 0xCD, n, 2); }
    else if Complement(h, 0xD0, 1, n) { EatComplement(st, 0xD0, n, 1); }
    else if Complement(h, 0xD1, 2, n) { EatComplement(st, 0xD1, n, 2); }
    else if Complement(h, 0xD2, 4, n) { EatComplement(st, 0xD2, n, 4); }
    else { EatComplement(st, 0xD3, n, 8); }
  }

  lemma EatAnyText(st: Stack, s: Str, t: Str)
    requires TextForm(s, t)
    ensures Eat(Between(st), s) == Put(st, Text(t))
  {
    var h, n := s[..|s| - |t|], |t|;
    assert s == h + t;
    EatTextHead(st, h, n);
    EatConcat(Between(st), h, t);
    if t != [] {
      EatBody(st, n, [], t);
      assert [] + t == t;
    }
  }

  lemma EatTextHead(st: Stack, h: Str, n: nat)
    requires TextHead(h, n)
    ensures Eat(Between(st), h) == Raw(st, n)
  {
    Powers();
    hide Eat; hide Bytes; hide Num; hide Pow; hide Raw;
    if n < 32 && h == [0xA0 + n] { EatOne(Between(st), 0xA0 + n); }
    else {
      var b: Byte := h[0];
      EatNumber(st, b, n, if b == 0xD9 || b == 0xC4 then 1 else if b == 0xDA || b == 0xC5 then 2 else 4);
    }
  }

  lemma EatArrayHead(st: Stack, h: Str, n: nat)
    requires ArrayHead(h, n)
    ensures Eat(Between(st), h) == Open(st, n, false)
  {
    Powers();
    hide Eat; hide Bytes; hide Num; hide Pow; hide Open;
    if n < 16 && h == [0x90 + n] { EatOne(Between(st), 0x90 + n); }
    else { EatNumber(st, h[0], n, if h[0] == 0xDC then 2 else 4); }
  }

  lemma EatMapHead(st: Stack, h: Str, n: nat)
    requires MapHead(h, n)
    ensures Eat(Between(st), h) == Open(st, n, true)
  {
    Powers();
    hide Eat; hide Bytes; hide Num; hide Pow; hide Open;
    if n < 16 && h == [0x80 + n] { EatOne(Between(st), 0x80 + n); }
    else { EatNumber(st, h[0], n, if h[0] == 0xDE then 2 else 4); }
  }

  lemma EatAnyReal(st: Stack, s: Str, bits: Str)
    requires (|bits| == 4 && s == [0xCA] + bits) || (|bits| == 8 && s == [0xCB] + bits)
    ensures Eat(Between(st), s) == Put(st, Real(bits))
  {
    EatFixed(st, s);
    assert s[1..] == bits;
  }

  // Whatever form of a value the bytes are, the shortest or not: the reader puts that value there.
  lemma {:induction false} EatEncoded(st: Stack, s: Str, v: Json)
    requires Encodes(s, v) && !AtKey(st)
    ensures Eat(Between(st), s) == Put(st, Built(v))
    decreases v, 0
  {
    match v {
      case Null => EatOne(Between(st), 0xC0);
      case Bool(b) => EatOne(Between(st), if b then 0xC3 else 0xC2);
      case Int(n, u) => EatInt(st, s, n, u);
      case Real(bits) => EatAnyReal(st, s, bits);
      case Text(t) => EatAnyText(st, s, t);
      case Arr(items) =>
        var i :| 0 <= i <= |s| && ArrayHead(s[..i], |items|) && EncodesAll(s[i..], items);
        assert s == s[..i] + s[i..];
        EatArrayHead(st, s[..i], |items|);
        EatConcat(Between(st), s[..i], s[i..]);
        if items != [] {
          EatEncodedAll(st, [], s[i..], items);
          assert [] + BuiltAll(items) == BuiltAll(items);
        }
      case Obj(pairs) =>
        var i :| 0 <= i <= |s| && MapHead(s[..i], |pairs|) && EncodesPairs(s[i..], pairs);
        assert s == s[..i] + s[i..];
        EatMapHead(st, s[..i], |pairs|);
        EatConcat(Between(st), s[..i], s[i..]);
        if pairs != [] { EatEncodedPairs(st, [], s[i..], pairs); }
    }
  }

  lemma PutItem(st: Stack, had: seq<Json>, n: nat, w: Json)
    ensures Put(On(ArrFrame(had, n), st), w) ==
      if n == 0 then Put(st, Arr(had + [w])) else Between(On(ArrFrame(had + [w], n - 1), st))
  { }

  lemma PutValue(st: Stack, had: seq<Pair>, k: Str, n: nat, w: Json)
    ensures Put(On(ValFrame(had, k, n), st), w) ==
      if n == 0 then Put(st, Obj(Assign(had, k, w))) else Between(On(KeyFrame(Assign(had, k, w), n - 1), st))
  { }

  lemma CutAll(s: Str, vs: seq<Json>) returns (i: nat)
    requires vs != [] && EncodesAll(s, vs)
    ensures i <= |s| && Encodes(s[..i], vs[0]) && EncodesAll(s[i..], vs[1..]) && s == s[..i] + s[i..]
    ensures |vs| == 1 ==> s[i..] == []
    ensures BuiltAll(vs) == [Built(vs[0])] + BuiltAll(vs[1..]) && (|vs| == 1 ==> BuiltAll(vs) == [Built(vs[0])])
  {
    hide Encodes; hide Built;
    i :| 0 <= i <= |s| && Encodes(s[..i], vs[0]) && EncodesAll(s[i..], vs[1..]);
  }

  lemma {:induction false} EatEncodedAll(st: Stack, had: seq<Json>, s: Str, vs: seq<Json>)
    requires vs != [] && EncodesAll(s, vs)
    ensures Eat(Between(On(ArrFrame(had, |vs| - 1), st)), s) == Put(st, Arr(had + BuiltAll(vs)))
    decreases vs
  {
    hide *;
    var here := On(ArrFrame(had, |vs| - 1), st);
    var i := CutAll(s, vs);
    var w := Built(vs[0]);
    EatConcat(Between(here), s[..i], s[i..]);
    EatEncoded(here, s[..i], vs[0]) by { assert !AtKey(here) by { NotAtKey(st, had, |vs| - 1); } }
    PutItem(st, had, |vs| - 1, w);
    if |vs| == 1 {
      EatNone(Put(here, w));
    } else {
      EatEncodedAll(st, had + [w], s[i..], vs[1..]);
      assert had + [w] + BuiltAll(vs[1..]) == had + BuiltAll(vs);
    }
  }

  lemma NotAtKey(st: Stack, had: seq<Json>, n: nat)
    ensures !AtKey(On(ArrFrame(had, n), st))
  { }

  lemma EatKey(st: Stack, had: seq<Pair>, size: nat, s: Str, k: Str)
    requires KeyForm(s, k)
    ensures Eat(Between(On(KeyFrame(had, size), st)), s) == Between(On(ValFrame(had, k, size), st))
  {
    var here := On(KeyFrame(had, size), st);
    if TextForm(s, k) { EatAnyText(here, s, k); }
    else {
      var n, u :| IntForm(s, n, u) && k == Decimal(n);
      EatInt(here, s, n, u);
    }
  }

  lemma CutPairs(had: seq<Pair>, s: Str, ps: seq<Pair>) returns (i: int, j: nat)
    requires ps != [] && EncodesPairs(s, ps)
    ensures j <= |s| && EncodesPair(s[..j], ps[0], i) && EncodesPairs(s[j..], ps[1..]) && s == s[..j] + s[j..]
    ensures |ps| == 1 ==> s[j..] == []
    ensures var now := Assign(had, ps[0].key, Built(ps[0].value));
      BuiltPairs(had, ps) == BuiltPairs(now, ps[1..]) && (|ps| == 1 ==> BuiltPairs(had, ps) == now)
  {
    hide EncodesPair; hide Built; hide Assign;
    i, j :| 0 <= j <= |s| && EncodesPair(s[..j], ps[0], i) && EncodesPairs(s[j..], ps[1..]);
  }

  lemma {:induction false} EatEncodedPairs(st: Stack, had: seq<Pair>, s: Str, ps: seq<Pair>)
    requires ps != [] && EncodesPairs(s, ps)
    ensures Eat(Between(On(KeyFrame(had, |ps| - 1), st)), s) == Put(st, Obj(BuiltPairs(had, ps)))
    decreases ps
  {
    hide *;
    var k, n := ps[0].key, |ps| - 1;
    var here, there := On(KeyFrame(had, n), st), On(ValFrame(had, k, n), st);
    var i, j := CutPairs(had, s, ps);
    EatConcat(Between(here), s[..j], s[j..]);
    EatEncodedPair(st, had, n, s[..j], ps[0], i);
    PutValue(st, had, k, n, Built(ps[0].value));
    if n == 0 {
      EatNone(Put(there, Built(ps[0].value)));
    } else {
      EatEncodedPairs(st, Assign(had, k, Built(ps[0].value)), s[j..], ps[1..]);
    }
  }

  lemma EatEncodedPair(st: Stack, had: seq<Pair>, n: nat, s: Str, p: Pair, i: int)
    requires EncodesPair(s, p, i)
    ensures Eat(Between(On(KeyFrame(had, n), st)), s) == Put(On(ValFrame(had, p.key, n), st), Built(p.value))
    decreases p, 1
  {
    var here := On(KeyFrame(had, n), st);
    assert s == s[..i] + s[i..];
    hide Encodes; hide Built; hide KeyForm; hide Eat; hide Put;
    EatConcat(Between(here), s[..i], s[i..]);
    EatKey(st, had, n, s[..i], p.key);
    EatEncoded(On(ValFrame(had, p.key, n), st), s[i..], p.value);
  }

  // What is written is a form of an equal value.
  lemma {:induction false} WrittenEncodes(v: Json) returns (w: Json)
    requires Ok(v)
    ensures Same(v, w) && Encodes(Unparse(v), w)
    decreases v, 0
  {
    w := v;
    match v {
      case Null =>
      case Bool(b) =>
      case Int(n, u) =>
        Powers();
        if u {
          w := Int(n, n >= 65536);
          if n < 0x80 { OneByte(n); }
        } else if -32 <= n < 128 {
          OneByte(Wrap(n, 256));
        }
      case Real(bits) =>
      case Text(t) => WrittenText(t);
      case Arr(items) =>
        var ws := WrittenEncodesAll(items);
        w := Arr(ws);
        var h, r := ArrayHeader(|items|), UnparseAll(items);
        Powers();
        assert (h + r)[..|h|] == h && (h + r)[|h|..] == r;
        assert ArrayHead(h, |ws|);
      case Obj(pairs) =>
        var qs := WrittenEncodesPairs(pairs);
        w := Obj(qs);
        var h, r := MapHeader(|pairs|), UnparsePairs(pairs);
        Powers();
        assert (h + r)[..|h|] == h && (h + r)[|h|..] == r;
        assert MapHead(h, |qs|);
    }
  }

  lemma WrittenText(t: Str)
    requires |t| < 0x8000_0000
    ensures TextForm(TextHeader(|t|) + t, t)
  {
    Powers();
    var h := TextHeader(|t|);
    assert (h + t)[..|h|] == h && (h + t)[|h|..] == t;
  }

  lemma {:induction false} WrittenEncodesAll(vs: seq<Json>) returns (ws: seq<Json>)
    requires OkAll(vs)
    ensures SameAll(vs, ws) && EncodesAll(UnparseAll(vs), ws)
    decreases vs
  {
    if vs == [] { ws := []; }
    else {
      var w := WrittenEncodes(vs[0]);
      var rest := WrittenEncodesAll(vs[1..]);
      ws := [w] + rest;
      var a, b := Unparse(vs[0]), UnparseAll(vs[1..]);
      hide Encodes; hide Unparse; hide Same;
      assert ws[1..] == rest && (a + b)[..|a|] == a && (a + b)[|a|..] == b;
    }
  }

  lemma {:induction false} WrittenEncodesPairs(ps: seq<Pair>) returns (qs: seq<Pair>)
    requires OkPairs(ps)
    ensures SamePairs(ps, qs) && EncodesPairs(UnparsePairs(ps), qs)
    decreases ps
  {
    if ps == [] { qs := []; }
    else {
      var w := WrittenEncodes(ps[0].value);
      var rest := WrittenEncodesPairs(ps[1..]);
      qs := [Pair(ps[0].key, w)] + rest;
      var k := ps[0].key;
      var a, b, c := TextHeader(|k|) + k, Unparse(ps[0].value), UnparsePairs(ps[1..]);
      WrittenText(k);
      hide Encodes; hide Unparse; hide Same; hide TextForm;
      assert qs[1..] == rest && UnparsePairs(ps) == a + b + c;
      assert (a + b + c)[..|a + b|] == a + b && (a + b + c)[|a + b|..] == c;
      assert (a + b)[..|a|] == a && (a + b)[|a|..] == b;
      assert KeyForm(a, k);
      assert EncodesPair(a + b, qs[0], |a|);
    }
  }

  // ---------- keys ----------
  ghost function Look(ps: seq<Pair>, k: Str): Option<Json> {
    if ps == [] then None else if ps[0].key == k then Some(ps[0].value) else Look(ps[1..], k)
  }

  ghost function LastOf(ps: seq<Pair>, k: Str): Option<Json> {
    if ps == [] then None
    else if ps[|ps| - 1].key == k then Some(Built(ps[|ps| - 1].value))
    else LastOf(ps[..|ps| - 1], k)
  }

  lemma {:induction false} AssignLooks(ps: seq<Pair>, key: Str, v: Json, k: Str)
    ensures Look(Assign(ps, key, v), k) == if k == key then Some(v) else Look(ps, k)
  { if ps != [] && ps[0].key != key { AssignLooks(ps[1..], key, v, k); } }

  lemma {:induction false} BuiltSnoc(had: seq<Pair>, ps: seq<Pair>, p: Pair)
    ensures BuiltPairs(had, ps + [p]) == Assign(BuiltPairs(had, ps), p.key, Built(p.value))
    decreases |ps|
  {
    if ps == [] { assert [p][1..] == []; }
    else {
      assert (ps + [p])[1..] == ps[1..] + [p];
      BuiltSnoc(Assign(had, ps[0].key, Built(ps[0].value)), ps[1..], p);
    }
  }

  // A key that comes more than once has the last value given for it.
  lemma {:induction false} LastValueCounts(ps: seq<Pair>, k: Str)
    ensures Look(BuiltPairs([], ps), k) == LastOf(ps, k)
    decreases |ps|
  {
    if ps != [] {
      var front, p := ps[..|ps| - 1], ps[|ps| - 1];
      assert ps == front + [p];
      BuiltSnoc([], front, p);
      AssignLooks(BuiltPairs([], front), p.key, Built(p.value), k);
      LastValueCounts(front, k);
    }
  }

  // the number that a row of decimal digits stands for
  ghost function DigitsValue(s: Str): nat
    requires forall i :: 0 <= i < |s| ==> 0x30 <= s[i] <= 0x39
  { if s == [] then 0 else 10 * DigitsValue(s[..|s| - 1]) + (s[|s| - 1] - 0x30) }

  // the text of n: its digits without leading zeros
  ghost predicate DigitsOf(d: Str, n: nat) {
    && |d| > 0 && (forall i :: 0 <= i < |d| ==> 0x30 <= d[i] <= 0x39)
    && DigitsValue(d) == n && (|d| > 1 ==> d[0] != 0x30)
  }

  lemma OneDigit(n: nat)
    requires n < 10
    ensures DigitsOf([0x30 + n], n)
  {
    var d: Str := [0x30 + n];
    assert d[..|d| - 1] == [] && DigitsValue(d[..|d| - 1]) == 0;
    assert DigitsValue(d) == n;
  }

  lemma MoreDigits(d: Str, n: nat)
    requires n >= 10 && DigitsOf(d, n / 10)
    ensures DigitsOf(d + [0x30 + n % 10], n)
  {
    var e := d + [0x30 + n % 10];
    assert e[..|e| - 1] == d;
    if |d| == 1 { assert d[..|d| - 1] == [] && DigitsValue(d[..|d| - 1]) == 0; }
    assert DigitsValue(e) == 10 * DigitsValue(d) + n % 10;
  }

  // An integer key's text: the digits of its absolute value, after a minus sign if it is negative.
  lemma {:induction false} DecimalDigits(n: int)
    ensures if n < 0 then |Decimal(n)| > 0 && Decimal(n)[0] == 0x2D && DigitsOf(Decimal(n)[1..], -n)
            else DigitsOf(Decimal(n), n)
    decreases if n < 0 then 1 - n else n
  {
    hide DigitsOf;
    if n < 0 {
      DecimalDigits(-n);
      assert Decimal(n)[1..] == Decimal(-n);
    } else if n < 10 {
      OneDigit(n);
    } else {
      DecimalDigits(n / 10);
      MoreDigits(Decimal(n / 10), n);
    }
  }
}
