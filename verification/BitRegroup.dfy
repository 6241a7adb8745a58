/** The two bit-regrouping loops: `ConvertBits` keeps its accumulator masked,
  * `ConvertBits8to5` lets it run over in a 64-bit integer. Both are proved to
  * cut the same string of bits into groups, so they give the same groups.
  */
module BitRegroup {
  import opened BitStrings

  datatype Regrouping = Groups(d: seq<nat>) | BadValue | BadPadding

  /** `d` spells `s` in groups of `to` bits, the last one filled with zeros. */
  predicate Padded(s: Bits, to: nat, d: seq<nat>) {
    InRange(to, d) && |s| <= |Flat(to, d)| < |s| + to && Flat(to, d) == s + Zeros(|Flat(to, d)| - |s|)
  }

  /** `s` is `d` spelt in groups of `to` bits, and fewer than `from` zeros that
    * do not fill another group. */
  predicate Unpadded(s: Bits, from: nat, to: nat, d: seq<nat>) {
    InRange(to, d) && |Flat(to, d)| <= |s| < |Flat(to, d)| + to && |s| < |Flat(to, d)| + from
    && s == Flat(to, d) + Zeros(|s| - |Flat(to, d)|)
  }

  ghost predicate Regroups(data: seq<nat>, from: nat, to: nat, pad: bool, r: Regrouping) {
    match r
    case BadValue => !InRange(from, data)
    case Groups(d) =>
      InRange(from, data)
      && (if pad then Padded(Flat(from, data), to, d) else Unpadded(Flat(from, data), from, to, d))
    case BadPadding => InRange(from, data) && !pad && forall d :: !Unpadded(Flat(from, data), from, to, d)
  }

  // ---- Arithmetic of the accumulator ----

  lemma HalfOfMod(v: nat, p: nat)
    requires p > 0
    ensures v % (2 * p) / 2 == v / 2 % p
    ensures v % (2 * p) % 2 == v % 2
  {
    var q, r := v / (2 * p), v % (2 * p);
    assert v == 2 * (p * q) + r;
    assert v / 2 == p * q + r / 2;
    Residue(v / 2, p, q, r / 2);
  }

  lemma Beyond(p: nat, a: int, b: nat, q: int, r: nat)
    requires r < p && p * a + b == p * q + r
    ensures a <= q
  {
    if a > q {
      Distribute(p, q, a - q - 1);
    }
  }

  lemma Distribute(p: nat, q: int, k: nat)
    ensures p * (q + k + 1) >= p * q + p
  {
    assert p * (q + k + 1) == p * q + p * k + p;
  }

  lemma Residue(v: int, p: nat, q: int, r: nat)
    requires r < p && v == p * q + r
    ensures v / p == q && v % p == r
  {
    Beyond(p, v / p, v % p, q, r);
    Beyond(p, q, r, v / p, v % p);
  }

  lemma {:induction false} Truncate(n: nat, m: nat, v: nat)
    requires n <= m
    ensures BitsOf(n, v % Pow2(m)) == BitsOf(n, v)
  {
    if n > 0 {
      HalfOfMod(v, Pow2(m - 1));
      Truncate(n - 1, m - 1, v / 2);
    }
  }

  lemma {:induction false} Join(n: nat, k: nat, a: nat, x: nat)
    requires x < Pow2(k)
    ensures BitsOf(n + k, a * Pow2(k) + x) == BitsOf(n, a) + BitsOf(k, x)
  {
    if k > 0 {
      var p := Pow2(k - 1);
      var v := a * Pow2(k) + x;
      assert v == 2 * (a * p) + x;
      assert v / 2 == a * p + x / 2 && v % 2 == x % 2;
      Join(n, k - 1, a, x / 2);
    } else {
      assert a * 1 + x == a;
    }
  }

  function Masked(acc: nat, from: nat, v: nat, mask: nat): nat {
    (acc * Pow2(from) + v) % Pow2(mask)
  }

  /** Shifting in a value of `from` bits and masking. */
  lemma ShiftIn(bits: nat, from: nat, mask: nat, acc: nat, v: nat)
    requires v < Pow2(from) && bits + from <= mask
    ensures BitsOf(bits + from, Masked(acc, from, v, mask)) == BitsOf(bits, acc) + BitsOf(from, v)
  {
    Truncate(bits + from, mask, acc * Pow2(from) + v);
    Join(bits, from, acc, v);
  }

  /** The group read off the top of `to + bits` accumulated bits. */
  function TopGroup(to: nat, bits: nat, acc: int): (g: nat)
    ensures g < Pow2(to)
  {
    acc / Pow2(bits) % Pow2(to)
  }

  lemma ReadGroup(to: nat, bits: nat, acc: nat)
    ensures BitsOf(bits + to, acc) == BitsOf(to, TopGroup(to, bits, acc)) + BitsOf(bits, acc)
  {
    var q, r := Divided(acc, Pow2(bits));
    JoinGroup(to, bits, q, r);
    Truncate(bits, bits, acc);
  }

  lemma Divided(v: nat, p: nat) returns (q: nat, r: nat)
    requires p > 0
    ensures q == v / p && r == v % p && r < p && q * p + r == v
  {
    q, r := v / p, v % p;
  }

  lemma JoinGroup(to: nat, bits: nat, q: nat, r: nat)
    requires r < Pow2(bits)
    ensures BitsOf(bits + to, q * Pow2(bits) + r) == BitsOf(to, q % Pow2(to)) + BitsOf(bits, r)
  {
    Join(to, bits, q, r);
    Truncate(to, to, q);
  }

  function LastGroup(to: nat, bits: nat, acc: nat): (g: nat)
    requires bits <= to
    ensures g < Pow2(to)
  {
    acc * Pow2(to - bits) % Pow2(to)
  }

  lemma FillGroup(to: nat, bits: nat, acc: nat)
    requires bits <= to
    ensures BitsOf(to, LastGroup(to, bits, acc)) == BitsOf(bits, acc) + Zeros(to - bits)
  {
    ShiftIn(bits, to - bits, to, acc, 0);
    BitsOfZero(to - bits);
  }

  lemma FillsWithNothing(to: nat, bits: nat, acc: nat)
    requires bits <= to
    ensures LastGroup(to, bits, acc) == 0 <==> BitsOf(bits, acc) == Zeros(bits)
  {
    var g := LastGroup(to, bits, acc);
    FillGroup(to, bits, acc);
    NumOfBits(to, g);
    NumOfBits(to, 0);
    BitsOfZero(to);
    var (s, z) := (BitsOf(bits, acc), Zeros(to - bits));
    assert Zeros(to) == Zeros(bits) + z;
    if s + z == Zeros(bits) + z {
      ConcatSplits(s, z, Zeros(bits), z);
    }
  }

  // ---- The loops ----

  /** What both loops keep: the groups so far and the pending bits spell the
    * input so far. */
  ghost predicate Reads(s: Bits, to: nat, ret: seq<nat>, bits: nat, acc: nat) {
    InRange(to, ret) && Flat(to, ret) + BitsOf(bits, acc) == s
  }

  lemma Push(data: seq<nat>, i: nat, from: nat, to: nat, mask: nat, ret: seq<nat>, bits: nat, acc: nat)
    requires i < |data| && data[i] < Pow2(from) && bits + from <= mask
    requires Reads(Flat(from, data[..i]), to, ret, bits, acc)
    ensures Reads(Flat(from, data[..i + 1]), to, ret, bits + from, Masked(acc, from, data[i], mask))
  {
    ShiftIn(bits, from, mask, acc, data[i]);
    assert data[..i + 1] == data[..i] + [data[i]];
    FlatGrows(from, data[..i], data[i]);
    assert (Flat(to, ret) + BitsOf(bits, acc)) + BitsOf(from, data[i])
        == Flat(to, ret) + (BitsOf(bits, acc) + BitsOf(from, data[i]));
  }

  lemma Emit(s: Bits, to: nat, ret: seq<nat>, bits: nat, acc: nat)
    requires Reads(s, to, ret, bits + to, acc)
    ensures Reads(s, to, ret + [TopGroup(to, bits, acc)], bits, acc)
  {
    var g := TopGroup(to, bits, acc);
    ReadGroup(to, bits, acc);
    FlatGrows(to, ret, g);
    assert Flat(to, ret) + (BitsOf(to, g) + BitsOf(bits, acc)) == (Flat(to, ret) + BitsOf(to, g)) + BitsOf(bits, acc);
  }

  lemma Fill(s: Bits, to: nat, ret: seq<nat>, bits: nat, acc: nat)
    requires 0 < bits < to && Reads(s, to, ret, bits, acc)
    ensures Padded(s, to, ret + [LastGroup(to, bits, acc)])
  {
    var g := LastGroup(to, bits, acc);
    FillGroup(to, bits, acc);
    FlatGrows(to, ret, g);
    var d := ret + [g];
    assert Flat(to, d) == s + Zeros(to - bits);
    assert |Flat(to, d)| - |s| == to - bits;
  }

  lemma NothingPending(s: Bits, to: nat, ret: seq<nat>, acc: nat)
    requires to > 0 && Reads(s, to, ret, 0, acc)
    ensures Padded(s, to, ret)
  {
    assert Flat(to, ret) == s;
    assert s + Zeros(0) == s;
  }

  /** The end of a loop without padding. */
  lemma Leave(s: Bits, from: nat, to: nat, ret: seq<nat>, bits: nat, acc: nat)
    requires bits < to && Reads(s, to, ret, bits, acc)
    ensures bits < from && LastGroup(to, bits, acc) == 0 ==> Unpadded(s, from, to, ret)
    ensures bits >= from || LastGroup(to, bits, acc) != 0 ==> forall d :: !Unpadded(s, from, to, d)
  {
    FillsWithNothing(to, bits, acc);
    if d :| Unpadded(s, from, to, d) {
      SameLength(to, |ret|, bits, |d|, |s| - to * |d|);
      var z := Zeros(|s| - |Flat(to, d)|);
      ConcatSplits(Flat(to, ret), BitsOf(bits, acc), Flat(to, d), z);
    }
  }

  lemma SameLength(to: nat, n: nat, bits: nat, m: nat, rest: nat)
    requires bits < to && rest < to && to * n + bits == to * m + rest
    ensures n == m && bits == rest
  {
    Beyond(to, n, bits, m, rest);
    Beyond(to, m, rest, n, bits);
  }

  /** Shifts one value into the accumulator and masks what has been read. */
  method Absorb(data: seq<nat>, i: nat, from: nat, to: nat, ghost ret: seq<nat>, bits: nat, acc: nat)
    returns (acc': nat)
    requires from > 0 && bits < to && i < |data| && data[i] < Pow2(from)
    requires Reads(Flat(from, data[..i]), to, ret, bits, acc)
    ensures Reads(Flat(from, data[..i + 1]), to, ret, bits + from, acc')
  {
    Push(data, i, from, to, from + to - 1, ret, bits, acc);
    acc' := Masked(acc, from, data[i], from + to - 1);
  }

  /** Moves every full group of pending bits to the output. */
  method EmitGroups(ghost s: Bits, to: nat, ret: seq<nat>, bits: nat, acc: nat) returns (ret': seq<nat>, bits': nat)
    requires to > 0 && Reads(s, to, ret, bits, acc)
    ensures bits' < to && Reads(s, to, ret', bits', acc)
  {
    ret', bits' := ret, bits;
    while bits' >= to
      invariant Reads(s, to, ret', bits', acc)
    {
      bits' := bits' - to;
      Emit(s, to, ret', bits', acc);
      ret' := ret' + [TopGroup(to, bits', acc)];
    }
  }

  lemma OutOfRange(k: nat, d: seq<nat>, i: nat)
    requires i < |d| && d[i] >= Pow2(k)
    ensures !InRange(k, d)
  {
  }

  lemma InRangeGrows(k: nat, d: seq<nat>, i: nat)
    requires i < |d| && d[i] < Pow2(k) && InRange(k, d[..i])
    ensures InRange(k, d[..i + 1])
  {
    assert d[..i + 1] == d[..i] + [d[i]];
  }

  method ConvertBits(data: seq<nat>, from: nat, to: nat, pad: bool) returns (r: Regrouping)
    requires from > 0 && to > 0
    ensures Regroups(data, from, to, pad, r)
  {
    var acc: nat, bits: nat, ret: seq<nat> := 0, 0, [];
    for i := 0 to |data|
      invariant bits < to
      invariant InRange(from, data[..i])
      invariant Reads(Flat(from, data[..i]), to, ret, bits, acc)
    {
      if data[i] >= Pow2(from) {
        OutOfRange(from, data, i);
        return BadValue;
      }
      InRangeGrows(from, data, i);
      acc := Absorb(data, i, from, to, ret, bits, acc);
      ret, bits := EmitGroups(Flat(from, data[..i + 1]), to, ret, bits + from, acc);
    }
    assert data[..|data|] == data;
    r := FinishGroups(data, from, to, pad, ret, bits, acc);
  }

  /** The end of the loop: the last group, or a refusal. */
  method FinishGroups(data: seq<nat>, from: nat, to: nat, pad: bool, ret: seq<nat>, bits: nat, acc: nat)
    returns (r: Regrouping)
    requires from > 0 && bits < to && InRange(from, data) && Reads(Flat(from, data), to, ret, bits, acc)
    ensures Regroups(data, from, to, pad, r)
  {
    ghost var s := Flat(from, data);
    if pad {
      if bits > 0 {
        Fill(s, to, ret, bits, acc);
        return Groups(ret + [LastGroup(to, bits, acc)]);
      }
      NothingPending(s, to, ret, acc);
      return Groups(ret);
    }
    Leave(s, from, to, ret, bits, acc);
    if bits >= from || LastGroup(to, bits, acc) != 0 {
      return BadPadding;
    }
    r := Groups(ret);
  }

  // ---- The unmasked accumulator ----

  const TwoTo63: int := 0x8000_0000_0000_0000
  const TwoTo64: nat := 0x1_0000_0000_0000_0000

  /** A mathematical integer as a 64-bit signed one holds it. */
  function Signed64(x: int): (r: int)
    ensures -TwoTo63 <= r < TwoTo63
  {
    (x + TwoTo63) % TwoTo64 - TwoTo63
  }

  /** The same 64 bits read as unsigned. */
  function Unsigned(acc: int): (r: nat)
    ensures r < TwoTo64
  {
    acc % TwoTo64
  }

  function ShiftedIn(acc: int, from: nat, v: nat): int {
    Signed64(acc * Pow2(from)) + v
  }

  function LastGroup64(to: nat, bits: nat, acc: int): (g: nat)
    requires bits <= to
    ensures g < Pow2(to)
  {
    Signed64(acc * Pow2(to - bits)) % Pow2(to)
  }

  lemma Push64(data: seq<nat>, i: nat, from: nat, to: nat, ret: seq<nat>, bits: nat, acc: int)
    requires i < |data| && data[i] < Pow2(from) && bits + from <= 64
    requires Reads(Flat(from, data[..i]), to, ret, bits, Unsigned(acc))
    ensures Reads(Flat(from, data[..i + 1]), to, ret, bits + from, Unsigned(ShiftedIn(acc, from, data[i])))
  {
    Push(data, i, from, to, 64, ret, bits, Unsigned(acc));
    WrapIn(acc, from, data[i]);
  }

  lemma Emit64(s: Bits, to: nat, ret: seq<nat>, bits: nat, acc: int)
    requires to + bits <= 64
    requires Reads(s, to, ret, bits + to, Unsigned(acc))
    ensures Reads(s, to, ret + [TopGroup(to, bits, acc)], bits, Unsigned(acc))
  {
    Emit(s, to, ret, bits, Unsigned(acc));
    WrapOut(acc, to, bits);
  }

  method ConvertBits8to5(data: seq<nat>, from: nat, to: nat, pad: bool) returns (r: Regrouping)
    requires from > 0 && to > 0 && from + to <= 64
    requires InRange(from, data)
    ensures Regroups(data, from, to, pad, r)
  {
    var acc: int, bits: nat, ret: seq<nat> := 0, 0, [];
    for i := 0 to |data|
      invariant bits < to
      invariant Reads(Flat(from, data[..i]), to, ret, bits, Unsigned(acc))
    {
      Push64(data, i, from, to, ret, bits, acc);
      acc := ShiftedIn(acc, from, data[i]);
      bits := bits + from;
      while bits >= to
        invariant bits < from + to
        invariant Reads(Flat(from, data[..i + 1]), to, ret, bits, Unsigned(acc))
      {
        bits := bits - to;
        Emit64(Flat(from, data[..i + 1]), to, ret, bits, acc);
        ret := ret + [TopGroup(to, bits, acc)];
      }
    }
    assert data[..|data|] == data;
    ghost var s := Flat(from, data);
    WrapLast(to, bits, acc);
    var last := LastGroup64(to, bits, acc);
    if pad {
      if bits > 0 {
        Fill(s, to, ret, bits, Unsigned(acc));
        ret := ret + [last];
      } else {
        NothingPending(s, to, ret, Unsigned(acc));
      }
    } else {
      Leave(s, from, to, ret, bits, Unsigned(acc));
      if bits >= from || last != 0 {
        return BadPadding;
      }
    }
    r := Groups(ret);
  }

  lemma {:induction false} Pow2Add(a: nat, b: nat)
    ensures Pow2(a + b) == Pow2(a) * Pow2(b)
  {
    if a > 0 {
      Pow2Add(a - 1, b);
      assert Pow2(a) * Pow2(b) == 2 * (Pow2(a - 1) * Pow2(b));
    }
  }

  lemma Pow2Is64()
    ensures Pow2(64) == TwoTo64
  {
    assert Pow2(8) == 256;
    Pow2Add(8, 8);
    Pow2Add(16, 16);
    Pow2Add(32, 32);
  }

  lemma AddMultiple(x: int, m: nat, j: int)
    requires m > 0
    ensures (x + m * j) / m == x / m + j
    ensures (x + m * j) % m == x % m
  {
    var q, r := x / m, x % m;
    assert m * (q + j) == m * q + m * j;
    Residue(x + m * j, m, q + j, r);
  }

  /** An integer and its wrapped form differ by a multiple of any power of two
    * up to 2^64. */
  lemma WrapsBy(x: int, k: nat) returns (j: int)
    requires k <= 64
    ensures Signed64(x) == x + Pow2(k) * j
  {
    Pow2Is64();
    Pow2Add(k, 64 - k);
    var w := (Signed64(x) - x) / TwoTo64;
    assert Signed64(x) == x + TwoTo64 * w;
    j := Pow2(64 - k) * w;
    assert Pow2(k) * Pow2(64 - k) * w == Pow2(k) * j;
  }

  lemma UnsignedBy(x: int, k: nat) returns (j: int)
    requires k <= 64
    ensures x == Unsigned(x) + Pow2(k) * j
  {
    Pow2Is64();
    Pow2Add(k, 64 - k);
    var w := x / TwoTo64;
    j := Pow2(64 - k) * w;
    assert Pow2(k) * Pow2(64 - k) * w == Pow2(k) * j;
  }

  lemma SumOfMultiples(u: nat, p: nat, v: nat, t: nat, k: int, j: int, w: int)
    requires t > 0 && w == (u + t * k) * p + t * j + v
    ensures w % t == (u * p + v) % t
  {
    assert (u + t * k) * p == u * p + t * k * p;
    assert t * k * p == t * (k * p);
    assert t * (k * p) + t * j == t * (k * p + j);
    AddMultiple(u * p + v, t, k * p + j);
  }

  lemma WrapIn(acc: int, from: nat, v: nat)
    ensures Unsigned(ShiftedIn(acc, from, v)) == Masked(Unsigned(acc), from, v, 64)
  {
    Pow2Is64();
    var j := WrapsBy(acc * Pow2(from), 64);
    var k := UnsignedBy(acc, 64);
    SumOfMultiples(Unsigned(acc), Pow2(from), v, TwoTo64, k, j, ShiftedIn(acc, from, v));
  }

  lemma GroupOfSum(u: nat, p: nat, t: nat, k: int)
    requires p > 0 && t > 0
    ensures (u + p * t * k) / p % t == u / p % t
  {
    assert p * t * k == p * (t * k);
    AddMultiple(u, p, t * k);
    AddMultiple(u / p, t, k);
  }

  lemma WrapOut(acc: int, to: nat, bits: nat)
    requires to + bits <= 64
    ensures TopGroup(to, bits, acc) == TopGroup(to, bits, Unsigned(acc))
  {
    var k := UnsignedBy(acc, bits + to);
    Pow2Add(bits, to);
    GroupOfSum(Unsigned(acc), Pow2(bits), Pow2(to), k);
  }

  lemma WrapLast(to: nat, bits: nat, acc: int)
    requires bits <= to <= 64
    ensures LastGroup64(to, bits, acc) == LastGroup(to, bits, Unsigned(acc))
  {
    var j := WrapsBy(acc * Pow2(to - bits), to);
    var k := UnsignedBy(acc, to);
    SumOfMultiples(Unsigned(acc), Pow2(to - bits), 0, Pow2(to), k, j, Signed64(acc * Pow2(to - bits)));
  }

  // ---- Bytes and symbols ----

  /** The result of regrouping bytes into symbols, with padding. */
  function Spread(data: seq<nat>): (d: seq<nat>) {
    var s := Flat(8, data);
    var n := (|s| + 4) / 5;
    Cut(5, n, s + Zeros(5 * n - |s|))
  }

  /** The result of regrouping symbols into bytes, without padding. */
  function Gather(d: seq<nat>): Regrouping {
    var s := Flat(5, d);
    var n := |s| / 8;
    if !InRange(5, d) then BadValue
    else if |s| >= 8 * n + 5 || s[8 * n..] != Zeros(|s| - 8 * n) then BadPadding
    else Groups(Cut(8, n, s[..8 * n]))
  }

  lemma PaddedIsUnique(s: Bits, to: nat, d: seq<nat>, e: seq<nat>)
    requires Padded(s, to, d) && Padded(s, to, e)
    ensures d == e
  {
    var (x, y) := (to * |d| - |s|, to * |e| - |s|);
    SameLength(to, |d|, to - 1 - x, |e|, to - 1 - y);
    FlatIsInjective(to, d, e);
  }

  lemma UnpaddedIsUnique(s: Bits, from: nat, to: nat, d: seq<nat>, e: seq<nat>)
    requires Unpadded(s, from, to, d) && Unpadded(s, from, to, e)
    ensures d == e
  {
    var (x, y) := (|s| - to * |d|, |s| - to * |e|);
    SameLength(to, |d|, x, |e|, y);
    ConcatSplits(Flat(to, d), Zeros(x), Flat(to, e), Zeros(y));
    FlatIsInjective(to, d, e);
  }

  lemma CutPads(s: Bits, n: nat, z: nat)
    requires z < 5 && |s + Zeros(z)| == 5 * n
    ensures Padded(s, 5, Cut(5, n, s + Zeros(z)))
  {
    FlatOfCut(5, n, s + Zeros(z));
    assert |Flat(5, Cut(5, n, s + Zeros(z)))| - |s| == z;
  }

  lemma GroupsNeeded(n: nat)
    ensures n <= 5 * ((n + 4) / 5) < n + 5
  {
  }

  lemma SpreadPads(data: seq<nat>)
    ensures Padded(Flat(8, data), 5, Spread(data))
  {
    var s := Flat(8, data);
    var n := (|s| + 4) / 5;
    GroupsNeeded(|s|);
    CutPads(s, n, 5 * n - |s|);
  }

  /** Both loops spread bytes over symbols the same way, */
  lemma SpreadIsTheResult(data: seq<nat>, r: Regrouping)
    requires InRange(8, data) && Regroups(data, 8, 5, true, r)
    ensures r == Groups(Spread(data))
  {
    SpreadPads(data);
    PaddedIsUnique(Flat(8, data), 5, r.d, Spread(data));
  }

  lemma GatherUnpads(d: seq<nat>)
    requires InRange(5, d)
    ensures Regroups(d, 5, 8, false, Gather(d))
  {
    var s := Flat(5, d);
    var n := |s| / 8;
    match Gather(d)
    case Groups(b) =>
      FlatOfCut(8, n, s[..8 * n]);
      assert s == s[..8 * n] + s[8 * n..];
    case BadPadding =>
      if b :| Unpadded(s, 5, 8, b) {
        SameLength(8, n, |s| - 8 * n, |b|, |s| - 8 * |b|);
      }
  }

  /** and gather them, or refuse to, the same way. */
  lemma GatherIsTheResult(d: seq<nat>, r: Regrouping)
    requires Regroups(d, 5, 8, false, r)
    ensures r == Gather(d)
  {
    if InRange(5, d) {
      GatherUnpads(d);
      if r.Groups? && Gather(d).Groups? {
        UnpaddedIsUnique(Flat(5, d), 5, 8, r.d, Gather(d).d);
      }
    }
  }

  /** Bytes come back from the symbols they were spread over, */
  lemma GatherUndoesSpread(data: seq<nat>)
    requires InRange(8, data)
    ensures InRange(5, Spread(data))
    ensures Gather(Spread(data)) == Groups(data)
  {
    var d := Spread(data);
    SpreadPads(data);
    assert Unpadded(Flat(5, d), 5, 8, data);
    GatherUnpads(d);
    UnpaddedIsUnique(Flat(5, d), 5, 8, Gather(d).d, data);
  }

  /** and every symbol string that gathers at all is the spread of its bytes. */
  lemma SpreadUndoesGather(d: seq<nat>)
    requires Gather(d).Groups?
    ensures InRange(8, Gather(d).d)
    ensures Spread(Gather(d).d) == d
  {
    GatherUnpads(d);
    SpreadOfUnpadded(d, Gather(d).d);
  }

  lemma SpreadOfUnpadded(d: seq<nat>, b: seq<nat>)
    requires InRange(5, d) && Unpadded(Flat(5, d), 5, 8, b)
    ensures Spread(b) == d
  {
    var s := Flat(8, b);
    assert Flat(5, d) == s + Zeros(|Flat(5, d)| - |s|);
    assert Padded(s, 5, d);
    SpreadPads(b);
    PaddedIsUnique(s, 5, d, Spread(b));
  }
}
