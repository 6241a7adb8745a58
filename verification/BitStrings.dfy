/** Numbers as strings of bits, most significant bit first, and the two ways
  * the address codecs cut them up: into bytes and into five-bit symbols.
  */
module BitStrings {

  type Bits = seq<bool>

  function BitsOf(n: nat, v: nat): (s: Bits)
    ensures |s| == n
    decreases n, v
  {
    if n == 0 then [] else BitsOf(n - 1, v / 2) + [v % 2 == 1]
  }

  function Num(s: Bits): nat {
    if s == [] then 0 else 2 * Num(s[..|s| - 1]) + if s[|s| - 1] then 1 else 0
  }

  function Pow2(n: nat): (r: nat)
    ensures r > 0
  {
    if n == 0 then 1 else 2 * Pow2(n - 1)
  }

  function Zeros(n: nat): (s: Bits)
    ensures |s| == n
  {
    seq(n, i => false)
  }

  lemma {:induction false} NumOfBits(n: nat, v: nat)
    requires v < Pow2(n)
    ensures Num(BitsOf(n, v)) == v
  {
    if n > 0 {
      NumOfBits(n - 1, v / 2);
      assert BitsOf(n, v)[..n - 1] == BitsOf(n - 1, v / 2);
    }
  }

  lemma {:induction false} BitsOfNum(s: Bits)
    ensures Num(s) < Pow2(|s|)
    ensures BitsOf(|s|, Num(s)) == s
  {
    if s != [] {
      BitsOfNum(s[..|s| - 1]);
    }
  }

  /** Widening a number prefixes zeros. */
  lemma {:induction false} Widen(n: nat, k: nat, v: nat)
    requires v < Pow2(k)
    ensures BitsOf(n + k, v) == Zeros(n) + BitsOf(k, v)
  {
    if k == 0 {
      BitsOfZero(n);
    } else {
      Widen(n, k - 1, v / 2);
    }
  }

  lemma {:induction false} BitsOfZero(n: nat)
    ensures BitsOf(n, 0) == Zeros(n)
  {
    if n > 0 {
      BitsOfZero(n - 1);
    }
  }

  lemma {:induction false} LowBits(n: nat, k: nat, v: nat)
    ensures BitsOf(n + k, v)[n..] == BitsOf(k, v)
  {
    if k > 0 {
      LowBits(n, k - 1, v / 2);
    }
  }

  // ---- Groups of k bits ----

  predicate InRange(k: nat, d: seq<nat>) {
    forall i :: 0 <= i < |d| ==> d[i] < Pow2(k)
  }

  /** The groups of `d`, `k` bits each, side by side. */
  function Flat(k: nat, d: seq<nat>): (s: Bits)
    ensures |s| == k * |d|
  {
    if d == [] then [] else Flat(k, d[..|d| - 1]) + BitsOf(k, d[|d| - 1])
  }

  /** `s` cut into `n` groups of `k` bits. */
  function Cut(k: nat, n: nat, s: Bits): (d: seq<nat>)
    requires |s| == k * n
    ensures |d| == n
  {
    if n == 0 then [] else
      OneGroupMore(k, n, |s|);
      Cut(k, n - 1, s[..|s| - k]) + [Num(s[|s| - k..])]
  }

  /** The groups a cut leaves spell what was cut. */
  ghost predicate Spells(k: nat, d: seq<nat>, s: Bits) {
    InRange(k, d) && Flat(k, d) == s
  }

  lemma {:induction false} FlatOfCut(k: nat, n: nat, s: Bits)
    requires |s| == k * n
    ensures InRange(k, Cut(k, n, s)) && Flat(k, Cut(k, n, s)) == s
  {
    if n > 0 {
      OneGroupMore(k, n, |s|);
      FlatOfCut(k, n - 1, s[..|s| - k]);
      CutSplits(k, n, s);
      SpellsOneMore(k, Cut(k, n - 1, s[..|s| - k]), s);
    }
  }

  lemma SpellsOneMore(k: nat, d: seq<nat>, s: Bits)
    requires |s| >= k && Spells(k, d, s[..|s| - k])
    ensures Spells(k, d + [Num(s[|s| - k..])], s)
  {
    FlatOfOneMore(k, d, s[..|s| - k], s[|s| - k..]);
    assert s == s[..|s| - k] + s[|s| - k..];
  }

  lemma CutSplits(k: nat, n: nat, s: Bits)
    requires n > 0 && |s| == k * n && |s| >= k && |s| - k == k * (n - 1)
    ensures Cut(k, n, s) == Cut(k, n - 1, s[..|s| - k]) + [Num(s[|s| - k..])]
  {
  }

  lemma OneGroupMore(k: nat, n: nat, length: nat)
    requires n > 0 && length == k * n
    ensures length >= k && length - k == k * (n - 1)
  {
  }

  lemma FlatOfOneMore(k: nat, d: seq<nat>, front: Bits, last: Bits)
    requires |last| == k && InRange(k, d) && Flat(k, d) == front
    ensures InRange(k, d + [Num(last)]) && Flat(k, d + [Num(last)]) == front + last
  {
    BitsOfNum(last);
    FlatGrows(k, d, Num(last));
  }

  lemma FlatGrows(k: nat, d: seq<nat>, x: nat)
    ensures Flat(k, d + [x]) == Flat(k, d) + BitsOf(k, x)
  {
    assert (d + [x])[..|d|] == d;
  }

  lemma ConcatSplits(a: Bits, b: Bits, c: Bits, d: Bits)
    requires |b| == |d| && a + b == c + d
    ensures a == c && b == d
  {
    assert |a| + |b| == |a + b| == |c| + |d|;
    assert a == (a + b)[..|a|] && c == (c + d)[..|a|];
    assert b == (a + b)[|a|..] && d == (c + d)[|a|..];
  }

  lemma {:induction false} FlatIsInjective(k: nat, d: seq<nat>, e: seq<nat>)
    requires |d| == |e| && InRange(k, d) && InRange(k, e) && Flat(k, d) == Flat(k, e)
    ensures d == e
  {
    if d != [] {
      var n := |d| - 1;
      ConcatSplits(Flat(k, d[..n]), BitsOf(k, d[n]), Flat(k, e[..n]), BitsOf(k, e[n]));
      FlatIsInjective(k, d[..n], e[..n]);
      NumOfBits(k, d[n]);
      NumOfBits(k, e[n]);
      assert d == d[..n] + [d[n]] && e == e[..n] + [e[n]];
    }
  }

  lemma CutOfFlat(k: nat, d: seq<nat>)
    requires InRange(k, d)
    ensures Cut(k, |d|, Flat(k, d)) == d
  {
    FlatOfCut(k, |d|, Flat(k, d));
    FlatIsInjective(k, d, Cut(k, |d|, Flat(k, d)));
  }

  // ---- Exclusive or ----

  function Xor(a: Bits, b: Bits): (s: Bits)
    requires |a| == |b|
    ensures |s| == |a|
    ensures forall i :: 0 <= i < |a| ==> s[i] == (a[i] != b[i])
  {
    seq(|a|, i requires 0 <= i < |a| => a[i] != b[i])
  }

  lemma XorSwap(a: Bits, b: Bits, c: Bits, d: Bits)
    requires |a| == |b| == |c| == |d|
    ensures Xor(Xor(a, b), Xor(c, d)) == Xor(Xor(a, c), Xor(b, d))
  {
  }

  lemma XorZeros(a: Bits)
    ensures Xor(a, Zeros(|a|)) == a && Xor(Zeros(|a|), a) == a
  {
  }

  lemma XorNothing(a: Bits, b: Bits)
    requires |a| == |b|
    ensures Xor(a, b) == Zeros(|a|) <==> a == b
  {
    assert Xor(a, a) == Zeros(|a|);
    if a != b {
      var i :| 0 <= i < |a| && a[i] != b[i];
      assert Xor(a, b)[i];
      assert !Zeros(|a|)[i];
    }
  }

  lemma XorSolves(a: Bits, b: Bits, c: Bits)
    requires |a| == |b| == |c|
    ensures Xor(a, b) == c <==> b == Xor(a, c)
  {
    assert Xor(a, Xor(a, b)) == b;
    assert Xor(a, Xor(a, c)) == c;
  }
}
