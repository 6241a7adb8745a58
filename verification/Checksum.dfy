/** The six-symbol BCH checksum over 32 characters that every ID address and
  * every segwit address carries: `polymod`, creation and verification.
  *
  * The 30-bit register is a string of bits, most significant first, so that a
  * shift or a mask is a slice. Everything turns on two facts: a step is linear
  * for exclusive or, and the step with symbol 0 has no kernel.
  */
module Checksum {

  import opened BitStrings

  // ---- One step of the register ----

  type Word = s: Bits | |s| == 30 witness Zeros(30)

  const Nil: Word := Zeros(30)

  function Words(vs: seq<nat>): (ws: seq<Word>)
    ensures |ws| == |vs|
    ensures forall i :: 0 <= i < |vs| ==> ws[i] == BitsOf(30, vs[i])
  {
    seq(|vs|, i requires 0 <= i < |vs| => BitsOf(30, vs[i]))
  }

  /** The five generators, in the order the bits of `top` pick them. */
  const Generators: seq<nat> := [0x3b6a57b2, 0x26508e6d, 0x1ea119fa, 0x3d4233dd, 0x2a1462b3]

  const Gens: seq<Word> := Words(Generators)

  function Tap(bit: bool, g: Word): Word {
    if bit then g else Nil
  }

  /** Adds to `chk` the generators picked by bits `i` and up of `top`, bit 0
    * being the last. */
  function Feed(chk: Word, top: Bits, i: nat): Word
    requires |top| == 5 && i <= 5
    decreases 5 - i, top
  {
    if i == 5 then chk else Feed(Xor(chk, Tap(top[4 - i], Gens[i])), top, i + 1)
  }

  function Shift(chk: Word): Word {
    chk[5..] + Zeros(5)
  }

  function Step(chk: Word, v: Word): Word {
    Feed(Xor(Shift(chk), v), chk[..5], 0)
  }

  lemma TapLinear(x: bool, y: bool, g: Word)
    ensures Tap(x != y, g) == Xor(Tap(x, g), Tap(y, g))
  {
  }

  lemma {:induction false} FeedLinear(a: Word, b: Word, s: Bits, t: Bits, i: nat)
    requires |s| == |t| == 5 && i <= 5
    ensures Feed(Xor(a, b), Xor(s, t), i) == Xor(Feed(a, s, i), Feed(b, t, i))
    decreases 5 - i
  {
    if i < 5 {
      var x, y := Tap(s[4 - i], Gens[i]), Tap(t[4 - i], Gens[i]);
      TapLinear(s[4 - i], t[4 - i], Gens[i]);
      XorSwap(a, b, x, y);
      FeedLinear(Xor(a, x), Xor(b, y), s, t, i + 1);
    }
  }

  lemma StepLinear(a: Word, b: Word, u: Word, v: Word)
    ensures Step(Xor(a, b), Xor(u, v)) == Xor(Step(a, u), Step(b, v))
  {
    assert Shift(Xor(a, b)) == Xor(Shift(a), Shift(b));
    XorSwap(Shift(a), Shift(b), u, v);
    assert Xor(a, b)[..5] == Xor(a[..5], b[..5]);
    FeedLinear(Xor(Shift(a), u), Xor(Shift(b), v), a[..5], b[..5], 0);
  }

  // ---- The step with symbol 0 has no kernel ----

  /** Whether an odd number of the generators picked by bits `i` and up of
    * `top` has bit `k` set. */
  function Odd(top: Bits, i: nat, k: nat): bool
    requires |top| == 5 && i <= 5 && k < 30
    decreases 5 - i
  {
    if i == 5 then false else (top[4 - i] && Gens[i][k]) != Odd(top, i + 1, k)
  }

  lemma {:induction false} FeedAt(chk: Word, top: Bits, i: nat, k: nat)
    requires |top| == 5 && i <= 5 && k < 30
    ensures Feed(chk, top, i)[k] == (chk[k] != Odd(top, i, k))
    decreases 5 - i
  {
    if i < 5 {
      FeedAt(Xor(chk, Tap(top[4 - i], Gens[i])), top, i + 1, k);
    }
  }

  lemma OddOfFive(top: Bits, k: nat)
    requires |top| == 5 && k < 30
    ensures Odd(top, 0, k) == ((top[4] && Gens[0][k]) != ((top[3] && Gens[1][k]) != ((top[2] && Gens[2][k])
        != ((top[1] && Gens[3][k]) != (top[0] && Gens[4][k])))))
  {
    assert Odd(top, 4, k) == (top[0] && Gens[4][k]);
    assert Odd(top, 2, k) == ((top[2] && Gens[2][k]) != ((top[1] && Gens[3][k]) != Odd(top, 4, k)));
  }

  lemma LastBit(n: nat, high: nat, bit: bool)
    ensures BitsOf(n + 1, 2 * high + if bit then 1 else 0) == BitsOf(n, high) + [bit]
  {
  }

  function Append(high: nat, bit: bool): nat {
    2 * high + if bit then 1 else 0
  }

  lemma LastFive(v: nat, high: nat, a: bool, b: bool, c: bool, d: bool, e: bool)
    requires v == Append(Append(Append(Append(Append(high, a), b), c), d), e)
    ensures BitsOf(30, v)[25..] == [a, b, c, d, e]
  {
    var h2 := Append(Append(high, a), b);
    var h4 := Append(Append(h2, c), d);
    LastTwo(25, high, a, b);
    LastTwo(27, h2, c, d);
    LastBit(29, h4, e);
    var s := BitsOf(25, high);
    assert s + [a, b] + [c, d] + [e] == s + [a, b, c, d, e];
  }

  lemma LastTwo(n: nat, high: nat, a: bool, b: bool)
    ensures BitsOf(n + 2, Append(Append(high, a), b)) == BitsOf(n, high) + [a, b]
  {
    LastBit(n, high, a);
    LastBit(n + 1, Append(high, a), b);
  }

  const Tails: seq<Bits> :=
    [[true, false, false, true, false],
     [false, true, true, false, true],
     [true, true, false, true, false],
     [true, true, true, false, true],
     [true, false, false, true, true]]

  lemma GenTail(i: nat)
    requires i < 5
    ensures Gens[i][25..] == Tails[i]
  {
    var v := Generators[i];
    if {
      case i == 0 => LastFive(v, 0x1db52bd, true, false, false, true, false);
      case i == 1 => LastFive(v, 0x1328473, false, true, true, false, true);
      case i == 2 => LastFive(v, 0xf508cf, true, true, false, true, false);
      case i == 3 => LastFive(v, 0x1ea119e, true, true, true, false, true);
      case i == 4 => LastFive(v, 0x150a315, true, false, false, true, true);
    }
  }

  lemma GenBit(i: nat, k: nat)
    requires i < 5 && 25 <= k < 30
    ensures Gens[i][k] == Tails[i][k - 25]
  {
    GenTail(i);
    assert Gens[i][k] == Gens[i][25..][k - 25];
  }

  lemma Column(top: Bits, k: nat)
    requires |top| == 5 && 25 <= k < 30
    ensures Odd(top, 0, k) == (
      if k == 25 then top[4] != (top[2] != (top[1] != top[0]))
      else if k == 26 then top[3] != (top[2] != top[1])
      else if k == 27 then top[3] != top[1]
      else if k == 28 then top[4] != (top[2] != top[0])
      else top[3] != (top[1] != top[0]))
  {
    OddOfFive(top, k);
    GenBit(0, k);
    GenBit(1, k);
    GenBit(2, k);
    GenBit(3, k);
    GenBit(4, k);
  }

  /** The last five bits of the generators are linearly independent. */
  lemma TopIsClear(top: Bits)
    requires |top| == 5
    requires forall k :: 25 <= k < 30 ==> !Odd(top, 0, k)
    ensures top == Zeros(5)
  {
    Column(top, 25);
    Column(top, 26);
    Column(top, 27);
    Column(top, 28);
    Column(top, 29);
  }

  lemma {:induction false} FeedNothing(chk: Word, i: nat)
    requires i <= 5
    ensures Feed(chk, Zeros(5), i) == chk
    decreases 5 - i
  {
    if i < 5 {
      XorZeros(chk);
      FeedNothing(chk, i + 1);
    }
  }

  lemma NothingShifted(a: Word)
    requires a[..5] == Zeros(5) && Shift(a) == Nil
    ensures a == Nil
  {
    assert forall i :: 5 <= i < 30 ==> a[i] == Shift(a)[i - 5];
    assert forall i :: 0 <= i < 5 ==> a[i] == a[..5][i];
  }

  lemma NothingFed(chk: Word, top: Bits)
    requires |top| == 5 && chk[25..] == Zeros(5) && Feed(chk, top, 0) == Nil
    ensures top == Zeros(5)
  {
    forall k | 25 <= k < 30 ensures !Odd(top, 0, k) {
      FeedAt(chk, top, 0, k);
      assert chk[k] == chk[25..][k - 25];
    }
    TopIsClear(top);
  }

  lemma StepHasNoKernel(a: Word)
    requires Step(a, Nil) == Nil
    ensures a == Nil
  {
    XorZeros(Shift(a));
    NothingFed(Shift(a), a[..5]);
    FeedNothing(Shift(a), 0);
    NothingShifted(a);
  }

  // ---- polymod ----

  const One: Word := Zeros(29) + [true]

  /** The register after `vs`, started at `chk`. */
  function Poly(chk: Word, vs: seq<Word>): Word {
    if vs == [] then chk else Step(Poly(chk, vs[..|vs| - 1]), vs[|vs| - 1])
  }

  lemma PolyGrows(chk: Word, values: seq<nat>, k: nat)
    requires k < |values|
    ensures Poly(chk, Words(values[..k + 1])) == Step(Poly(chk, Words(values[..k])), BitsOf(30, values[k]))
  {
    assert Words(values[..k + 1])[..k] == Words(values[..k]);
  }

  method Advance(before: Word, v: Word) returns (chk: Word)
    ensures chk == Step(before, v)
  {
    var top := before[..5];
    chk := Xor(before[5..] + Zeros(5), v);
    for i := 0 to 5
      invariant Feed(chk, top, i) == Step(before, v)
    {
      XorZeros(chk);
      if top[4 - i] {
        chk := Xor(chk, Gens[i]);
      }
    }
  }

  method Polymod(values: seq<nat>) returns (chk: Word)
    ensures chk == Poly(One, Words(values))
  {
    chk := One;
    for k := 0 to |values|
      invariant chk == Poly(One, Words(values[..k]))
    {
      PolyGrows(One, values, k);
      chk := Advance(chk, BitsOf(30, values[k]));
    }
    assert values[..|values|] == values;
  }

  lemma PolySnoc(chk: Word, ws: seq<Word>, v: Word)
    ensures Poly(chk, ws + [v]) == Step(Poly(chk, ws), v)
  {
    assert (ws + [v])[..|ws|] == ws;
  }

  lemma {:induction false} PolyConcat(chk: Word, us: seq<Word>, vs: seq<Word>)
    ensures Poly(chk, us + vs) == Poly(Poly(chk, us), vs)
    decreases |vs|
  {
    if vs == [] {
      assert us + vs == us;
    } else {
      var front, v := vs[..|vs| - 1], vs[|vs| - 1];
      PolyConcat(chk, us, front);
      ConcatSnoc(chk, us, front, v);
      assert vs == front + [v];
    }
  }

  lemma ConcatSnoc(chk: Word, us: seq<Word>, front: seq<Word>, v: Word)
    requires Poly(chk, us + front) == Poly(Poly(chk, us), front)
    ensures Poly(chk, us + (front + [v])) == Poly(Poly(chk, us), front + [v])
  {
    PolySnoc(chk, us + front, v);
    PolySnoc(Poly(chk, us), front, v);
    assert us + (front + [v]) == us + front + [v];
  }

  function XorAll(us: seq<Word>, vs: seq<Word>): (ws: seq<Word>)
    requires |us| == |vs|
    ensures |ws| == |us|
    ensures forall i :: 0 <= i < |us| ==> ws[i] == Xor(us[i], vs[i])
  {
    seq(|us|, i requires 0 <= i < |us| => Xor(us[i], vs[i]))
  }

  lemma {:induction false} PolyLinear(a: Word, b: Word, us: seq<Word>, vs: seq<Word>)
    requires |us| == |vs|
    ensures Poly(Xor(a, b), XorAll(us, vs)) == Xor(Poly(a, us), Poly(b, vs))
    decreases |us|
  {
    if us != [] {
      var n := |us| - 1;
      assert XorAll(us, vs)[..n] == XorAll(us[..n], vs[..n]);
      PolyLinear(a, b, us[..n], vs[..n]);
      StepLinear(Poly(a, us[..n]), Poly(b, vs[..n]), us[n], vs[n]);
    }
  }

  function Nils(n: nat): (ws: seq<Word>)
    ensures |ws| == n
    ensures forall i :: 0 <= i < n ==> ws[i] == Nil
  {
    seq(n, i => Nil)
  }

  lemma {:induction false} NilsHaveNoKernel(a: Word, n: nat)
    ensures Poly(a, Nils(n)) == Nil <==> a == Nil
  {
    if n > 0 {
      assert Nils(n)[..n - 1] == Nils(n - 1);
      NilsHaveNoKernel(a, n - 1);
      StepOfNil();
      if Poly(a, Nils(n)) == Nil {
        StepHasNoKernel(Poly(a, Nils(n - 1)));
      }
    }
  }

  lemma StepOfNil()
    ensures Step(Nil, Nil) == Nil
  {
    XorZeros(Nil);
    assert Shift(Nil) == Nil;
    assert Nil[..5] == Zeros(5);
    FeedNothing(Nil, 0);
  }

  // ---- Six symbols fill the register ----

  /** The symbols of `ws` side by side, five bits each. */
  function Packed(ws: seq<Word>): (s: Bits)
    ensures |s| == 5 * |ws|
  {
    if ws == [] then [] else Packed(ws[..|ws| - 1]) + ws[|ws| - 1][25..]
  }

  predicate Symbols(ws: seq<Word>) {
    forall i :: 0 <= i < |ws| ==> ws[i][..25] == Zeros(25)
  }

  lemma StepShifts(chk: Word, v: Word)
    requires chk[..5] == Zeros(5) && v[..25] == Zeros(25)
    ensures Step(chk, v) == chk[5..] + v[25..]
  {
    FeedNothing(Xor(Shift(chk), v), 0);
    assert forall i :: 0 <= i < 25 ==> v[i] == v[..25][i];
    assert forall i :: 25 <= i < 30 ==> v[i] == v[25..][i - 25];
    assert Xor(Shift(chk), v) == chk[5..] + v[25..];
  }

  lemma DropFive(k: nat, t: Bits)
    ensures (Zeros(k + 5) + t)[..5] == Zeros(5)
    ensures (Zeros(k + 5) + t)[5..] == Zeros(k) + t
  {
  }

  lemma {:induction false} SixSymbols(ws: seq<Word>)
    requires |ws| <= 6 && Symbols(ws)
    ensures Poly(Nil, ws) == Zeros(30 - 5 * |ws|) + Packed(ws)
  {
    if ws != [] {
      var n := |ws| - 1;
      SixSymbols(ws[..n]);
      NextSymbol(25 - 5 * n, Packed(ws[..n]), Poly(Nil, ws[..n]), ws[n]);
    }
  }

  lemma NextSymbol(k: nat, packed: Bits, chk: Word, w: Word)
    requires chk == Zeros(k + 5) + packed && w[..25] == Zeros(25)
    ensures Step(chk, w) == Zeros(k) + (packed + w[25..])
  {
    DropFive(k, packed);
    StepShifts(chk, w);
    Joins(Zeros(k), packed, w[25..]);
  }

  lemma Joins(a: Bits, b: Bits, c: Bits)
    ensures (a + b) + c == a + (b + c)
  {
  }

  lemma {:induction false} PackedIsInjective(us: seq<Word>, vs: seq<Word>)
    requires |us| == |vs| && Symbols(us) && Symbols(vs) && Packed(us) == Packed(vs)
    ensures us == vs
  {
    if us != [] {
      var n := |us| - 1;
      assert Packed(us)[..5 * n] == Packed(us[..n]) && Packed(vs)[..5 * n] == Packed(vs[..n]);
      PackedIsInjective(us[..n], vs[..n]);
      assert Packed(us)[5 * n..] == us[n][25..] && Packed(vs)[5 * n..] == vs[n][25..];
      assert us[n] == us[n][..25] + us[n][25..] && vs[n] == vs[n][..25] + vs[n][25..];
    }
  }

  lemma WordsAreSymbols(d: seq<nat>)
    requires InRange(5, d)
    ensures Symbols(Words(d))
  {
    forall i | 0 <= i < |d| ensures Words(d)[i][..25] == Zeros(25) {
      Widen(25, 5, d[i]);
    }
  }

  lemma WordsAreInjective(d: seq<nat>, e: seq<nat>)
    requires InRange(5, d) && InRange(5, e) && Words(d) == Words(e)
    ensures d == e
  {
    assert |d| == |Words(d)| == |e|;
    forall i | 0 <= i < |d| ensures d[i] == e[i] {
      assert Words(d)[i] == Words(e)[i];
      Widen(25, 5, d[i]);
      Widen(25, 5, e[i]);
      NumOfBits(5, d[i]);
      NumOfBits(5, e[i]);
      assert BitsOf(5, d[i]) == BitsOf(30, d[i])[25..] == BitsOf(5, e[i]);
    }
  }

  lemma CutGrows(s: Bits, i: nat)
    requires 5 * i + 5 <= |s|
    ensures Cut(5, i + 1, s[..5 * (i + 1)]) == Cut(5, i, s[..5 * i]) + [Num(s[5 * i..5 * (i + 1)])]
  {
    var t := s[..5 * (i + 1)];
    assert t[..5 * i] == s[..5 * i] && t[5 * i..] == s[5 * i..5 * (i + 1)];
  }

  lemma PackedGrows(d: seq<nat>, x: nat)
    ensures Packed(Words(d + [x])) == Packed(Words(d)) + BitsOf(30, x)[25..]
  {
    assert Words(d + [x])[..|d|] == Words(d);
  }

  lemma {:induction false} PackedIsFlat(d: seq<nat>)
    ensures Packed(Words(d)) == Flat(5, d)
  {
    if d != [] {
      var n := |d| - 1;
      PackedIsFlat(d[..n]);
      assert d == d[..n] + [d[n]];
      PackedGrows(d[..n], d[n]);
      LowBits(25, 5, d[n]);
    }
  }

  lemma PackedMeets(d: seq<nat>, m: Bits)
    requires InRange(5, d) && 5 * |d| == |m|
    ensures Packed(Words(d)) == m <==> d == Cut(5, |d|, m)
  {
    PackedIsFlat(d);
    FlatOfCut(5, |d|, m);
    CutOfFlat(5, d);
  }

  // ---- Creating and verifying ----

  /** The symbols that bring `data` to the remainder `target`. */
  function ChecksumOf(expanded: seq<nat>, data: seq<nat>, target: Word): (d: seq<nat>)
    ensures |d| == 6 && InRange(5, d)
  {
    var m := Xor(Poly(One, Words(expanded + data + [0, 0, 0, 0, 0, 0])), target);
    FlatOfCut(5, 6, m);
    Cut(5, 6, m)
  }

  method CreateChecksum(expanded: seq<nat>, data: seq<nat>, target: Word) returns (d: seq<nat>)
    ensures d == ChecksumOf(expanded, data, target)
  {
    var values := expanded + data;
    values := values + [0, 0, 0, 0, 0, 0];
    var mod := Polymod(values);
    mod := Xor(mod, target);
    d := [];
    for i := 0 to 6
      invariant d == Cut(5, i, mod[..5 * i])
    {
      CutGrows(mod, i);
      d := d + [Num(mod[5 * i..5 * (i + 1)])];
    }
    assert mod[..30] == mod;
  }

  method VerifyChecksum(expanded: seq<nat>, data: seq<nat>, target: Word) returns (ok: bool)
    ensures ok <==> Poly(One, Words(expanded + data)) == target
  {
    var chk := Polymod(expanded + data);
    ok := chk == target;
  }

  lemma BitsOfZeroSymbols()
    ensures Words([0, 0, 0, 0, 0, 0]) == Nils(6)
  {
    BitsOfZero(30);
  }

  lemma RemainderWith(data: seq<nat>, d: seq<nat>)
    requires |d| == 6 && InRange(5, d)
    ensures Poly(One, Words(data + d)) == Xor(Poly(One, Words(data) + Nils(6)), Packed(Words(d)))
  {
    assert Words(data + d) == Words(data) + Words(d);
    PolyConcat(One, Words(data), Words(d));
    PolyConcat(One, Words(data), Nils(6));
    AddSymbols(Poly(One, Words(data)), Words(d));
    WordsAreSymbols(d);
    SixSymbols(Words(d));
  }

  /** Six symbols verify exactly when they are the ones `ChecksumOf` computes. */
  lemma ChecksumIsUnique(expanded: seq<nat>, data: seq<nat>, d: seq<nat>, target: Word)
    requires |d| == 6 && InRange(5, d)
    ensures Poly(One, Words(expanded + (data + d))) == target <==> d == ChecksumOf(expanded, data, target)
  {
    var all := expanded + data;
    assert all + d == expanded + (data + d);
    var zeros := [0, 0, 0, 0, 0, 0];
    assert Words(all + zeros) == Words(all) + Words(zeros);
    BitsOfZeroSymbols();
    RemainderWith(all, d);
    var rest := Poly(One, Words(all) + Nils(6));
    XorSolves(rest, Packed(Words(d)), target);
    PackedMeets(d, Xor(rest, target));
  }

  lemma AddSymbols(chk: Word, ws: seq<Word>)
    ensures Poly(chk, ws) == Xor(Poly(chk, Nils(|ws|)), Poly(Nil, ws))
  {
    XorZeros(chk);
    forall i | 0 <= i < |ws| ensures XorAll(Nils(|ws|), ws)[i] == ws[i] {
      XorZeros(ws[i]);
    }
    assert XorAll(Nils(|ws|), ws) == ws;
    PolyLinear(chk, Nil, Nils(|ws|), ws);
  }

  // ---- Six consecutive symbols ----

  /** Two symbol strings of one length that agree outside positions
    * `p .. p + 6`. */
  predicate AgreeOutside(u: seq<nat>, v: seq<nat>, p: nat) {
    |u| == |v| && forall i :: 0 <= i < |u| && !(p <= i < p + 6) ==> u[i] == v[i]
  }

  lemma SixAreNil(ws: seq<Word>)
    requires |ws| <= 6 && Symbols(ws) && Poly(Nil, ws) == Nil
    ensures ws == Nils(|ws|)
  {
    var n := |ws|;
    NilsHaveNoKernel(Nil, n);
    SixSymbols(ws);
    SixSymbols(Nils(n));
    assert Packed(ws) == Nil[30 - 5 * n..] == Packed(Nils(n));
    PackedIsInjective(ws, Nils(n));
  }

  lemma NilsAround(lo: nat, mid: seq<Word>, n: nat)
    ensures Poly(Nil, Nils(lo) + mid + Nils(n)) == Nil <==> Poly(Nil, mid) == Nil
  {
    PolyConcat(Nil, Nils(lo) + mid, Nils(n));
    PolyConcat(Nil, Nils(lo), mid);
    NilsHaveNoKernel(Nil, lo);
    NilsHaveNoKernel(Poly(Nil, mid), n);
  }

  lemma AllNil(ws: seq<Word>)
    requires forall i :: 0 <= i < |ws| ==> ws[i] == Nil
    ensures ws == Nils(|ws|)
  {
  }

  lemma BurstIsNil(front: seq<Word>, mid: seq<Word>, back: seq<Word>)
    requires front == Nils(|front|) && back == Nils(|back|)
    requires |mid| <= 6 && Symbols(mid) && Poly(Nil, front + mid + back) == Nil
    ensures mid == Nils(|mid|)
  {
    NilsAround(|front|, mid, |back|);
    SixAreNil(mid);
  }

  lemma DifferenceIsNil(chk: Word, us: seq<Word>, vs: seq<Word>)
    requires |us| == |vs|
    ensures Poly(chk, us) == Poly(chk, vs) <==> Poly(Nil, XorAll(us, vs)) == Nil
  {
    PolyLinear(chk, chk, us, vs);
    XorNothing(chk, chk);
    XorNothing(Poly(chk, us), Poly(chk, vs));
  }

  lemma SymbolsAdd(us: seq<Word>, vs: seq<Word>)
    requires |us| == |vs| && Symbols(us) && Symbols(vs)
    ensures Symbols(XorAll(us, vs))
  {
    forall i | 0 <= i < |us| ensures XorAll(us, vs)[i][..25] == Zeros(25) {
      assert Xor(us[i], vs[i])[..25] == Xor(us[i][..25], vs[i][..25]);
    }
  }

  lemma EqualWhereNil(us: seq<Word>, vs: seq<Word>)
    requires |us| == |vs|
    ensures XorAll(us, vs) == Nils(|us|) <==> us == vs
  {
    forall i | 0 <= i < |us| ensures XorAll(us, vs)[i] == Nil <==> us[i] == vs[i] {
      XorNothing(us[i], vs[i]);
    }
    assert XorAll(us, vs) == Nils(|us|) ==> forall i :: 0 <= i < |us| ==> XorAll(us, vs)[i] == Nil;
    if us == vs {
      AllNil(XorAll(us, vs));
    }
  }

  /** No change inside six consecutive symbols leaves the remainder alone,
    * whatever precedes the symbols and however many there are. */
  lemma BurstsChangeTheRemainder(chk: Word, u: seq<nat>, v: seq<nat>, p: nat)
    requires InRange(5, u) && InRange(5, v) && AgreeOutside(u, v, p) && u != v
    ensures Poly(chk, Words(u)) != Poly(chk, Words(v))
  {
    var (lo, hi) := (if p < |u| then p else |u|, if p + 6 < |u| then p + 6 else |u|);
    assert u[..lo] == v[..lo] && u[hi..] == v[hi..];
    assert u == u[..lo] + u[lo..hi] + u[hi..] && v == u[..lo] + v[lo..hi] + u[hi..];
    BurstIn(chk, u[..lo], u[lo..hi], v[lo..hi], u[hi..]);
  }

  lemma BurstIn(chk: Word, front: seq<nat>, u: seq<nat>, v: seq<nat>, back: seq<nat>)
    requires InRange(5, u) && InRange(5, v) && |u| == |v| <= 6 && u != v
    ensures Poly(chk, Words(front + u + back)) != Poly(chk, Words(front + v + back))
  {
    WordsConcat(front, u, back);
    WordsConcat(front, v, back);
    WordsAreSymbols(u);
    WordsAreSymbols(v);
    if Words(u) == Words(v) {
      WordsAreInjective(u, v);
    }
    WordBurst(chk, Words(front), Words(u), Words(v), Words(back));
  }

  lemma WordsConcat(a: seq<nat>, b: seq<nat>, c: seq<nat>)
    ensures Words(a + b + c) == Words(a) + Words(b) + Words(c)
  {
  }

  lemma AddParts(f: seq<Word>, x: seq<Word>, y: seq<Word>, b: seq<Word>)
    requires |x| == |y|
    ensures XorAll(f + x + b, f + y + b) == XorAll(f, f) + XorAll(x, y) + XorAll(b, b)
  {
  }

  lemma WordBurst(chk: Word, f: seq<Word>, x: seq<Word>, y: seq<Word>, b: seq<Word>)
    requires Symbols(x) && Symbols(y) && |x| == |y| <= 6 && x != y
    ensures Poly(chk, f + x + b) != Poly(chk, f + y + b)
  {
    DifferenceIsNil(chk, f + x + b, f + y + b);
    AddParts(f, x, y, b);
    EqualWhereNil(f, f);
    EqualWhereNil(b, b);
    EqualWhereNil(x, y);
    SymbolsAdd(x, y);
    if Poly(chk, f + x + b) == Poly(chk, f + y + b) {
      BurstIsNil(XorAll(f, f), XorAll(x, y), XorAll(b, b));
    }
  }
}
