/** The settlement arithmetic (internal/metatask/v121.go:1671-1692, 1777-1890):
    reviewer accuracy, the split of each verified node's weight between its
    submitter and its reviewers, and the shares they add up to. */
module Settlement {
  import opened ChainEvents
  import opened TreeShape
  import opened Walk

  datatype Vote = Vote(author: string, verdict: Verdict)

  /** A participant's judgements on terminal cycles: how many, and how many right. */
  datatype Stats = Stats(correct: nat, terminal: nat)

  datatype Parts = Parts(submitted: int, reviewed: int)

  type Roll = map<string, Stats>
  type Shares = map<string, Parts>

  /** `votes` are the acting ballots by target. */
  datatype Case = Case(rootAuthor: string, votes: map<string, seq<Vote>>, active: map<string, Cycle>,
                       finalPins: set<string>, sigma: int)

  function VotesOn(k: Case, pin: string): seq<Vote> {
    if pin in k.votes then k.votes[pin] else []
  }

  // ------------------------------------------------------------------
  // Reviewer accuracy
  // ------------------------------------------------------------------

  function Bump(roll: Roll, id: string): Roll {
    if id in roll then roll else roll[id := Stats(0, 0)]
  }

  predicate Right(outcome: Outcome, verdict: Verdict) {
    (verdict.Pass? && outcome.Verified?) || (verdict.Fail? && outcome.FailRejected?)
  }

  /** One ballot on a resolved cycle; the submitter's and the task author's own do not bear on accuracy. */
  function Judge(k: Case, roll: Roll, cycle: Cycle, v: Vote): Roll {
    var r := Bump(roll, v.author);
    if v.author == cycle.effective.author || v.author == k.rootAuthor then r
    else
      var s := r[v.author];
      r[v.author := Stats(s.correct + if Right(cycle.outcome, v.verdict) then 1 else 0, s.terminal + 1)]
  }

  function JudgeAll(k: Case, roll: Roll, cycle: Cycle, votes: seq<Vote>): Roll {
    if votes == [] then roll
    else Judge(k, JudgeAll(k, roll, cycle, votes[..|votes| - 1]), cycle, votes[|votes| - 1])
  }

  function Review(k: Case, roll: Roll, cycles: seq<Cycle>): Roll {
    if cycles == [] then roll
    else
      var before, cycle := Review(k, roll, cycles[..|cycles| - 1]), cycles[|cycles| - 1];
      if cycle.outcome.Open? then before
      else JudgeAll(k, before, cycle, VotesOn(k, cycle.effective.pin))
  }

  method ReviewCycles(k: Case, roll: Roll, cycles: seq<Cycle>) returns (r: Roll)
    ensures r == Review(k, roll, cycles)
  {
    r := roll;
    for i := 0 to |cycles|
      invariant r == Review(k, roll, cycles[..i])
    {
      var cycle := cycles[i];
      assert cycles[..i + 1][..i] == cycles[..i];
      if !cycle.outcome.Open? {
        var votes := VotesOn(k, cycle.effective.pin);
        ghost var before := r;
        for j := 0 to |votes|
          invariant r == JudgeAll(k, before, cycle, votes[..j])
        {
          assert votes[..j + 1][..j] == votes[..j];
          r := Judge(k, r, cycle, votes[j]);
        }
        assert votes[..|votes|] == votes;
      }
    }
    assert cycles[..|cycles|] == cycles;
  }

  const ACCURACY_FLOOR := 2500

  /** Laplace-smoothed accuracy in basis points, never below the floor. */
  function Accuracy(s: Stats): int {
    var smoothed := (10000 * (s.correct + 1)) / (s.terminal + 2);
    var a := if smoothed < ACCURACY_FLOOR then ACCURACY_FLOOR else smoothed;
    if a > 10000 then 10000 else a
  }

  ghost predicate Honest(roll: Roll) {
    forall id | id in roll :: roll[id].correct <= roll[id].terminal
  }

  lemma {:induction false} JudgeAllKeeps(k: Case, roll: Roll, cycle: Cycle, votes: seq<Vote>)
    requires Honest(roll)
    ensures Honest(JudgeAll(k, roll, cycle, votes))
    ensures roll.Keys <= JudgeAll(k, roll, cycle, votes).Keys
    ensures forall v | v in votes :: v.author in JudgeAll(k, roll, cycle, votes)
  {
    if votes != [] {
      var n := |votes| - 1;
      JudgeAllKeeps(k, roll, cycle, votes[..n]);
      assert votes == votes[..n] + [votes[n]];
    }
  }

  /** Reviewing enrolls every voter of every resolved cycle, and nobody is ever
      right more often than they judged. */
  lemma {:induction false} ReviewKeeps(k: Case, roll: Roll, cycles: seq<Cycle>)
    requires Honest(roll)
    ensures Honest(Review(k, roll, cycles)) && roll.Keys <= Review(k, roll, cycles).Keys
    ensures forall c, v | c in cycles && !c.outcome.Open? && v in VotesOn(k, c.effective.pin) ::
              v.author in Review(k, roll, cycles)
  {
    if cycles != [] {
      var n := |cycles| - 1;
      ReviewKeeps(k, roll, cycles[..n]);
      assert cycles == cycles[..n] + [cycles[n]];
      JudgeAllKeeps(k, Review(k, roll, cycles[..n]), cycles[n], VotesOn(k, cycles[n].effective.pin));
    }
  }

  /** Accuracy lies between the floor and 10000; the upper clamp never binds. */
  lemma AccuracyBounds(s: Stats)
    requires s.correct <= s.terminal
    ensures ACCURACY_FLOOR <= Accuracy(s) < 10000
  {
    var d := s.terminal + 2;
    assert 10000 * (s.correct + 1) <= 10000 * (d - 1);
    DivBelow(10000 * (s.correct + 1), d, 10000);
  }

  lemma DivBelow(x: int, d: int, q: int)
    requires d > 0 && 0 <= x < q * d
    ensures x / d < q
  {
    assert x == (x / d) * d + x % d;
    MulCancel(x / d, q, d);
  }

  lemma MulMono(a: int, b: int, c: int)
    requires a <= b && c >= 0
    ensures a * c <= b * c
  {
  }

  lemma MulCancel(a: int, b: int, c: int)
    requires a * c < b * c && c > 0
    ensures a < b
  {
    if a >= b {
      MulMono(b, a, c);
    }
  }

  // ------------------------------------------------------------------
  // Splitting one node's weight
  // ------------------------------------------------------------------

  function SumOf(xs: seq<int>): int {
    if xs == [] then 0 else SumOf(xs[..|xs| - 1]) + xs[|xs| - 1]
  }

  /** Each reviewer's part of the pool, the residue discarded. */
  function Cuts(pool: int, accs: seq<int>, total: int): seq<int>
    requires total > 0
  {
    seq(|accs|, i requires 0 <= i < |accs| => pool * accs[i] / total)
  }

  lemma RoundingLoss(pool: int, total: int, k: int, sum: int)
    requires total > 0 && pool * total - k * (total - 1) <= sum * total <= pool * total && k >= 1
    ensures pool - (k - 1) <= sum <= pool
  {
    assert (pool + 1) * total == pool * total + total;
    MulCancel(sum, pool + 1, total);
    assert k * (total - 1) == k * total - k;
    assert (pool - k) * total == pool * total - k * total;
    MulCancel(pool - k, sum, total);
  }

  /** One more cut: the scaled sum grows by its exact part less a remainder below `total`. */
  lemma ScaledStep(pool: int, total: int, k: int, accs: int, a: int, sum: int)
    requires total > 0 && pool * accs - k * (total - 1) <= sum * total <= pool * accs
    ensures var cut := pool * a / total;
            pool * (accs + a) - (k + 1) * (total - 1) <= (sum + cut) * total <= pool * (accs + a)
  {
    var x := pool * a;
    var cut := x / total;
    assert x == cut * total + x % total;
    assert (sum + cut) * total == sum * total + cut * total;
    assert pool * (accs + a) == pool * accs + x;
    assert (k + 1) * (total - 1) == k * (total - 1) + (total - 1);
  }

  lemma {:induction false} CutsScaled(pool: int, accs: seq<int>, total: int, n: nat)
    requires total > 0 && n <= |accs|
    ensures pool * SumOf(accs[..n]) - n * (total - 1)
         <= SumOf(Cuts(pool, accs, total)[..n]) * total
         <= pool * SumOf(accs[..n])
  {
    if n > 0 {
      var cuts := Cuts(pool, accs, total);
      CutsScaled(pool, accs, total, n - 1);
      assert cuts[..n][..n - 1] == cuts[..n - 1] && accs[..n][..n - 1] == accs[..n - 1];
      ScaledStep(pool, total, n - 1, SumOf(accs[..n - 1]), accs[n - 1], SumOf(cuts[..n - 1]));
    }
  }

  /** Rounding down k cuts loses at most k - 1, and never gives too much. */
  lemma CutsBounds(pool: int, accs: seq<int>)
    requires accs != [] && SumOf(accs) > 0
    ensures pool - (|accs| - 1) <= SumOf(Cuts(pool, accs, SumOf(accs))) <= pool
  {
    var total := SumOf(accs);
    CutsScaled(pool, accs, total, |accs|);
    assert accs[..|accs|] == accs && Cuts(pool, accs, total)[..|accs|] == Cuts(pool, accs, total);
    RoundingLoss(pool, total, |accs|, SumOf(Cuts(pool, accs, total)));
  }

  // ------------------------------------------------------------------
  // Shares
  // ------------------------------------------------------------------

  const SIGMA_DEFAULT := 8000
  const SIGMA_MIN := 6000
  const SIGMA_MAX := 9000

  /** The submitter's part in basis points: the policy's, kept within bounds. */
  function ClampSigma(declared: Option<int>): (sigma: int)
    ensures SIGMA_MIN <= sigma <= SIGMA_MAX
  {
    var s := if declared.Some? then declared.value else SIGMA_DEFAULT;
    var upper := if s > SIGMA_MAX then SIGMA_MAX else s;
    if upper < SIGMA_MIN then SIGMA_MIN else upper
  }

  function Entry(s: Shares, id: string): Parts {
    if id in s then s[id] else Parts(0, 0)
  }

  function Submit(s: Shares, id: string, bp: int): Shares {
    s[id := Parts(Entry(s, id).submitted + bp, Entry(s, id).reviewed)]
  }

  function ReviewPay(s: Shares, id: string, bp: int): Shares {
    s[id := Parts(Entry(s, id).submitted, Entry(s, id).reviewed + bp)]
  }

  /** The passing ballots of independent reviewers. */
  function Counted(k: Case, cycle: Cycle, votes: seq<Vote>): seq<Vote> {
    if votes == [] then []
    else
      var v := votes[|votes| - 1];
      Counted(k, cycle, votes[..|votes| - 1])
        + if v.verdict.Pass? && v.author != cycle.effective.author && v.author != k.rootAuthor then [v] else []
  }

  function Accs(roll: Roll, votes: seq<Vote>): seq<int> {
    seq(|votes|, i requires 0 <= i < |votes| => if votes[i].author in roll then Accuracy(roll[votes[i].author]) else 0)
  }

  function PayReviewers(s: Shares, votes: seq<Vote>, cuts: seq<int>): Shares
    requires |votes| == |cuts|
  {
    if votes == [] then s
    else
      var n := |votes| - 1;
      ReviewPay(PayReviewers(s, votes[..n], cuts[..n]), votes[n].author, cuts[n])
  }

  /** The node's current cycle anchors a finally verified submission. */
  predicate Paid(k: Case, node: string) {
    node in k.active && k.active[node].effective.pin in k.finalPins
  }

  /** Every counted reviewer of a paid node has an accuracy, so no divisor is zero. */
  ghost predicate Enrolled(k: Case, roll: Roll) {
    && Honest(roll)
    && forall node, v | Paid(k, node) && v in VotesOn(k, k.active[node].effective.pin) :: v.author in roll
  }

  lemma {:induction false} CountedAre(k: Case, cycle: Cycle, votes: seq<Vote>)
    ensures forall v | v in Counted(k, cycle, votes) ::
      v in votes && v.verdict.Pass? && v.author != cycle.effective.author && v.author != k.rootAuthor
  {
    if votes != [] {
      CountedAre(k, cycle, votes[..|votes| - 1]);
    }
  }

  lemma {:induction false} PositiveSum(xs: seq<int>, least: int)
    requires least >= 0 && forall i | 0 <= i < |xs| :: xs[i] >= least
    ensures SumOf(xs) >= least * |xs|
  {
    if xs != [] {
      PositiveSum(xs[..|xs| - 1], least);
      assert least * |xs| == least * (|xs| - 1) + least;
    }
  }

  /** The accuracies a pool is divided by. */
  lemma DivisorPositive(k: Case, roll: Roll, node: string)
    requires Enrolled(k, roll) && Paid(k, node)
    ensures var votes := Counted(k, k.active[node], VotesOn(k, k.active[node].effective.pin));
            var accs := Accs(roll, votes);
            && (forall i | 0 <= i < |accs| :: ACCURACY_FLOOR <= accs[i] < 10000)
            && (votes != [] ==> SumOf(accs) > 0)
  {
    var cycle := k.active[node];
    var votes := Counted(k, cycle, VotesOn(k, cycle.effective.pin));
    CountedAre(k, cycle, VotesOn(k, cycle.effective.pin));
    var accs := Accs(roll, votes);
    forall i | 0 <= i < |accs|
      ensures ACCURACY_FLOOR <= accs[i] < 10000
    {
      assert votes[i] in votes;
      AccuracyBounds(roll[votes[i].author]);
    }
    PositiveSum(accs, ACCURACY_FLOOR);
  }

  /** The shares after one node of weight `w` is settled. */
  ghost function PayNode(k: Case, roll: Roll, s: Shares, node: string, w: int): Shares
    requires Enrolled(k, roll)
  {
    if !Paid(k, node) || w <= 0 then s
    else
      var cycle := k.active[node];
      var sub := w * k.sigma / TREE_TOTAL;
      var votes := Counted(k, cycle, VotesOn(k, cycle.effective.pin));
      if votes == [] then Submit(Submit(s, cycle.effective.author, sub), cycle.effective.author, w - sub)
      else
        DivisorPositive(k, roll, node);
        var accs := Accs(roll, votes);
        PayReviewers(Submit(s, cycle.effective.author, sub), votes, Cuts(w - sub, accs, SumOf(accs)))
  }

  const TREE_TOTAL := 10000

  // What the shares add up to.

  ghost function SumIn(s: Shares, ids: set<string>): int
    requires ids <= s.Keys
  {
    if ids == {} then 0
    else
      var id :| id in ids;
      s[id].submitted + s[id].reviewed + SumIn(s, ids - {id})
  }

  lemma {:induction false} SumInFrom(s: Shares, ids: set<string>, id: string)
    requires ids <= s.Keys && id in ids
    ensures SumIn(s, ids) == s[id].submitted + s[id].reviewed + SumIn(s, ids - {id})
    decreases ids
  {
    var first :| first in ids && SumIn(s, ids) == s[first].submitted + s[first].reviewed + SumIn(s, ids - {first});
    if first != id {
      SumInFrom(s, ids - {first}, id);
      SumInFrom(s, ids - {id}, first);
      assert ids - {first} - {id} == ids - {id} - {first};
    }
  }

  lemma {:induction false} SumInSame(s: Shares, t: Shares, ids: set<string>)
    requires ids <= s.Keys && ids <= t.Keys && forall id | id in ids :: s[id] == t[id]
    ensures SumIn(s, ids) == SumIn(t, ids)
    decreases ids
  {
    if ids != {} {
      var id :| id in ids;
      SumInFrom(s, ids, id);
      SumInFrom(t, ids, id);
      SumInSame(s, t, ids - {id});
    }
  }

  /** The basis points of all shares. */
  ghost function Total(s: Shares): int {
    SumIn(s, s.Keys)
  }

  lemma TotalPut(s: Shares, id: string, p: Parts)
    ensures Total(s[id := p]) == Total(s) - Entry(s, id).submitted - Entry(s, id).reviewed + p.submitted + p.reviewed
  {
    var t := s[id := p];
    SumInFrom(t, t.Keys, id);
    SumInSame(s, t, t.Keys - {id});
    if id in s {
      SumInFrom(s, s.Keys, id);
      assert t.Keys == s.Keys;
    } else {
      assert t.Keys - {id} == s.Keys;
    }
  }

  lemma {:induction false} TotalPayReviewers(s: Shares, votes: seq<Vote>, cuts: seq<int>)
    requires |votes| == |cuts|
    ensures Total(PayReviewers(s, votes, cuts)) == Total(s) + SumOf(cuts)
  {
    if votes != [] {
      var n := |votes| - 1;
      TotalPayReviewers(s, votes[..n], cuts[..n]);
      var before := PayReviewers(s, votes[..n], cuts[..n]);
      TotalPut(before, votes[n].author, Parts(Entry(before, votes[n].author).submitted, Entry(before, votes[n].author).reviewed + cuts[n]));
    }
  }

  lemma TotalSubmit(s: Shares, id: string, bp: int)
    ensures Total(Submit(s, id, bp)) == Total(s) + bp
  {
    TotalPut(s, id, Parts(Entry(s, id).submitted + bp, Entry(s, id).reviewed));
  }

  /** A paid node of weight w with k counted reviewers pays out between w - (k - 1)
      and w, and exactly w when there is none; any other node pays nothing. */
  lemma NodePayout(k: Case, roll: Roll, s: Shares, node: string, w: int)
    requires Enrolled(k, roll) && SIGMA_MIN <= k.sigma <= SIGMA_MAX
    ensures var paid := Total(PayNode(k, roll, s, node, w)) - Total(s);
            if !Paid(k, node) || w <= 0 then paid == 0
            else
              var n := |Counted(k, k.active[node], VotesOn(k, k.active[node].effective.pin))|;
              if n == 0 then paid == w else w - (n - 1) <= paid <= w
  {
    if Paid(k, node) && w > 0 {
      var cycle := k.active[node];
      var sub := w * k.sigma / TREE_TOTAL;
      var votes := Counted(k, cycle, VotesOn(k, cycle.effective.pin));
      TotalSubmit(s, cycle.effective.author, sub);
      TotalSubmit(Submit(s, cycle.effective.author, sub), cycle.effective.author, w - sub);
      if votes != [] {
        DivisorPositive(k, roll, node);
        var accs := Accs(roll, votes);
        SubmitterWithinWeight(w, k.sigma);
        CutsBounds(w - sub, accs);
        TotalPayReviewers(Submit(s, cycle.effective.author, sub), votes, Cuts(w - sub, accs, SumOf(accs)));
      }
    }
  }

  lemma SubmitterWithinWeight(w: int, sigma: int)
    requires w > 0 && SIGMA_MIN <= sigma <= SIGMA_MAX
    ensures 0 <= w * sigma / TREE_TOTAL <= w
  {
    assert 0 <= w * sigma <= w * 9000;
  }

  // ------------------------------------------------------------------
  // Both weight modes
  // ------------------------------------------------------------------

  /** The effective tree covers the projected nodes and its weights are complete. */
  ghost predicate Weighted(nodes: seq<string>, tree: Tree) {
    |nodes| > 0 && |tree| == |nodes| && TotalWeight(tree) == TREE_TOTAL
  }

  /** The node's tree weight, or in a legacy task the uniform one with its residue dropped. */
  ghost function WeightFor(nodes: seq<string>, tree: Tree, node: string): int {
    if Weighted(nodes, tree) then (if node in tree then WeightOf(tree[node]).value else 0)
    else if |nodes| > 0 then TREE_TOTAL / |nodes|
    else 0
  }

  ghost function PayAll(k: Case, roll: Roll, order: seq<string>, tree: Tree, n: nat): Shares
    requires Enrolled(k, roll) && n <= |order|
  {
    if n == 0 then map[]
    else PayNode(k, roll, PayAll(k, roll, order, tree, n - 1), order[n - 1], WeightFor(order, tree, order[n - 1]))
  }

  /** The weight of the paid nodes among the first n. */
  ghost function PaidWeight(k: Case, order: seq<string>, tree: Tree, n: nat): int
    requires n <= |order|
  {
    if n == 0 then 0
    else
      PaidWeight(k, order, tree, n - 1)
        + if Paid(k, order[n - 1]) then WeightFor(order, tree, order[n - 1]) else 0
  }

  /** The most that rounding can discard on the first n nodes. */
  ghost function Residue(k: Case, order: seq<string>, n: nat): int
    requires n <= |order|
  {
    if n == 0 then 0
    else
      Residue(k, order, n - 1)
        + if Paid(k, order[n - 1]) then LostOn(|Counted(k, k.active[order[n - 1]], VotesOn(k, k.active[order[n - 1]].effective.pin))|)
          else 0
  }

  function LostOn(reviewers: nat): nat {
    if reviewers == 0 then 0 else reviewers - 1
  }

  lemma WeightNotNegative(nodes: seq<string>, tree: Tree, node: string)
    ensures WeightFor(nodes, tree, node) >= 0
  {
  }

  /** The shares account for the paid weight but for the rounding residue. */
  lemma {:induction false} SharesAccountForWeight(k: Case, roll: Roll, order: seq<string>, tree: Tree, n: nat)
    requires Enrolled(k, roll) && SIGMA_MIN <= k.sigma <= SIGMA_MAX && n <= |order|
    ensures PaidWeight(k, order, tree, n) - Residue(k, order, n)
         <= Total(PayAll(k, roll, order, tree, n))
         <= PaidWeight(k, order, tree, n)
  {
    if n > 0 {
      SharesAccountForWeight(k, roll, order, tree, n - 1);
      WeightNotNegative(order, tree, order[n - 1]);
      NodePayout(k, roll, PayAll(k, roll, order, tree, n - 1), order[n - 1], WeightFor(order, tree, order[n - 1]));
    }
  }

  ghost function SumFirst(order: seq<string>, tree: Tree, n: nat): int
    requires n <= |order|
  {
    if n == 0 then 0 else SumFirst(order, tree, n - 1) + WeightFor(order, tree, order[n - 1])
  }

  lemma {:induction false} PaidWithinAll(k: Case, order: seq<string>, tree: Tree, n: nat)
    requires n <= |order|
    ensures PaidWeight(k, order, tree, n) <= SumFirst(order, tree, n)
  {
    if n > 0 {
      PaidWithinAll(k, order, tree, n - 1);
      WeightNotNegative(order, tree, order[n - 1]);
    }
  }

  lemma {:induction false} UniformSum(order: seq<string>, tree: Tree, n: nat)
    requires !Weighted(order, tree) && n <= |order| && |order| > 0
    ensures SumFirst(order, tree, n) == n * (TREE_TOTAL / |order|)
  {
    if n > 0 {
      UniformSum(order, tree, n - 1);
      assert n * (TREE_TOTAL / |order|) == (n - 1) * (TREE_TOTAL / |order|) + TREE_TOTAL / |order|;
    }
  }

  function InTree(order: seq<string>, tree: Tree, n: nat): set<string>
    requires n <= |order|
  {
    set i | 0 <= i < n && order[i] in tree :: order[i]
  }

  lemma OneMoreInTree(order: seq<string>, tree: Tree, n: nat)
    requires n < |order| && Distinct(order)
    ensures order[n] !in InTree(order, tree, n)
    ensures InTree(order, tree, n + 1) == if order[n] in tree then InTree(order, tree, n) + {order[n]} else InTree(order, tree, n)
  {
  }

  lemma {:induction false} WeightedSum(order: seq<string>, tree: Tree, n: nat)
    requires Weighted(order, tree) && Distinct(order) && n <= |order|
    ensures SumFirst(order, tree, n) == SumOver(tree, InTree(order, tree, n))
  {
    if n > 0 {
      WeightedSum(order, tree, n - 1);
      OneMoreInTree(order, tree, n - 1);
      var id, before, all := order[n - 1], InTree(order, tree, n - 1), InTree(order, tree, n);
      if id in tree {
        assert all - {id} == before;
        SumFromAny(tree, all, id);
      }
    }
  }

  lemma {:induction false} SumOverGrows(tree: Tree, ids: set<string>, all: set<string>)
    requires ids <= all <= tree.Keys && AllWeighted(tree, all)
    ensures SumOver(tree, ids) <= SumOver(tree, all)
    decreases all - ids
  {
    if ids != all {
      assert all == ids + (all - ids);
      var id :| id in all - ids;
      SumOverGrows(tree, ids + {id}, all);
      SumFromAny(tree, ids + {id}, id);
      assert ids + {id} - {id} == ids;
    }
  }

  /** In both weight modes the shares total at most 10000. */
  lemma SharesAtMostWhole(k: Case, roll: Roll, order: seq<string>, tree: Tree)
    requires Enrolled(k, roll) && SIGMA_MIN <= k.sigma <= SIGMA_MAX && Distinct(order)
    ensures Total(PayAll(k, roll, order, tree, |order|)) <= TREE_TOTAL
  {
    SharesAccountForWeight(k, roll, order, tree, |order|);
    PaidWithinAll(k, order, tree, |order|);
    if Weighted(order, tree) {
      WeightedSum(order, tree, |order|);
      SumOverGrows(tree, InTree(order, tree, |order|), tree.Keys);
    } else if |order| > 0 {
      UniformSum(order, tree, |order|);
    }
  }

  // Nobody owes anything.

  ghost predicate NoDebt(s: Shares) {
    forall id | id in s :: s[id].submitted >= 0 && s[id].reviewed >= 0
  }

  lemma {:induction false} ReviewersOweNothing(s: Shares, votes: seq<Vote>, cuts: seq<int>)
    requires NoDebt(s) && |votes| == |cuts| && forall i | 0 <= i < |cuts| :: cuts[i] >= 0
    ensures NoDebt(PayReviewers(s, votes, cuts))
  {
    if votes != [] {
      ReviewersOweNothing(s, votes[..|votes| - 1], cuts[..|votes| - 1]);
    }
  }

  lemma SubmitterOwesNothing(s: Shares, id: string, bp: int)
    requires NoDebt(s) && bp >= 0
    ensures NoDebt(Submit(s, id, bp))
  {
  }

  lemma NodeOwesNothing(k: Case, roll: Roll, s: Shares, node: string, w: int)
    requires Enrolled(k, roll) && SIGMA_MIN <= k.sigma <= SIGMA_MAX && NoDebt(s)
    ensures NoDebt(PayNode(k, roll, s, node, w))
  {
    if Paid(k, node) && w > 0 {
      var cycle := k.active[node];
      var author, sub := cycle.effective.author, w * k.sigma / TREE_TOTAL;
      var votes := Counted(k, cycle, VotesOn(k, cycle.effective.pin));
      SubmitterWithinWeight(w, k.sigma);
      SubmitterOwesNothing(s, author, sub);
      if votes == [] {
        SubmitterOwesNothing(Submit(s, author, sub), author, w - sub);
      } else {
        DivisorPositive(k, roll, node);
        var accs := Accs(roll, votes);
        NonNegativeCuts(w - sub, accs, SumOf(accs));
        ReviewersOweNothing(Submit(s, author, sub), votes, Cuts(w - sub, accs, SumOf(accs)));
      }
    }
  }

  lemma NonNegativeCuts(pool: int, accs: seq<int>, total: int)
    requires pool >= 0 && total > 0 && forall i | 0 <= i < |accs| :: accs[i] >= 0
    ensures var cuts := Cuts(pool, accs, total); forall i | 0 <= i < |cuts| :: cuts[i] >= 0
  {
    var cuts := Cuts(pool, accs, total);
    forall i | 0 <= i < |cuts|
      ensures cuts[i] >= 0
    {
      MulMono(0, pool, accs[i]);
    }
  }

  lemma {:induction false} SharesOweNothing(k: Case, roll: Roll, order: seq<string>, tree: Tree, n: nat)
    requires Enrolled(k, roll) && SIGMA_MIN <= k.sigma <= SIGMA_MAX && n <= |order|
    ensures NoDebt(PayAll(k, roll, order, tree, n))
  {
    if n > 0 {
      SharesOweNothing(k, roll, order, tree, n - 1);
      NodeOwesNothing(k, roll, PayAll(k, roll, order, tree, n - 1), order[n - 1], WeightFor(order, tree, order[n - 1]));
    }
  }

  // The order of the nodes plays no part.

  /** Two books of shares, added up entry by entry. */
  function Plus(s: Shares, t: Shares): Shares {
    map id | id in s.Keys + t.Keys ::
      Parts(Entry(s, id).submitted + Entry(t, id).submitted, Entry(s, id).reviewed + Entry(t, id).reviewed)
  }

  lemma EntryOfPlus(s: Shares, t: Shares, id: string)
    ensures Entry(Plus(s, t), id) ==
            Parts(Entry(s, id).submitted + Entry(t, id).submitted, Entry(s, id).reviewed + Entry(t, id).reviewed)
  {
  }

  lemma PlusSwaps(s: Shares, t: Shares, u: Shares)
    ensures Plus(Plus(s, t), u) == Plus(Plus(s, u), t)
  {
    var x, y := Plus(Plus(s, t), u), Plus(Plus(s, u), t);
    assert x.Keys == s.Keys + t.Keys + u.Keys == y.Keys;
    forall id | id in x
      ensures x[id] == y[id]
    {
      SwappedEntry(s, t, u, id);
    }
  }

  lemma SwappedEntry(s: Shares, t: Shares, u: Shares, id: string)
    ensures Entry(Plus(Plus(s, t), u), id) == Entry(Plus(Plus(s, u), t), id)
  {
    EntryOfPlus(s, t, id);
    EntryOfPlus(s, u, id);
    EntryOfPlus(Plus(s, t), u, id);
    EntryOfPlus(Plus(s, u), t, id);
  }

  lemma PlusNothing(s: Shares)
    ensures Plus(s, map[]) == s
  {
  }

  lemma SubmitAdds(s: Shares, t: Shares, id: string, bp: int)
    ensures Submit(Plus(s, t), id, bp) == Plus(s, Submit(t, id, bp))
  {
  }

  lemma ReviewPayAdds(s: Shares, t: Shares, id: string, bp: int)
    ensures ReviewPay(Plus(s, t), id, bp) == Plus(s, ReviewPay(t, id, bp))
  {
  }

  lemma {:induction false} PayReviewersAdds(s: Shares, t: Shares, votes: seq<Vote>, cuts: seq<int>)
    requires |votes| == |cuts|
    ensures PayReviewers(Plus(s, t), votes, cuts) == Plus(s, PayReviewers(t, votes, cuts))
  {
    if votes != [] {
      var n := |votes| - 1;
      PayReviewersAdds(s, t, votes[..n], cuts[..n]);
      ReviewPayAdds(s, PayReviewers(t, votes[..n], cuts[..n]), votes[n].author, cuts[n]);
    }
  }

  lemma SubmittedAdds(s: Shares, id: string, x: int, y: int)
    ensures Submit(s, id, x) == Plus(s, Submit(map[], id, x))
    ensures Submit(Submit(s, id, x), id, y) == Plus(s, Submit(Submit(map[], id, x), id, y))
  {
    PlusNothing(s);
    SubmitAdds(s, map[], id, x);
    SubmitAdds(s, Submit(map[], id, x), id, y);
  }

  /** What one node pays on its own. */
  ghost function Gain(k: Case, roll: Roll, node: string, w: int): Shares
    requires Enrolled(k, roll)
  {
    PayNode(k, roll, map[], node, w)
  }

  /** A submitter's part and the reviewers' cuts, or both parts to the submitter. */
  function PayParts(s: Shares, author: string, sub: int, pool: int, votes: seq<Vote>, cuts: seq<int>): Shares
    requires |votes| == |cuts|
  {
    if votes == [] then Submit(Submit(s, author, sub), author, pool)
    else PayReviewers(Submit(s, author, sub), votes, cuts)
  }

  lemma PartsAdd(s: Shares, author: string, sub: int, pool: int, votes: seq<Vote>, cuts: seq<int>)
    requires |votes| == |cuts|
    ensures PayParts(s, author, sub, pool, votes, cuts) == Plus(s, PayParts(map[], author, sub, pool, votes, cuts))
  {
    SubmittedAdds(s, author, sub, pool);
    PayReviewersAdds(s, Submit(map[], author, sub), votes, cuts);
  }

  lemma NodeParts(k: Case, roll: Roll, s: Shares, node: string, w: int, votes: seq<Vote>, cuts: seq<int>)
    requires Enrolled(k, roll) && Paid(k, node) && w > 0
    requires votes == Counted(k, k.active[node], VotesOn(k, k.active[node].effective.pin)) && |votes| == |cuts|
    requires votes != [] ==>
      var accs := Accs(roll, votes); SumOf(accs) > 0 && cuts == Cuts(w - w * k.sigma / TREE_TOTAL, accs, SumOf(accs))
    ensures PayNode(k, roll, s, node, w) ==
            PayParts(s, k.active[node].effective.author, w * k.sigma / TREE_TOTAL, w - w * k.sigma / TREE_TOTAL, votes, cuts)
  {
  }

  lemma NodeAdds(k: Case, roll: Roll, s: Shares, node: string, w: int)
    requires Enrolled(k, roll)
    ensures PayNode(k, roll, s, node, w) == Plus(s, Gain(k, roll, node, w))
  {
    if Paid(k, node) && w > 0 {
      var votes := Counted(k, k.active[node], VotesOn(k, k.active[node].effective.pin));
      var sub, accs := w * k.sigma / TREE_TOTAL, Accs(roll, votes);
      DivisorPositive(k, roll, node);
      var cuts := if votes == [] then [] else Cuts(w - sub, accs, SumOf(accs));
      NodeParts(k, roll, s, node, w, votes, cuts);
      NodeParts(k, roll, map[], node, w, votes, cuts);
      PartsAdd(s, k.active[node].effective.author, sub, w - sub, votes, cuts);
    } else {
      PlusNothing(s);
    }
  }

  /** Each node's gain, at its weight among `nodes`. */
  ghost function GainOf(k: Case, roll: Roll, nodes: seq<string>, tree: Tree): string -> Shares {
    node => if Enrolled(k, roll) then Gain(k, roll, node, WeightFor(nodes, tree, node)) else map[]
  }

  const Adding: (Shares, Shares) -> Shares := (s, t) => Plus(s, t)

  lemma {:induction false} PayAllIsSum(k: Case, roll: Roll, order: seq<string>, tree: Tree, n: nat)
    requires Enrolled(k, roll) && n <= |order|
    ensures PayAll(k, roll, order, tree, n) == Folded(Adding, map[], GainOf(k, roll, order, tree), order[..n])
  {
    if n > 0 {
      PayAllIsSum(k, roll, order, tree, n - 1);
      assert order[..n][..n - 1] == order[..n - 1];
      NodeAdds(k, roll, PayAll(k, roll, order, tree, n - 1), order[n - 1], WeightFor(order, tree, order[n - 1]));
    }
  }

  lemma AddingSwaps()
    ensures Swaps(Adding)
  {
    forall s: Shares, t: Shares, u: Shares
      ensures Adding(Adding(s, t), u) == Adding(Adding(s, u), t)
    {
      PlusSwaps(s, t, u);
    }
  }

  /** Any two listings of the same nodes, each of them once, settle alike. */
  lemma ListingDoesNotMatter(k: Case, roll: Roll, a: seq<string>, b: seq<string>, tree: Tree)
    requires Enrolled(k, roll) && SameNodes(a, b)
    ensures PayAll(k, roll, a, tree, |a|) == PayAll(k, roll, b, tree, |b|)
  {
    PayAllIsSum(k, roll, a, tree, |a|);
    PayAllIsSum(k, roll, b, tree, |b|);
    assert a[..|a|] == a && b[..|b|] == b;
    AddingSwaps();
    var none: Shares := map[];
    FoldsAlike(Adding, none, GainOf(k, roll, a, tree), a, b);
    SameGains(k, roll, a, b, tree);
    FoldsPointwise(Adding, none, GainOf(k, roll, a, tree), GainOf(k, roll, b, tree), b);
  }

  lemma SameGains(k: Case, roll: Roll, a: seq<string>, b: seq<string>, tree: Tree)
    requires |a| == |b|
    ensures forall node :: GainOf(k, roll, a, tree)(node) == GainOf(k, roll, b, tree)(node)
  {
    forall node
      ensures GainOf(k, roll, a, tree)(node) == GainOf(k, roll, b, tree)(node)
    {
      assert WeightFor(a, tree, node) == WeightFor(b, tree, node);
    }
  }

  // Folding an operation that may swap its arguments' turns.

  ghost predicate Swaps<T(!new)>(plus: (T, T) -> T) {
    forall s: T, t: T, u: T :: plus(plus(s, t), u) == plus(plus(s, u), t)
  }

  ghost function Folded<T>(plus: (T, T) -> T, zero: T, gain: string -> T, order: seq<string>): T {
    if order == [] then zero
    else plus(Folded(plus, zero, gain, order[..|order| - 1]), gain(order[|order| - 1]))
  }

  lemma RestOf(order: seq<string>, i: nat, n: nat)
    requires i < n && n + 1 == |order|
    ensures var rest := order[..i] + order[i + 1..];
            |rest| == n && rest[..n - 1] == order[..n][..i] + order[..n][i + 1..] && rest[n - 1] == order[n]
  {
  }

  lemma {:induction false} TakeOut<T(!new)>(plus: (T, T) -> T, zero: T, gain: string -> T, order: seq<string>, i: nat)
    requires Swaps(plus) && i < |order|
    ensures Folded(plus, zero, gain, order) == plus(Folded(plus, zero, gain, order[..i] + order[i + 1..]), gain(order[i]))
  {
    var n := |order| - 1;
    if i == n {
      assert order[..i] + order[i + 1..] == order[..n];
    } else {
      TakeOut(plus, zero, gain, order[..n], i);
      RestOf(order, i, n);
    }
  }

  ghost predicate SameNodes(a: seq<string>, b: seq<string>) {
    Distinct(a) && Distinct(b) && forall x :: x in a <==> x in b
  }

  lemma WithoutOne(a: seq<string>, i: nat, b: seq<string>)
    requires SameNodes(a, b) && i < |a| && b != [] && a[i] == b[|b| - 1]
    ensures SameNodes(a[..i] + a[i + 1..], b[..|b| - 1])
  {
    var rest, front, x := a[..i] + a[i + 1..], b[..|b| - 1], a[i];
    assert b == front + [x];
    PoppedIsNew(front, x);
    assert forall j :: 0 <= j < |rest| ==> rest[j] == if j < i then a[j] else a[j + 1];
    forall y
      ensures y in rest <==> y in front
    {
      assert a == a[..i] + [x] + a[i + 1..];
      assert x !in rest;
      assert y in a <==> y == x || y in rest;
      assert y in b <==> y == x || y in front;
    }
  }

  lemma {:induction false} FoldsAlike<T(!new)>(plus: (T, T) -> T, zero: T, gain: string -> T, a: seq<string>, b: seq<string>)
    requires Swaps(plus) && SameNodes(a, b)
    ensures Folded(plus, zero, gain, a) == Folded(plus, zero, gain, b) && |a| == |b|
    decreases |b|
  {
    if b == [] {
      assert forall j :: 0 <= j < |a| ==> a[j] in a;
    } else {
      var n := |b| - 1;
      assert b[n] in b;
      var i: nat :| i < |a| && a[i] == b[n];
      WithoutOne(a, i, b);
      FoldsAlike(plus, zero, gain, a[..i] + a[i + 1..], b[..n]);
      TakeOut(plus, zero, gain, a, i);
    }
  }

  lemma {:induction false} FoldsPointwise<T>(plus: (T, T) -> T, zero: T, gain: string -> T, other: string -> T, order: seq<string>)
    requires forall node :: gain(node) == other(node)
    ensures Folded(plus, zero, gain, order) == Folded(plus, zero, other, order)
  {
    if order != [] {
      FoldsPointwise(plus, zero, gain, other, order[..|order| - 1]);
    }
  }

  /** When every paid pin is the effective submission of a verified cycle the review
      has judged, every counted reviewer is a recorded participant. */
  lemma PaidReviewersAreEnrolled(k: Case, roll: Roll, cycles: seq<Cycle>)
    requires Honest(roll)
    requires forall pin | pin in k.finalPins :: exists c :: c in cycles && c.outcome.Verified? && c.effective.pin == pin
    ensures Enrolled(k, Review(k, roll, cycles))
  {
    ReviewKeeps(k, roll, cycles);
    forall node, v | Paid(k, node) && v in VotesOn(k, k.active[node].effective.pin)
      ensures v.author in Review(k, roll, cycles)
    {
      var c :| c in cycles && c.outcome.Verified? && c.effective.pin == k.active[node].effective.pin;
    }
  }

  // ------------------------------------------------------------------
  // The engine's form
  // ------------------------------------------------------------------

  /** The tree map is ranged over in no particular order and left at the first unusable weight. */
  method CollectWeights(tree: Tree) returns (valid: bool, weights: map<string, int>, total: int)
    ensures valid == AllWeighted(tree, tree.Keys)
    ensures valid ==> total == SumOver(tree, tree.Keys) && weights.Keys == tree.Keys
    ensures valid ==> forall n | n in weights :: weights[n] == WeightOf(tree[n]).value
  {
    valid, weights, total := true, map[], 0;
    var todo := tree.Keys;
    ghost var done: set<string> := {};
    while todo != {}
      invariant done + todo == tree.Keys && done !! todo
      invariant AllWeighted(tree, done) && total == SumOver(tree, done) && weights.Keys == done
      invariant forall n | n in done :: weights[n] == WeightOf(tree[n]).value
      decreases todo
    {
      var id :| id in todo;
      var w := WeightOf(tree[id]);
      if w.None? {
        return false, weights, total;
      }
      SumFromAny(tree, done + {id}, id);
      assert done + {id} - {id} == done;
      weights := weights[id := w.value];
      total := total + w.value;
      todo, done := todo - {id}, done + {id};
    }
    assert done == tree.Keys;
  }

  /** Tree weights if they are complete, uniform ones otherwise. */
  method ComputeWeights(order: seq<string>, tree: Tree) returns (weights: map<string, int>)
    requires Named(tree)
    ensures forall n | n in order :: (if n in weights then weights[n] else 0) == WeightFor(order, tree, n)
  {
    weights := map[];
    var valid := |order| > 0 && |tree| == |order|;
    if valid {
      var total;
      valid, weights, total := CollectWeights(tree);
      valid := valid && total == TREE_TOTAL;
    }
    assert valid == Weighted(order, tree);
    if !valid {
      var uniform := if |order| > 0 then TREE_TOTAL / |order| else 0;
      for i := 0 to |order|
        invariant forall n | n in order[..i] :: n in weights && weights[n] == uniform
      {
        assert order[..i + 1] == order[..i] + [order[i]];
        weights := weights[order[i] := uniform];
      }
      assert order[..|order|] == order;
    }
  }

  method AddUp(xs: seq<int>) returns (sum: int)
    ensures sum == SumOf(xs)
  {
    sum := 0;
    for i := 0 to |xs|
      invariant sum == SumOf(xs[..i])
    {
      assert xs[..i + 1][..i] == xs[..i];
      sum := sum + xs[i];
    }
    assert xs[..|xs|] == xs;
  }

  method SettleNode(k: Case, roll: Roll, s: Shares, node: string, w: int) returns (r: Shares)
    requires Enrolled(k, roll)
    ensures r == PayNode(k, roll, s, node, w)
  {
    r := s;
    if node !in k.active || k.active[node].effective.pin !in k.finalPins || w <= 0 {
      return;
    }
    var cycle := k.active[node];
    var sub := w * k.sigma / TREE_TOTAL;
    r := Submit(r, cycle.effective.author, sub);
    var pool := w - sub;
    var votes := Counted(k, cycle, VotesOn(k, cycle.effective.pin));
    if votes == [] {
      r := Submit(r, cycle.effective.author, pool);
      return;
    }
    DivisorPositive(k, roll, node);
    var accs := Accs(roll, votes);
    var sum := AddUp(accs);
    r := PayCounted(r, votes, accs, pool, sum);
  }

  method PayCounted(s: Shares, votes: seq<Vote>, accs: seq<int>, pool: int, sum: int) returns (r: Shares)
    requires |votes| == |accs| && sum == SumOf(accs) && sum > 0
    ensures r == PayReviewers(s, votes, Cuts(pool, accs, sum))
  {
    r := s;
    ghost var cuts := Cuts(pool, accs, sum);
    for i := 0 to |votes|
      invariant r == PayReviewers(s, votes[..i], cuts[..i])
    {
      assert votes[..i + 1][..i] == votes[..i] && cuts[..i + 1][..i] == cuts[..i];
      r := ReviewPay(r, votes[i].author, pool * accs[i] / sum);
    }
    assert votes[..|votes|] == votes && cuts[..|votes|] == cuts;
  }

  method Settle(k: Case, roll: Roll, order: seq<string>, tree: Tree) returns (shares: Shares)
    requires Enrolled(k, roll) && Named(tree)
    ensures shares == PayAll(k, roll, order, tree, |order|)
  {
    var weights := ComputeWeights(order, tree);
    shares := map[];
    for i := 0 to |order|
      invariant shares == PayAll(k, roll, order, tree, i)
    {
      var node := order[i];
      var w := if node in weights then weights[node] else 0;
      assert w == WeightFor(order, tree, node);
      shares := SettleNode(k, roll, shares, node, w);
    }
  }
}
