/** The aggregation precondition (internal/metatask/v121.go:1398-1496): which
    nodes stay verified once a parent must list its verified children. */
module Aggregation {
  import opened ChainEvents
  import opened TreeShape
  import opened Walk

  /** The effective tree, each node's current cycle, and what each submission lists as its children. */
  datatype Task = Task(tree: Tree, order: seq<string>, active: map<string, Cycle>,
                       listed: map<string, set<string>>, hAct2: int)

  /** The children of a node in tree order. */
  function ChildrenIn(tree: Tree, order: seq<string>, node: string): seq<string> {
    if order == [] then []
    else
      var c := order[|order| - 1];
      ChildrenIn(tree, order[..|order| - 1], node) + if c in tree && tree[c].parent == Some(node) then [c] else []
  }

  lemma {:induction false} ChildrenAre(tree: Tree, order: seq<string>, node: string, c: string)
    ensures c in ChildrenIn(tree, order, node) <==> c in order && c in tree && tree[c].parent == Some(node)
  {
    if order != [] {
      var n := |order| - 1;
      ChildrenAre(tree, order[..n], node, c);
      assert order == order[..n] + [order[n]];
    }
  }

  function ChildrenOf(t: Task, node: string): seq<string> {
    ChildrenIn(t.tree, t.order, node)
  }

  /** The node's current cycle is verified by its votes. */
  predicate Standing(t: Task, node: string) {
    node in t.active && t.active[node].outcome.Verified?
  }

  /** The node must also account for its children. */
  predicate Aggregates(t: Task, node: string) {
    Standing(t, node) && ChildrenOf(t, node) != [] && t.active[node].effective.height >= t.hAct2
  }

  function ListedBy(t: Task, node: string): set<string>
    requires node in t.active
  {
    var pin := t.active[node].effective.pin;
    if pin in t.listed then t.listed[pin] else {}
  }

  /** The effective submissions of the given nodes. */
  function PinsOf(t: Task, nodes: seq<string>): set<string> {
    set c | c in nodes && c in t.active :: t.active[c].effective.pin
  }

  /** One level of the definition, over any reading of which children are verified. */
  ghost predicate VerifiedGiven(t: Task, node: string, verified: iset<string>) {
    && Standing(t, node)
    && (Aggregates(t, node) ==>
         && (forall c | c in ChildrenOf(t, node) :: c in verified)
         && ListedBy(t, node) == PinsOf(t, ChildrenOf(t, node)))
  }

  /** Verified by an argument of at most `d` levels. */
  ghost predicate Within(t: Task, node: string, d: nat)
    decreases d
  {
    && Standing(t, node)
    && (Aggregates(t, node) ==>
         && d > 0
         && (forall c | c in ChildrenOf(t, node) :: Within(t, c, d - 1))
         && ListedBy(t, node) == PinsOf(t, ChildrenOf(t, node)))
  }

  /** Finally verified: by an argument of some finite depth. */
  ghost predicate Final(t: Task, node: string) {
    exists d: nat :: Within(t, node, d)
  }

  ghost function Finals(t: Task): iset<string> {
    iset node | Final(t, node)
  }

  lemma {:induction false} WithinGrows(t: Task, node: string, d: nat, e: nat)
    requires Within(t, node, d) && d <= e
    ensures Within(t, node, e)
    decreases d
  {
    if Aggregates(t, node) {
      forall c | c in ChildrenOf(t, node)
        ensures Within(t, c, e - 1)
      {
        WithinGrows(t, c, d - 1, e - 1);
      }
    }
  }

  lemma {:induction false} CommonDepth(t: Task, nodes: seq<string>) returns (d: nat)
    requires forall c | c in nodes :: Final(t, c)
    ensures forall c | c in nodes :: Within(t, c, d)
  {
    if nodes == [] {
      d := 0;
    } else {
      var n := |nodes| - 1;
      assert nodes == nodes[..n] + [nodes[n]];
      assert nodes[n] in nodes;
      var rest := CommonDepth(t, nodes[..n]);
      var last: nat :| Within(t, nodes[n], last);
      d := if rest < last then last else rest;
      forall c | c in nodes
        ensures Within(t, c, d)
      {
        if c in nodes[..n] {
          WithinGrows(t, c, rest, d);
        } else {
          WithinGrows(t, c, last, d);
        }
      }
    }
  }

  /** `Finals` solves the definition, on any tree whatever. */
  lemma FinalEquation(t: Task, node: string)
    ensures Final(t, node) <==> VerifiedGiven(t, node, Finals(t))
  {
    if VerifiedGiven(t, node, Finals(t)) {
      if Aggregates(t, node) {
        var d := CommonDepth(t, ChildrenOf(t, node));
        assert Within(t, node, d + 1);
      } else {
        assert Within(t, node, 0);
      }
    }
    if Final(t, node) {
      var d: nat :| Within(t, node, d);
      forall c | Aggregates(t, node) && c in ChildrenOf(t, node)
        ensures c in Finals(t)
      {
        assert Within(t, c, d - 1);
      }
    }
  }

  ghost predicate Solves(t: Task, verified: iset<string>) {
    forall node :: node in verified <==> VerifiedGiven(t, node, verified)
  }

  /** It is the least solution: whatever solves the definition contains it. */
  lemma {:induction false} FinalIsLeast(t: Task, verified: iset<string>, node: string, d: nat)
    requires Solves(t, verified) && Within(t, node, d)
    ensures node in verified
    decreases d
  {
    forall c | Aggregates(t, node) && c in ChildrenOf(t, node)
      ensures c in verified
    {
      FinalIsLeast(t, verified, c, d - 1);
    }
    assert VerifiedGiven(t, node, verified);
  }

  ghost function Subtree(tree: Tree, node: string): set<string> {
    set x | x in tree && Below(tree, node, x)
  }

  lemma ChildSubtree(tree: Tree, node: string, child: string)
    requires Named(tree) && Acyclic(tree) && child in tree && tree[child].parent == Some(node) && node in tree
    ensures Subtree(tree, child) < Subtree(tree, node)
  {
    forall x | x in Subtree(tree, child)
      ensures x in Subtree(tree, node)
    {
      var k: nat :| Climb(tree, x, k) == child;
      ClimbAdds(tree, x, k, 1);
      assert Climb(tree, child, 1) == Climb(tree, node, 0);
    }
    assert Climb(tree, node, 0) == node;
    assert node in Subtree(tree, node);
    if node in Subtree(tree, child) {
      var k: nat :| Climb(tree, node, k) == child;
      assert Up(tree, child) == node;
      assert Climb(tree, child, k + 1) == Climb(tree, node, k);
      EndsIsOffCycle(tree, child);
    }
  }

  /** On an acyclic tree the definition has one solution, so what the memoised
      search returns is the recursive definition itself. */
  lemma {:induction false} AcyclicHasOneSolution(t: Task, verified: iset<string>, node: string)
    requires Named(t.tree) && Acyclic(t.tree) && Solves(t, verified) && node in t.tree
    ensures node in verified <==> Final(t, node)
    decreases Subtree(t.tree, node)
  {
    forall c | c in ChildrenOf(t, node)
      ensures c in verified <==> Final(t, c)
    {
      ChildrenAre(t.tree, t.order, node, c);
      ChildSubtree(t.tree, node, c);
      AcyclicHasOneSolution(t, verified, c);
    }
    FinalEquation(t, node);
    assert node in verified <==> VerifiedGiven(t, node, verified);
  }

  /** With every effective submission at or above the feature height, a verified
      node's whole subtree is verified, and every inner node of it lists exactly
      its children's effective submissions. */
  lemma {:induction false} VerifiedSubtree(t: Task, node: string, x: string, k: nat)
    requires Named(t.tree) && Lists(t.order, t.tree.Keys) && node in t.tree && Final(t, node)
    requires forall n | n in t.active :: t.active[n].effective.height >= t.hAct2
    requires x in t.tree && Climb(t.tree, x, k) == node
    ensures Final(t, x) && x in t.active
    ensures ChildrenOf(t, x) != [] ==>
      && ListedBy(t, x) == PinsOf(t, ChildrenOf(t, x))
      && forall c | c in ChildrenOf(t, x) :: c in t.active
    decreases k
  {
    if k > 0 {
      DescendantHangs(t.tree, node, x, k);
      VerifiedSubtree(t, node, Up(t.tree, x), k - 1);
      FinalEquation(t, Up(t.tree, x));
      ChildrenAre(t.tree, t.order, Up(t.tree, x), x);
    }
    FinalEquation(t, x);
    forall c | c in ChildrenOf(t, x)
      ensures c in t.active
    {
      FinalEquation(t, c);
    }
  }

  // ------------------------------------------------------------------
  // The engine's form: one cache, filled while the recursion runs
  // ------------------------------------------------------------------

  /** The calls in progress: each aggregates, and each was made for a child of the one before. */
  ghost predicate Chain(t: Task, path: seq<string>, node: string) {
    && (forall i | 0 <= i < |path| :: Aggregates(t, path[i]))
    && (forall i | 0 < i < |path| :: path[i] in ChildrenOf(t, path[i - 1]))
    && (path != [] ==> node in ChildrenOf(t, path[|path| - 1]))
  }

  /** A call that finds itself in progress is on a loop of aggregating nodes, so it is not verified. */
  lemma {:induction false} InProgressNeverWithin(t: Task, path: seq<string>, node: string, i: nat, j: nat, d: nat)
    requires Chain(t, path, node) && i <= j < |path| && path[i] == node
    ensures !Within(t, path[j], d)
    decreases d, |path| - j
  {
    if Within(t, path[j], d) {
      if j + 1 < |path| {
        InProgressNeverWithin(t, path, node, i, j + 1, d - 1);
      } else {
        InProgressNeverWithin(t, path, node, i, i, d - 1);
      }
    }
  }

  lemma ChainGrows(t: Task, path: seq<string>, node: string, child: string)
    requires Chain(t, path, node) && Aggregates(t, node) && child in ChildrenOf(t, node)
    ensures Chain(t, path + [node], child)
  {
  }

  /** `final` is the set of finally verified nodes. The trigger keeps the definition
      out of the way of proofs that only ask about membership. */
  ghost predicate IsFinals(t: Task, final: iset<string>) {
    forall n {:trigger Final(t, n)} :: n in final <==> Final(t, n)
  }

  lemma FinalStep(t: Task, final: iset<string>, node: string)
    requires IsFinals(t, final)
    ensures node in final <==> VerifiedGiven(t, node, final)
    ensures node in final ==> Standing(t, node)
  {
    FinalEquation(t, node);
    assert forall n :: n in final <==> n in Finals(t);
  }

  /** Settled entries are right; a node in progress reads false. */
  ghost predicate CacheOk(final: iset<string>, cache: map<string, bool>, path: seq<string>) {
    && (forall n | n in path :: n in cache && !cache[n])
    && (forall n | n in cache && n !in path :: cache[n] == (n in final))
  }

  lemma Enter(final: iset<string>, cache: map<string, bool>, path: seq<string>, node: string)
    requires CacheOk(final, cache, path) && node !in cache
    ensures CacheOk(final, cache[node := false], path + [node]) && node !in path
  {
  }

  lemma Leave(final: iset<string>, cache: map<string, bool>, path: seq<string>, node: string)
    requires CacheOk(final, cache, path + [node]) && node !in path
    ensures CacheOk(final, cache[node := node in final], path)
  {
    forall n | n in path
      ensures n in cache && !cache[n]
    {
      assert n in path + [node];
    }
  }

  /** A hit: settled, or in progress and so on a loop. */
  lemma CachedIsFinal(t: Task, final: iset<string>, cache: map<string, bool>, path: seq<string>, node: string)
    requires IsFinals(t, final) && CacheOk(final, cache, path) && Chain(t, path, node) && node in cache
    ensures cache[node] == (node in final)
  {
    if node in path {
      var i :| 0 <= i < |path| && path[i] == node;
      forall d: nat
        ensures !Within(t, node, d)
      {
        InProgressNeverWithin(t, path, node, i, i, d);
      }
      assert !Final(t, node);
    }
  }

  ghost predicate AllIn(final: iset<string>, nodes: seq<string>, i: nat)
    requires i <= |nodes|
  {
    i == 0 || (AllIn(final, nodes, i - 1) && nodes[i - 1] in final)
  }

  lemma {:induction false} AllInMeans(final: iset<string>, nodes: seq<string>, i: nat)
    requires i <= |nodes|
    ensures AllIn(final, nodes, i) <==> forall c | c in nodes[..i] :: c in final
  {
    if i > 0 {
      AllInMeans(final, nodes, i - 1);
      assert nodes[..i] == nodes[..i - 1] + [nodes[i - 1]];
      assert nodes[i - 1] in nodes[..i];
    }
  }

  /** Listing exactly the submissions of verified children is what the definition asks. */
  lemma AccountIsGiven(t: Task, final: iset<string>, node: string, childPins: set<string>)
    requires Aggregates(t, node)
    requires AllIn(final, ChildrenOf(t, node), |ChildrenOf(t, node)|) ==>
      childPins == PinsOf(t, ChildrenOf(t, node)[..|ChildrenOf(t, node)|])
    ensures VerifiedGiven(t, node, final) <==>
      && AllIn(final, ChildrenOf(t, node), |ChildrenOf(t, node)|)
      && |ListedBy(t, node)| == |childPins| && childPins <= ListedBy(t, node)
  {
    var children := ChildrenOf(t, node);
    assert children[..|children|] == children;
    AllInMeans(final, children, |children|);
    SameSet(childPins, ListedBy(t, node));
  }

  lemma PinsSnoc(t: Task, nodes: seq<string>, i: nat)
    requires i < |nodes|
    ensures PinsOf(t, nodes[..i + 1])
         == PinsOf(t, nodes[..i]) + if nodes[i] in t.active then {t.active[nodes[i]].effective.pin} else {}
  {
    assert forall x :: x in nodes[..i + 1] <==> x in nodes[..i] || x == nodes[i];
  }

  /** Every child is listed in the tree order. */
  ghost function InOrder(t: Task): set<string> {
    set n | n in t.order
  }

  class Aggregator {
    const t: Task
    ghost const final: iset<string>
    var cache: map<string, bool>

    constructor (t: Task)
      ensures this.t == t && cache == map[] && IsFinals(t, final)
    {
      this.t, final, cache := t, Finals(t), map[];
    }

    /** Whatever was asked before, and whatever shape the tree has, the answer is
        whether the node is finally verified. */
    method FinalVerified(node: string, ghost path: seq<string>, ghost nodes: set<string>) returns (r: bool)
      requires IsFinals(t, final) && CacheOk(final, cache, path)
      requires Chain(t, path, node) && node in nodes && InOrder(t) <= nodes
      modifies this
      ensures r == (node in final)
      ensures CacheOk(final, cache, path) && old(cache.Keys) <= cache.Keys
      decreases |nodes - cache.Keys|, 0
    {
      if node in cache {
        CachedIsFinal(t, final, cache, path, node);
        return cache[node];
      }
      Enter(final, cache, path, node);
      cache := cache[node := false]; // cycle guard
      assert node in nodes - old(cache.Keys) && node !in nodes - cache.Keys;
      Shrinks(nodes - cache.Keys, nodes - old(cache.Keys));
      r := false;
      if Standing(t, node) {
        r := true;
        if Aggregates(t, node) {
          r := Account(node, path, nodes);
        }
      }
      FinalStep(t, final, node);
      Leave(final, cache, path, node);
      cache := cache[node := r];
    }

    /** Every child is verified, and the node lists exactly their submissions. */
    method Account(node: string, ghost path: seq<string>, ghost nodes: set<string>) returns (r: bool)
      requires IsFinals(t, final) && CacheOk(final, cache, path + [node])
      requires Chain(t, path, node) && Aggregates(t, node) && node in nodes && InOrder(t) <= nodes
      modifies this
      ensures r == VerifiedGiven(t, node, final)
      ensures CacheOk(final, cache, path + [node]) && old(cache.Keys) <= cache.Keys
      decreases |nodes - cache.Keys|, 1
    {
      var children := ChildrenOf(t, node);
      var all := true;
      var childPins: set<string> := {};
      for i := 0 to |children|
        invariant CacheOk(final, cache, path + [node]) && old(cache.Keys) <= cache.Keys
        invariant all == AllIn(final, children, i)
        invariant all ==> childPins == PinsOf(t, children[..i])
      {
        var child := children[i];
        PinsSnoc(t, children, i);
        ChildrenAre(t.tree, t.order, node, child);
        Grows(nodes - cache.Keys, nodes - old(cache.Keys));
        ChainGrows(t, path, node, child);
        var ok := FinalVerified(child, path + [node], nodes);
        FinalStep(t, final, child);
        if ok {
          childPins := childPins + {t.active[child].effective.pin};
        } else {
          all := false;
        }
      }
      AccountIsGiven(t, final, node, childPins);
      var listed := ListedBy(t, node);
      r := all && |listed| == |childPins| && childPins <= listed;
    }

    /** The verified nodes of a list, asked in its order. */
    method AllFinal(order: seq<string>, ghost nodes: set<string>) returns (verified: set<string>)
      requires IsFinals(t, final) && cache == map[] && InOrder(t) <= nodes && forall n | n in order :: n in nodes
      modifies this
      ensures forall n :: n in verified <==> n in order && Final(t, n)
    {
      verified := {};
      for i := 0 to |order|
        invariant CacheOk(final, cache, [])
        invariant forall n :: n in verified <==> n in order[..i] && n in final
      {
        var r := FinalVerified(order[i], [], nodes);
        assert order[..i + 1] == order[..i] + [order[i]];
        if r {
          verified := verified + {order[i]};
        }
      }
      assert order[..|order|] == order;
    }
  }

  /** A subset of the same size is the whole set. */
  lemma SameSet(a: set<string>, b: set<string>)
    ensures |a| == |b| && a <= b <==> a == b
  {
    if a <= b && a != b {
      Shrinks(a, b);
    }
  }
}
