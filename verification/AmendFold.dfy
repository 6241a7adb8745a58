/** The amend fold (internal/metatask/v121.go:615-802): amendments of the task
    tree are folded in chain order, each applied whole or ignored. */
module AmendFold {
  import opened ChainEvents
  import opened TreeShape

  datatype FoldInputs = FoldInputs(rootAuthor: string, treePin: string, firstClaim: map<string, OrdKey>,
                                   verified: set<string>, active: set<string>, rootVerified: bool, hAct2: int)

  datatype AmendReason = BelowHAct2 | NotPublisher | TaskFinalized | Stale | Conflict | InvariantViolation

  datatype IgnoredAmend = IgnoredAmend(pin: string, reason: AmendReason)

  /** Nodes whose first effective claim precedes the amend. */
  function FrozenAt(inp: FoldInputs, key: OrdKey): set<string> {
    set id | id in inp.firstClaim && KeyLess(inp.firstClaim[id], key)
  }

  predicate IsSpace(c: char) {
    c in {'\t', '\n', '\U{b}', '\U{c}', '\r', ' ', '\U{85}', '\U{a0}', '\U{1680}', '\U{2028}', '\U{2029}',
          '\U{202f}', '\U{205f}', '\U{3000}'} || '\U{2000}' <= c <= '\U{200a}'
  }

  /** A string that is not blank. */
  predicate Truthy(s: string) {
    exists i :: 0 <= i < |s| && !IsSpace(s[i])
  }

  // ------------------------------------------------------------------
  // One operation
  // ------------------------------------------------------------------

  /** `Hangs`: the descendant search of a removal need not end. It starts on a
      parent cycle with no frozen member. */
  datatype OpResult = Done(nodes: Tree, order: seq<string>) | Refused | Hangs

  function NodeOf(raw: RawNode): TreeNode {
    TreeNode(raw.id, Some(raw.parent), raw.title, if raw.kind == "" then "proof" else raw.kind, raw.specId, raw.weight)
  }

  predicate CanAdd(inp: FoldInputs, pre: Tree, nodes: Tree, raw: RawNode) {
    && raw.id != "" && raw.id !in pre && raw.id !in nodes
    && (raw.parent in nodes || raw.parent in pre)
    && raw.parent !in inp.verified && raw.parent !in inp.active
  }

  function Without(order: seq<string>, id: string): seq<string> {
    if order == [] then []
    else if order[0] == id then order[1..]
    else [order[0]] + Without(order[1..], id)
  }

  predicate CanEdit(nodes: Tree, frozen: set<string>, id: string) {
    id in nodes && id !in frozen
  }

  ghost function RemoveOp(nodes: Tree, order: seq<string>, frozen: set<string>, id: string): OpResult {
    if id !in nodes || nodes[id].parent.None? then Refused
    else if !SearchEnds(nodes, id, frozen) then Hangs
    else if FrozenBelow(nodes, id, frozen) then Refused
    else Done(nodes - {id}, Without(order, id))
  }

  ghost function ApplyOp(inp: FoldInputs, pre: Tree, frozen: set<string>, nodes: Tree, order: seq<string>, op: AmendOp): OpResult {
    match op
    case AddNode(raw) =>
      if raw.Some? && CanAdd(inp, pre, nodes, raw.value)
      then Done(nodes[raw.value.id := NodeOf(raw.value)], order + [raw.value.id]) else Refused
    case RemoveNode(id) => RemoveOp(nodes, order, frozen, id)
    case Reweight(id, weight) =>
      if CanEdit(nodes, frozen, id) && WeightOf(nodes[id].(weight := weight)).Some?
      then Done(nodes[id := nodes[id].(weight := weight)], order) else Refused
    case Retitle(id, title) =>
      if CanEdit(nodes, frozen, id) && Truthy(title)
      then Done(nodes[id := nodes[id].(title := title)], order) else Refused
    case Respec(id, specId) =>
      if CanEdit(nodes, frozen, id) && Truthy(specId)
      then Done(nodes[id := nodes[id].(specId := Some(specId))], order) else Refused
    case UnknownOp => Refused
  }

  ghost function ApplyOps(inp: FoldInputs, pre: Tree, frozen: set<string>, nodes: Tree, order: seq<string>, ops: seq<AmendOp>): OpResult
    decreases |ops|
  {
    if ops == [] then Done(nodes, order)
    else
      var r := ApplyOp(inp, pre, frozen, nodes, order, ops[0]);
      if r.Done? then ApplyOps(inp, pre, frozen, r.nodes, r.order, ops[1..]) else r
  }

  // ------------------------------------------------------------------
  // The fold
  // ------------------------------------------------------------------

  /** `accepted` lists the amends the fold applied, in order. */
  datatype FoldState =
    | Folding(nodes: Tree, order: seq<string>, head: string, taken: set<string>,
              ignored: seq<IgnoredAmend>, accepted: seq<ChainEvent>)
    | Hung

  const TREE_WEIGHT_TOTAL := 10000

  function Skip(s: FoldState, amend: ChainEvent, reason: AmendReason): FoldState
    requires s.Folding?
  {
    s.(ignored := s.ignored + [IgnoredAmend(amend.pin, reason)])
  }

  /** Why an amend is turned down before its operations are looked at. */
  function GateOf(inp: FoldInputs, s: FoldState, amend: ChainEvent): Option<AmendReason>
    requires s.Folding? && amend.body.Amend?
  {
    if amend.height < inp.hAct2 then Some(BelowHAct2)
    else if amend.author != inp.rootAuthor then Some(NotPublisher)
    else if inp.rootVerified then Some(TaskFinalized)
    else if amend.body.bases != s.head then Some(if amend.body.bases in s.taken then Conflict else Stale)
    else None
  }

  /** The operations went through and left a tree the fold accepts. */
  ghost predicate Acceptable(r: OpResult) {
    r.Done? && TotalWeight(r.nodes) == TREE_WEIGHT_TOTAL && Acyclic(r.nodes)
  }

  ghost function OpsOf(inp: FoldInputs, s: FoldState, amend: ChainEvent): OpResult
    requires s.Folding? && amend.body.Amend?
  {
    ApplyOps(inp, s.nodes, FrozenAt(inp, KeyOf(amend)), s.nodes, s.order, amend.body.ops)
  }

  ghost function FoldOne(inp: FoldInputs, s: FoldState, amend: ChainEvent): FoldState
    requires s.Folding? && amend.body.Amend?
  {
    var gate := GateOf(inp, s, amend);
    if gate.Some? then Skip(s, amend, gate.value)
    else
      var s' := s.(taken := s.taken + {amend.body.bases});
      var r := OpsOf(inp, s, amend);
      if r.Hangs? then Hung
      else if !Acceptable(r) then Skip(s', amend, InvariantViolation)
      else s'.(nodes := r.nodes, order := r.order, head := amend.pin, accepted := s.accepted + [amend])
  }

  predicate AllAmends(amends: seq<ChainEvent>) {
    forall i | 0 <= i < |amends| :: amends[i].body.Amend?
  }

  ghost function Fold(inp: FoldInputs, initial: Tree, order: seq<string>, amends: seq<ChainEvent>): FoldState
    requires AllAmends(amends)
    decreases |amends|
  {
    if amends == [] then Folding(initial, order, inp.treePin, {}, [], [])
    else
      var s := Fold(inp, initial, order, amends[..|amends| - 1]);
      if s.Hung? then Hung else FoldOne(inp, s, amends[|amends| - 1])
  }

  // ------------------------------------------------------------------
  // Well-formed trees
  // ------------------------------------------------------------------

  /** Nodes stand under their own non-empty ids and the order lists each exactly once. */
  ghost predicate TreeOk(nodes: Tree, order: seq<string>) {
    Named(nodes) && Distinct(order) && Lists(order, nodes.Keys)
  }

  lemma {:induction false} WithoutDrops(order: seq<string>, id: string)
    requires Distinct(order)
    ensures Distinct(Without(order, id))
    ensures forall x :: x in Without(order, id) <==> x in order && x != id
  {
    if order != [] {
      var rest := order[1..];
      assert order == [order[0]] + rest;
      assert order[0] !in rest;
      WithoutDrops(rest, id);
      if order[0] != id {
        var r := Without(rest, id);
        assert Without(order, id) == [order[0]] + r;
        DistinctConcat([order[0]], r);
      }
    }
  }

  lemma OpKeepsTree(inp: FoldInputs, pre: Tree, frozen: set<string>, nodes: Tree, order: seq<string>, op: AmendOp)
    requires TreeOk(nodes, order)
    ensures var r := ApplyOp(inp, pre, frozen, nodes, order, op); r.Done? ==> TreeOk(r.nodes, r.order)
  {
    match op
    case AddNode(raw) =>
      if raw.Some? && CanAdd(inp, pre, nodes, raw.value) {
        DistinctConcat(order, [raw.value.id]);
      }
    case RemoveNode(id) => WithoutDrops(order, id);
    case _ =>
  }

  lemma {:induction false} OpsKeepTree(inp: FoldInputs, pre: Tree, frozen: set<string>, nodes: Tree, order: seq<string>, ops: seq<AmendOp>)
    requires TreeOk(nodes, order)
    ensures var r := ApplyOps(inp, pre, frozen, nodes, order, ops); r.Done? ==> TreeOk(r.nodes, r.order)
    decreases |ops|
  {
    if ops != [] {
      OpKeepsTree(inp, pre, frozen, nodes, order, ops[0]);
      var r := ApplyOp(inp, pre, frozen, nodes, order, ops[0]);
      if r.Done? {
        OpsKeepTree(inp, pre, frozen, r.nodes, r.order, ops[1..]);
      }
    }
  }

  lemma {:induction false} FoldKeepsTree(inp: FoldInputs, initial: Tree, order: seq<string>, amends: seq<ChainEvent>)
    requires AllAmends(amends) && TreeOk(initial, order)
    ensures var s := Fold(inp, initial, order, amends); s.Folding? ==> TreeOk(s.nodes, s.order)
  {
    if amends != [] {
      var n := |amends| - 1;
      FoldKeepsTree(inp, initial, order, amends[..n]);
      var s := Fold(inp, initial, order, amends[..n]);
      if s.Folding? {
        OpsKeepTree(inp, s.nodes, FrozenAt(inp, KeyOf(amends[n])), s.nodes, s.order, amends[n].body.ops);
      }
    }
  }

  // ------------------------------------------------------------------
  // The version chain and the tree invariants
  // ------------------------------------------------------------------

  /** The version an accepted amend must be based on: the tree pin, or the amend before it. */
  function VersionBefore(inp: FoldInputs, accepted: seq<ChainEvent>, i: nat): string
    requires i <= |accepted|
  {
    if i == 0 then inp.treePin else accepted[i - 1].pin
  }

  ghost predicate OneChain(inp: FoldInputs, head: string, accepted: seq<ChainEvent>) {
    && head == VersionBefore(inp, accepted, |accepted|)
    && forall i | 0 <= i < |accepted| ::
         && accepted[i].body.Amend? && accepted[i].body.bases == VersionBefore(inp, accepted, i)
         && accepted[i].author == inp.rootAuthor && accepted[i].height >= inp.hAct2
  }

  /** Every weight is an integer in 1..10000, they sum to 10000, and the tree is acyclic. */
  ghost predicate SoundTree(nodes: Tree) {
    AllWeighted(nodes, nodes.Keys) && SumOver(nodes, nodes.Keys) == 10000 && Acyclic(nodes)
  }

  lemma ChainGrows(inp: FoldInputs, head: string, accepted: seq<ChainEvent>, amend: ChainEvent)
    requires OneChain(inp, head, accepted)
    requires amend.body.Amend? && amend.body.bases == head && amend.author == inp.rootAuthor && amend.height >= inp.hAct2
    ensures OneChain(inp, amend.pin, accepted + [amend])
  {
    forall i | 0 <= i <= |accepted|
      ensures VersionBefore(inp, accepted + [amend], i) == VersionBefore(inp, accepted, i)
    {
    }
  }

  ghost predicate FoldedWell(inp: FoldInputs, initial: Tree, order: seq<string>, s: FoldState)
    requires s.Folding?
  {
    && OneChain(inp, s.head, s.accepted)
    && if s.accepted == [] then s.nodes == initial && s.order == order else SoundTree(s.nodes)
  }

  lemma NextFoldedWell(inp: FoldInputs, initial: Tree, order: seq<string>, s: FoldState, amend: ChainEvent)
    requires s.Folding? && amend.body.Amend? && FoldOne(inp, s, amend).Folding?
    requires FoldedWell(inp, initial, order, s)
    ensures FoldedWell(inp, initial, order, FoldOne(inp, s, amend))
  {
    if GateOf(inp, s, amend).None? && Acceptable(OpsOf(inp, s, amend)) {
      ChainGrows(inp, s.head, s.accepted, amend);
    }
  }

  /** Accepted amends form one chain of bases from the tree pin to the head, each
      by the publisher at or above the feature height. Until one is accepted the
      tree is the published one; from then on it is sound. */
  lemma {:induction false} AcceptedFormOneChain(inp: FoldInputs, initial: Tree, order: seq<string>, amends: seq<ChainEvent>)
    requires AllAmends(amends) && Fold(inp, initial, order, amends).Folding?
    ensures FoldedWell(inp, initial, order, Fold(inp, initial, order, amends))
  {
    if amends != [] {
      var n := |amends| - 1;
      AcceptedFormOneChain(inp, initial, order, amends[..n]);
      NextFoldedWell(inp, initial, order, Fold(inp, initial, order, amends[..n]), amends[n]);
    }
  }

  /** Every amend is accepted or ignored, none of them twice. */
  lemma {:induction false} EveryAmendCountsOnce(inp: FoldInputs, initial: Tree, order: seq<string>, amends: seq<ChainEvent>)
    requires AllAmends(amends) && Fold(inp, initial, order, amends).Folding?
    ensures var s := Fold(inp, initial, order, amends);
            |s.accepted| + |s.ignored| == |amends| && multiset(s.accepted) <= multiset(amends)
  {
    if amends != [] {
      var n := |amends| - 1;
      var s := Fold(inp, initial, order, amends[..n]);
      EveryAmendCountsOnce(inp, initial, order, amends[..n]);
      NextCountsOnce(inp, s, amends[n]);
      OneMoreAmong(s.accepted, amends[..n], amends[n], amends);
    }
  }

  lemma OneMoreAmong(accepted: seq<ChainEvent>, prefix: seq<ChainEvent>, amend: ChainEvent, amends: seq<ChainEvent>)
    requires multiset(accepted) <= multiset(prefix) && |prefix| + 1 == |amends|
    requires prefix == amends[..|prefix|] && amend == amends[|prefix|]
    ensures multiset(accepted) <= multiset(amends) && multiset(accepted + [amend]) <= multiset(amends)
  {
    assert amends == prefix + [amend];
  }

  lemma NextCountsOnce(inp: FoldInputs, s: FoldState, amend: ChainEvent)
    requires s.Folding? && amend.body.Amend? && FoldOne(inp, s, amend).Folding?
    ensures var t := FoldOne(inp, s, amend);
            && |t.accepted| + |t.ignored| == |s.accepted| + |s.ignored| + 1
            && (t.accepted == s.accepted || t.accepted == s.accepted + [amend])
  {
  }

  lemma {:induction false} AcceptedAreAmends(inp: FoldInputs, initial: Tree, order: seq<string>, amends: seq<ChainEvent>)
    requires AllAmends(amends) && Fold(inp, initial, order, amends).Folding?
    ensures AllAmends(Fold(inp, initial, order, amends).accepted)
  {
    if amends != [] {
      AcceptedAreAmends(inp, initial, order, amends[..|amends| - 1]);
    }
  }

  ghost predicate SameTree(s: FoldState, t: FoldState) {
    s.Folding? && t.Folding? && s.nodes == t.nodes && s.order == t.order && s.head == t.head && s.accepted == t.accepted
  }

  /** What an amend does to the tree depends on the tree, its order and its head alone. */
  lemma SameStep(inp: FoldInputs, s: FoldState, t: FoldState, amend: ChainEvent)
    requires SameTree(s, t) && amend.body.Amend? && FoldOne(inp, s, amend).Folding?
    ensures SameTree(FoldOne(inp, s, amend), FoldOne(inp, t, amend))
    ensures FoldOne(inp, s, amend).accepted == s.accepted ==> SameTree(FoldOne(inp, s, amend), t)
    ensures FoldOne(inp, s, amend).accepted != s.accepted ==> FoldOne(inp, s, amend).accepted == s.accepted + [amend]
    ensures FoldOne(inp, s, amend).accepted != s.accepted ==> FoldOne(inp, t, amend).ignored == t.ignored
  {
  }

  /** Whole or not at all: the accepted amends alone fold to the same tree, order
      and head, and none of them is ignored. An ignored amend, whatever its
      operations and whatever base it took, leaves no trace in them. */
  lemma {:induction false} IgnoredLeaveNoTrace(inp: FoldInputs, initial: Tree, order: seq<string>, amends: seq<ChainEvent>)
    requires AllAmends(amends) && Fold(inp, initial, order, amends).Folding?
    ensures var s := Fold(inp, initial, order, amends);
            && AllAmends(s.accepted)
            && SameTree(s, Fold(inp, initial, order, s.accepted))
            && Fold(inp, initial, order, s.accepted).ignored == []
  {
    AcceptedAreAmends(inp, initial, order, amends);
    if amends != [] {
      var n := |amends| - 1;
      IgnoredLeaveNoTrace(inp, initial, order, amends[..n]);
      var s := Fold(inp, initial, order, amends[..n]);
      var t := Fold(inp, initial, order, s.accepted);
      SameStep(inp, s, t, amends[n]);
      var s' := FoldOne(inp, s, amends[n]);
      if s'.accepted != s.accepted {
        assert s'.accepted[..|s'.accepted| - 1] == s.accepted;
      }
    }
  }

  // ------------------------------------------------------------------
  // Frozen nodes
  // ------------------------------------------------------------------

  /** From `a` to `b`, the node and every node above it stay, in place. */
  ghost predicate LineageKept(a: Tree, b: Tree, id: string) {
    && id in a && id in b && b[id] == a[id]
    && forall k: nat :: Climb(a, id, k) in a ==> Climb(a, id, k) in b && Climb(b, id, k) == Climb(a, id, k)
  }
  ghost predicate FrozenKept(a: Tree, b: Tree, frozen: set<string>) {
    forall id | id in a && id in frozen :: LineageKept(a, b, id)
  }

  lemma FrozenKeptComposes(a: Tree, b: Tree, c: Tree, frozen: set<string>)
    requires FrozenKept(a, b, frozen) && FrozenKept(b, c, frozen)
    ensures FrozenKept(a, c, frozen)
  {
    forall id | id in a && id in frozen
      ensures LineageKept(a, c, id)
    {
      assert LineageKept(a, b, id) && LineageKept(b, c, id);
      forall k: nat | Climb(a, id, k) in a
        ensures Climb(a, id, k) in c && Climb(c, id, k) == Climb(a, id, k)
      {
        assert Climb(b, id, k) in b;
      }
    }
  }

  /** Nodes on the way up that stay with their parents keep the way up. */
  lemma {:induction false} SameWayUp(a: Tree, b: Tree, id: string, k: nat)
    requires "" !in a && id in a && Climb(a, id, k) in a
    requires forall j: nat :: Climb(a, id, j) in a ==> Climb(a, id, j) in b && b[Climb(a, id, j)].parent == a[Climb(a, id, j)].parent
    ensures Climb(b, id, k) == Climb(a, id, k)
  {
    if k > 0 {
      ClimbAdds(a, id, k - 1, 1);
      ClimbAdds(b, id, k - 1, 1);
      var below := Climb(a, id, k - 1);
      assert Climb(a, below, 1) == Climb(a, Up(a, below), 0);
      assert below in a;
      SameWayUp(a, b, id, k - 1);
      assert Climb(b, below, 1) == Climb(b, Up(b, below), 0);
    }
  }

  lemma OpKeepsFrozen(inp: FoldInputs, pre: Tree, frozen: set<string>, nodes: Tree, order: seq<string>, op: AmendOp)
    requires Named(nodes)
    ensures var r := ApplyOp(inp, pre, frozen, nodes, order, op); r.Done? ==> FrozenKept(nodes, r.nodes, frozen)
  {
    var r := ApplyOp(inp, pre, frozen, nodes, order, op);
    if r.Done? {
      forall id | id in nodes && id in frozen
        ensures LineageKept(nodes, r.nodes, id)
      {
        assert Climb(nodes, id, 0) == id;
        forall k: nat | Climb(nodes, id, k) in nodes
          ensures Climb(nodes, id, k) in r.nodes
          ensures r.nodes[Climb(nodes, id, k)].parent == nodes[Climb(nodes, id, k)].parent
        {
          assert Below(nodes, Climb(nodes, id, k), id);
        }
        forall k: nat | Climb(nodes, id, k) in nodes
          ensures Climb(r.nodes, id, k) == Climb(nodes, id, k)
        {
          SameWayUp(nodes, r.nodes, id, k);
        }
      }
    }
  }

  lemma {:induction false} OpsKeepFrozen(inp: FoldInputs, pre: Tree, frozen: set<string>, nodes: Tree, order: seq<string>, ops: seq<AmendOp>)
    requires TreeOk(nodes, order)
    ensures var r := ApplyOps(inp, pre, frozen, nodes, order, ops); r.Done? ==> FrozenKept(nodes, r.nodes, frozen)
    decreases |ops|
  {
    if ops != [] {
      OpKeepsTree(inp, pre, frozen, nodes, order, ops[0]);
      OpKeepsFrozen(inp, pre, frozen, nodes, order, ops[0]);
      var one := ApplyOp(inp, pre, frozen, nodes, order, ops[0]);
      if one.Done? {
        OpsKeepFrozen(inp, pre, frozen, one.nodes, one.order, ops[1..]);
        var all := ApplyOps(inp, pre, frozen, one.nodes, one.order, ops[1..]);
        if all.Done? {
          FrozenKeptComposes(nodes, one.nodes, all.nodes, frozen);
        }
      }
    }
  }

  /** An amend never removes or edits a node first claimed before it, nor any of its ancestors. */
  lemma AmendKeepsFrozen(inp: FoldInputs, s: FoldState, amend: ChainEvent)
    requires s.Folding? && amend.body.Amend? && TreeOk(s.nodes, s.order) && FoldOne(inp, s, amend).Folding?
    ensures FrozenKept(s.nodes, FoldOne(inp, s, amend).nodes, FrozenAt(inp, KeyOf(amend)))
  {
    OpsKeepFrozen(inp, s.nodes, FrozenAt(inp, KeyOf(amend)), s.nodes, s.order, amend.body.ops);
  }

  lemma NextKeepsFrozen(inp: FoldInputs, s: FoldState, amend: ChainEvent, earlier: ChainEvent)
    requires s.Folding? && amend.body.Amend? && TreeOk(s.nodes, s.order) && FoldOne(inp, s, amend).Folding?
    requires !Before(amend, earlier)
    ensures FrozenKept(s.nodes, FoldOne(inp, s, amend).nodes, FrozenAt(inp, KeyOf(earlier)))
  {
    AmendKeepsFrozen(inp, s, amend);
    FrozenGrows(inp, earlier, amend);
  }

  /** Over a whole fold in chain order: a node first claimed before the i-th amend
      is still there, unedited and under the same ancestors, when the fold ends. */
  lemma {:induction false} FrozenForever(inp: FoldInputs, initial: Tree, order: seq<string>, amends: seq<ChainEvent>, i: nat)
    requires AllAmends(amends) && Ordered(amends) && TreeOk(initial, order) && i < |amends|
    requires Fold(inp, initial, order, amends).Folding?
    ensures Fold(inp, initial, order, amends[..i]).Folding?
    ensures FrozenKept(Fold(inp, initial, order, amends[..i]).nodes, Fold(inp, initial, order, amends).nodes,
                       FrozenAt(inp, KeyOf(amends[i])))
  {
    var n := |amends| - 1;
    var prefix := amends[..n];
    var s := Fold(inp, initial, order, prefix);
    FoldKeepsTree(inp, initial, order, prefix);
    KeyLessTotal(KeyOf(amends[i]), KeyOf(amends[i]));
    NextKeepsFrozen(inp, s, amends[n], amends[i]);
    if i < n {
      assert prefix[..i] == amends[..i] && prefix[i] == amends[i];
      FrozenForever(inp, initial, order, prefix, i);
      FrozenKeptComposes(Fold(inp, initial, order, prefix[..i]).nodes, s.nodes, FoldOne(inp, s, amends[n]).nodes,
                         FrozenAt(inp, KeyOf(amends[i])));
    }
  }

  lemma FrozenGrows(inp: FoldInputs, earlier: ChainEvent, later: ChainEvent)
    requires !Before(later, earlier)
    ensures FrozenAt(inp, KeyOf(earlier)) <= FrozenAt(inp, KeyOf(later))
  {
    forall id | id in FrozenAt(inp, KeyOf(earlier))
      ensures id in FrozenAt(inp, KeyOf(later))
    {
      KeyLessTotal(KeyOf(earlier), KeyOf(later));
      if KeyOf(earlier) != KeyOf(later) {
        KeyLessTransitive(inp.firstClaim[id], KeyOf(earlier), KeyOf(later));
      }
    }
  }

  // ------------------------------------------------------------------
  // When the fold comes to an end
  // ------------------------------------------------------------------

  /** What is above a node on a cycle is below it too. */
  lemma OnCycleIsBelow(nodes: Tree, id: string, k: nat)
    requires Named(nodes) && id in nodes && OnCycle(nodes, id)
    ensures Below(nodes, id, Climb(nodes, id, k))
  {
    var period: nat :| period > 0 && Climb(nodes, id, period) == id;
    RoundTheCycle(nodes, id, period, k);
    ClimbAdds(nodes, id, k, k * period - k);
    OnCycleIsNamed(nodes, id, k);
  }

  /** One frozen member of the cycle is enough for the removal to be refused. */
  lemma FrozenCycleIsRefused(nodes: Tree, order: seq<string>, frozen: set<string>, id: string)
    requires Named(nodes) && id in nodes && OnCycle(nodes, id) && FrozenAbove(nodes, id, frozen)
    ensures RemoveOp(nodes, order, frozen, id).Refused?
  {
    var k: nat :| Climb(nodes, id, k) in frozen;
    OnCycleIsBelow(nodes, id, k);
  }

  /** The `j`-th operation is reached, and removes a node on a parent cycle of the
      tree so far with no frozen member. */
  ghost predicate LoopedRemoval(inp: FoldInputs, pre: Tree, frozen: set<string>, nodes: Tree, order: seq<string>,
                                ops: seq<AmendOp>, j: nat)
  {
    && j < |ops| && ops[j].RemoveNode?
    && var r := ApplyOps(inp, pre, frozen, nodes, order, ops[..j]);
       && r.Done? && ops[j].node in r.nodes
       && OnCycle(r.nodes, ops[j].node) && !FrozenAbove(r.nodes, ops[j].node, frozen)
  }

  lemma OnCycleHasParent(nodes: Tree, id: string)
    requires Named(nodes) && id in nodes && OnCycle(nodes, id)
    ensures nodes[id].parent.Some?
  {
    OnCycleIsNamed(nodes, id, 1);
    assert Climb(nodes, id, 1) == Climb(nodes, Up(nodes, id), 0);
  }

  lemma OpHangs(inp: FoldInputs, pre: Tree, frozen: set<string>, nodes: Tree, order: seq<string>, ops: seq<AmendOp>)
    requires TreeOk(nodes, order) && ops != []
    ensures ApplyOp(inp, pre, frozen, nodes, order, ops[0]).Hangs? <==> LoopedRemoval(inp, pre, frozen, nodes, order, ops, 0)
  {
    if ops[0].RemoveNode? && ops[0].node in nodes && OnCycle(nodes, ops[0].node) {
      OnCycleHasParent(nodes, ops[0].node);
    }
  }

  lemma LaterLoops(inp: FoldInputs, pre: Tree, frozen: set<string>, nodes: Tree, order: seq<string>, ops: seq<AmendOp>, j: nat)
    requires 0 < j < |ops|
    ensures var r := ApplyOp(inp, pre, frozen, nodes, order, ops[0]);
            var here := LoopedRemoval(inp, pre, frozen, nodes, order, ops, j);
            here <==> r.Done? && LoopedRemoval(inp, pre, frozen, r.nodes, r.order, ops[1..], j - 1)
  {
    assert ops[..j][0] == ops[0] && ops[..j][1..] == ops[1..][..j - 1];
  }

  lemma {:induction false} HangsSomewhere(inp: FoldInputs, pre: Tree, frozen: set<string>, nodes: Tree, order: seq<string>, ops: seq<AmendOp>)
    returns (j: nat)
    requires TreeOk(nodes, order) && ApplyOps(inp, pre, frozen, nodes, order, ops).Hangs?
    ensures LoopedRemoval(inp, pre, frozen, nodes, order, ops, j)
    decreases |ops|
  {
    j := 0;
    OpHangs(inp, pre, frozen, nodes, order, ops);
    var r := ApplyOp(inp, pre, frozen, nodes, order, ops[0]);
    if r.Done? {
      OpKeepsTree(inp, pre, frozen, nodes, order, ops[0]);
      var later := HangsSomewhere(inp, pre, frozen, r.nodes, r.order, ops[1..]);
      j := later + 1;
      LaterLoops(inp, pre, frozen, nodes, order, ops, j);
    }
  }

  lemma {:induction false} LoopHangs(inp: FoldInputs, pre: Tree, frozen: set<string>, nodes: Tree, order: seq<string>, ops: seq<AmendOp>, j: nat)
    requires TreeOk(nodes, order) && LoopedRemoval(inp, pre, frozen, nodes, order, ops, j)
    ensures ApplyOps(inp, pre, frozen, nodes, order, ops).Hangs?
    decreases j
  {
    if j == 0 {
      OpHangs(inp, pre, frozen, nodes, order, ops);
    } else {
      var r := ApplyOp(inp, pre, frozen, nodes, order, ops[0]);
      LaterLoops(inp, pre, frozen, nodes, order, ops, j);
      OpKeepsTree(inp, pre, frozen, nodes, order, ops[0]);
      LoopHangs(inp, pre, frozen, r.nodes, r.order, ops[1..], j - 1);
    }
  }

  ghost predicate MeetsLoopedRemoval(inp: FoldInputs, nodes: Tree, order: seq<string>, frozen: set<string>, ops: seq<AmendOp>) {
    exists j: nat :: LoopedRemoval(inp, nodes, frozen, nodes, order, ops, j)
  }

  lemma OpsHang(inp: FoldInputs, frozen: set<string>, nodes: Tree, order: seq<string>, ops: seq<AmendOp>)
    requires TreeOk(nodes, order)
    ensures ApplyOps(inp, nodes, frozen, nodes, order, ops).Hangs? <==> MeetsLoopedRemoval(inp, nodes, order, frozen, ops)
  {
    if MeetsLoopedRemoval(inp, nodes, order, frozen, ops) {
      var j: nat :| LoopedRemoval(inp, nodes, frozen, nodes, order, ops, j);
      LoopHangs(inp, nodes, frozen, nodes, order, ops, j);
    } else if ApplyOps(inp, nodes, frozen, nodes, order, ops).Hangs? {
      var j := HangsSomewhere(inp, nodes, frozen, nodes, order, ops);
    }
  }

  /** The amend passes the gates and its operations reach such a removal. */
  ghost predicate HangsHere(inp: FoldInputs, s: FoldState, amend: ChainEvent)
    requires amend.body.Amend?
  {
    && s.Folding? && GateOf(inp, s, amend).None?
    && MeetsLoopedRemoval(inp, s.nodes, s.order, FrozenAt(inp, KeyOf(amend)), amend.body.ops)
  }

  lemma NextHangs(inp: FoldInputs, s: FoldState, amend: ChainEvent)
    requires s.Folding? && amend.body.Amend? && TreeOk(s.nodes, s.order)
    ensures FoldOne(inp, s, amend).Hung? <==> HangsHere(inp, s, amend)
  {
    OpsHang(inp, FrozenAt(inp, KeyOf(amend)), s.nodes, s.order, amend.body.ops);
  }

  /** The fold of the amends before the `i`-th has an end, and the `i`-th has none. */
  ghost predicate HangsAt(inp: FoldInputs, initial: Tree, order: seq<string>, amends: seq<ChainEvent>, i: nat)
    requires AllAmends(amends)
  {
    i < |amends| && HangsHere(inp, Fold(inp, initial, order, amends[..i]), amends[i])
  }

  lemma PrefixHangsAt(inp: FoldInputs, initial: Tree, order: seq<string>, amends: seq<ChainEvent>, n: nat, i: nat)
    requires AllAmends(amends) && i < n <= |amends|
    ensures HangsAt(inp, initial, order, amends[..n], i) <==> HangsAt(inp, initial, order, amends, i)
  {
    assert amends[..n][..i] == amends[..i];
  }

  lemma {:induction false} HungSomewhere(inp: FoldInputs, initial: Tree, order: seq<string>, amends: seq<ChainEvent>) returns (i: nat)
    requires AllAmends(amends) && TreeOk(initial, order) && Fold(inp, initial, order, amends).Hung?
    ensures HangsAt(inp, initial, order, amends, i)
  {
    i := |amends| - 1;
    var s := Fold(inp, initial, order, amends[..i]);
    if s.Hung? {
      var n := i;
      i := HungSomewhere(inp, initial, order, amends[..n]);
      PrefixHangsAt(inp, initial, order, amends, n, i);
    } else {
      FoldKeepsTree(inp, initial, order, amends[..i]);
      NextHangs(inp, s, amends[i]);
    }
  }

  lemma {:induction false} HangHangs(inp: FoldInputs, initial: Tree, order: seq<string>, amends: seq<ChainEvent>, i: nat)
    requires AllAmends(amends) && TreeOk(initial, order) && HangsAt(inp, initial, order, amends, i)
    ensures Fold(inp, initial, order, amends).Hung?
  {
    var n := |amends| - 1;
    if i < n {
      PrefixHangsAt(inp, initial, order, amends, n, i);
      HangHangs(inp, initial, order, amends[..n], i);
    } else {
      FoldKeepsTree(inp, initial, order, amends[..n]);
      NextHangs(inp, Fold(inp, initial, order, amends[..n]), amends[n]);
    }
  }

  /** The fold need not end exactly when some amend that passes the gates reaches
      the removal of a node which lies, in the tree before that operation, on a
      parent cycle with no frozen member. */
  lemma FoldHangs(inp: FoldInputs, initial: Tree, order: seq<string>, amends: seq<ChainEvent>)
    requires AllAmends(amends) && TreeOk(initial, order)
    ensures Fold(inp, initial, order, amends).Hung? <==> exists i: nat :: HangsAt(inp, initial, order, amends, i)
  {
    if i: nat :| HangsAt(inp, initial, order, amends, i) {
      HangHangs(inp, initial, order, amends, i);
    } else if Fold(inp, initial, order, amends).Hung? {
      var i := HungSomewhere(inp, initial, order, amends);
    }
  }

  /** No removal follows an addition in the same amend. */
  predicate RemovesFirst(ops: seq<AmendOp>) {
    forall i, j | 0 <= i < j < |ops| :: !(ops[i].AddNode? && ops[j].RemoveNode?)
  }

  lemma {:induction false} FewerNodesEnd(a: Tree, b: Tree, id: string, k: nat)
    requires b.Keys <= a.Keys && (forall x | x in b :: b[x].parent == a[x].parent) && Climb(a, id, k) == ""
    ensures Ends(b, id)
    decreases k
  {
    if k == 0 {
      assert Climb(b, id, 0) == "";
    } else if id in b {
      FewerNodesEnd(a, b, Up(a, id), k - 1);
      var j: nat :| Climb(b, Up(a, id), j) == "";
      assert Climb(b, id, j + 1) == "";
    } else {
      assert Climb(b, id, 1) == Climb(b, "", 0);
    }
  }

  lemma FewerNodesAcyclic(a: Tree, b: Tree)
    requires Acyclic(a) && b.Keys <= a.Keys && (forall x | x in b :: b[x].parent == a[x].parent)
    ensures Acyclic(b)
  {
    forall id | id in b
      ensures Ends(b, id)
    {
      var k: nat :| Climb(a, id, k) == "";
      FewerNodesEnd(a, b, id, k);
    }
  }

  lemma {:induction false} OpsNeverHang(inp: FoldInputs, pre: Tree, frozen: set<string>, nodes: Tree, order: seq<string>, ops: seq<AmendOp>)
    requires TreeOk(nodes, order) && RemovesFirst(ops)
    requires Acyclic(nodes) || forall op | op in ops :: !op.RemoveNode?
    ensures !ApplyOps(inp, pre, frozen, nodes, order, ops).Hangs?
    decreases |ops|
  {
    if ops != [] {
      var op, rest := ops[0], ops[1..];
      assert forall i | 0 < i < |ops| :: ops[i] == rest[i - 1];
      OpKeepsTree(inp, pre, frozen, nodes, order, op);
      var r := ApplyOp(inp, pre, frozen, nodes, order, op);
      if op.RemoveNode? && op.node in nodes {
        assert op in ops;
        EndsIsOffCycle(nodes, op.node);
      }
      if r.Done? {
        if Acyclic(nodes) && !op.AddNode? {
          FewerNodesAcyclic(nodes, r.nodes);
        }
        OpsNeverHang(inp, pre, frozen, r.nodes, r.order, rest);
      }
    }
  }

  /** On an acyclic published tree the fold always ends when every amend lists its removals first. */
  lemma {:induction false} FoldEnds(inp: FoldInputs, initial: Tree, order: seq<string>, amends: seq<ChainEvent>)
    requires AllAmends(amends) && TreeOk(initial, order) && Acyclic(initial)
    requires forall i | 0 <= i < |amends| :: RemovesFirst(amends[i].body.ops)
    ensures Fold(inp, initial, order, amends).Folding?
  {
    if amends != [] {
      var n := |amends| - 1;
      var prefix := amends[..n];
      FoldEnds(inp, initial, order, prefix);
      FoldKeepsTree(inp, initial, order, prefix);
      AcceptedFormOneChain(inp, initial, order, prefix);
      NextEnds(inp, Fold(inp, initial, order, prefix), amends[n]);
    }
  }

  lemma NextEnds(inp: FoldInputs, s: FoldState, amend: ChainEvent)
    requires s.Folding? && amend.body.Amend? && TreeOk(s.nodes, s.order) && Acyclic(s.nodes) && RemovesFirst(amend.body.ops)
    ensures FoldOne(inp, s, amend).Folding?
  {
    OpsNeverHang(inp, s.nodes, FrozenAt(inp, KeyOf(amend)), s.nodes, s.order, amend.body.ops);
  }

  lemma {:induction false} PrefixFolds(inp: FoldInputs, initial: Tree, order: seq<string>, amends: seq<ChainEvent>, i: nat)
    requires AllAmends(amends) && i <= |amends| && Fold(inp, initial, order, amends).Folding?
    ensures Fold(inp, initial, order, amends[..i]).Folding?
  {
    if i < |amends| {
      var n := |amends| - 1;
      assert amends[..n][..i] == amends[..i];
      PrefixFolds(inp, initial, order, amends[..n], i);
    } else {
      assert amends[..i] == amends;
    }
  }

  // ------------------------------------------------------------------
  // The engine's form
  // ------------------------------------------------------------------

  method Remove(scratch: Tree, order: seq<string>, frozen: set<string>, id: string)
    returns (ok: bool, scratch': Tree, order': seq<string>)
    requires Named(scratch) && !RemoveOp(scratch, order, frozen, id).Hangs?
    ensures ok == RemoveOp(scratch, order, frozen, id).Done?
    ensures ok ==> RemoveOp(scratch, order, frozen, id) == Done(scratch', order')
  {
    ok, scratch', order' := false, scratch, order;
    if id !in scratch || scratch[id].parent.None? {
      return;
    }
    var found := SearchFrozen(scratch, id, frozen);
    if found {
      return;
    }
    scratch' := scratch - {id};
    var i := 0;
    while i < |order| && order[i] != id
      invariant i <= |order| && order[..i] + Without(order[i..], id) == Without(order, id)
    {
      assert order[i..][1..] == order[i + 1..];
      i := i + 1;
    }
    if i < |order| {
      order' := order[..i] + order[i + 1..];
      assert order[i..][1..] == order[i + 1..];
    }
    ok := true;
  }

  method RunOp(inp: FoldInputs, pre: Tree, frozen: set<string>, scratch: Tree, order: seq<string>, op: AmendOp)
    returns (ok: bool, scratch': Tree, order': seq<string>)
    requires Named(scratch) && !ApplyOp(inp, pre, frozen, scratch, order, op).Hangs?
    ensures ok == ApplyOp(inp, pre, frozen, scratch, order, op).Done?
    ensures ok ==> ApplyOp(inp, pre, frozen, scratch, order, op) == Done(scratch', order')
  {
    scratch', order' := scratch, order;
    match op {
      case AddNode(raw) =>
        ok := raw.Some? && CanAdd(inp, pre, scratch, raw.value);
        if ok {
          scratch' := scratch[raw.value.id := NodeOf(raw.value)];
          order' := order + [raw.value.id];
        }
      case RemoveNode(id) =>
        ok, scratch', order' := Remove(scratch, order, frozen, id);
      case Reweight(id, weight) =>
        ok := CanEdit(scratch, frozen, id) && WeightOf(scratch[id].(weight := weight)).Some?;
        if ok {
          scratch' := scratch[id := scratch[id].(weight := weight)];
        }
      case Retitle(id, title) =>
        ok := CanEdit(scratch, frozen, id) && Truthy(title);
        if ok {
          scratch' := scratch[id := scratch[id].(title := title)];
        }
      case Respec(id, specId) =>
        ok := CanEdit(scratch, frozen, id) && Truthy(specId);
        if ok {
          scratch' := scratch[id := scratch[id].(specId := Some(specId))];
        }
      case UnknownOp => ok := false;
    }
  }

  /** The operations of one amend on a scratch copy, up to the first one refused. */
  method RunOps(inp: FoldInputs, pre: Tree, order: seq<string>, key: OrdKey, ops: seq<AmendOp>)
    returns (ok: bool, scratch: Tree, scratchOrder: seq<string>)
    requires TreeOk(pre, order) && !ApplyOps(inp, pre, FrozenAt(inp, key), pre, order, ops).Hangs?
    ensures var r := ApplyOps(inp, pre, FrozenAt(inp, key), pre, order, ops);
            ok == r.Done? && (ok ==> r == Done(scratch, scratchOrder) && TreeOk(scratch, scratchOrder))
  {
    var frozen := FrozenAt(inp, key);
    ok, scratch, scratchOrder := true, pre, order;
    var i := 0;
    while i < |ops| && ok
      invariant i <= |ops|
      invariant ok ==> TreeOk(scratch, scratchOrder)
      invariant ok ==>
        ApplyOps(inp, pre, frozen, scratch, scratchOrder, ops[i..]) == ApplyOps(inp, pre, frozen, pre, order, ops)
      invariant !ok ==> ApplyOps(inp, pre, frozen, pre, order, ops).Refused?
      decreases |ops| - i
    {
      assert ops[i..][1..] == ops[i + 1..];
      OpKeepsTree(inp, pre, frozen, scratch, scratchOrder, ops[i]);
      ok, scratch, scratchOrder := RunOp(inp, pre, frozen, scratch, scratchOrder, ops[i]);
      i := i + 1;
    }
    assert ops[|ops|..] == [];
  }

  /** The fold over the sorted amends, whenever it has an end. */
  method FoldAmends(inp: FoldInputs, initial: Tree, order: seq<string>, amends: seq<ChainEvent>)
    returns (nodes: Tree, nodeOrder: seq<string>, ignored: seq<IgnoredAmend>, head: string)
    requires AllAmends(amends) && TreeOk(initial, order) && Fold(inp, initial, order, amends).Folding?
    ensures var s := Fold(inp, initial, order, amends);
            nodes == s.nodes && nodeOrder == s.order && ignored == s.ignored && head == s.head
  {
    nodes, nodeOrder, ignored, head := initial, order, [], inp.treePin;
    var taken: set<string> := {};
    for i := 0 to |amends|
      invariant Fold(inp, initial, order, amends[..i]).Folding?
      invariant TreeOk(nodes, nodeOrder)
      invariant var s := Fold(inp, initial, order, amends[..i]);
        nodes == s.nodes && nodeOrder == s.order && ignored == s.ignored && head == s.head && taken == s.taken
    {
      var amend := amends[i];
      ghost var s := Fold(inp, initial, order, amends[..i]);
      assert amends[..i + 1][..i] == amends[..i];
      PrefixFolds(inp, initial, order, amends, i + 1);
      assert Fold(inp, initial, order, amends[..i + 1]) == FoldOne(inp, s, amend);
      var bases := amend.body.bases;
      if amend.height < inp.hAct2 {
        ignored := ignored + [IgnoredAmend(amend.pin, BelowHAct2)];
      } else if amend.author != inp.rootAuthor {
        ignored := ignored + [IgnoredAmend(amend.pin, NotPublisher)];
      } else if inp.rootVerified {
        ignored := ignored + [IgnoredAmend(amend.pin, TaskFinalized)];
      } else if bases != head {
        ignored := ignored + [IgnoredAmend(amend.pin, if bases in taken then Conflict else Stale)];
      } else {
        taken := taken + {bases};
        var ok, scratch, scratchOrder := RunOps(inp, nodes, nodeOrder, KeyOf(amend), amend.body.ops);
        if ok {
          var total := SumWeights(scratch);
          var acyclic := IsAcyclic(scratch);
          ok := total == TREE_WEIGHT_TOTAL && acyclic;
        }
        if ok {
          nodes, nodeOrder, head := scratch, scratchOrder, amend.pin;
        } else {
          ignored := ignored + [IgnoredAmend(amend.pin, InvariantViolation)];
        }
      }
    }
    assert amends[..|amends|] == amends;
  }

  // ------------------------------------------------------------------
  // A fold that has no end
  // ------------------------------------------------------------------

  const ROOT := TreeNode("r", None, "", "proof", None, Some(5000.0))
  const MIDDLE := TreeNode("x", Some("r"), "", "proof", None, Some(1000.0))
  const LEAF := TreeNode("c", Some("x"), "", "proof", None, Some(4000.0))
  const LOOPED_INPUTS := FoldInputs("publisher", "tree", map[], {}, {}, false, 100)

  /** Drops the middle node, leaving the leaf on a missing parent. */
  const DROP_MIDDLE := ChainEvent("a1", "publisher", 100, 0, 0,
    Amend("task", "tree", [RemoveNode("x"), Reweight("c", Some(5000.0))]))

  /** Brings the id back as a child of its own child, and removes it again. */
  const LOOP_MIDDLE := ChainEvent("a2", "publisher", 100, 1, 0,
    Amend("task", "a1", [AddNode(Some(RawNode("x", "c", "", "", None, Some(1.0)))), RemoveNode("x")]))

  const INITIAL_TREE: Tree := map["r" := ROOT, "x" := MIDDLE, "c" := LEAF]

  /** After the first amend, re-adding the dropped id under its orphan closes a loop. */
  lemma ReaddedParentLoops(nodes: Tree)
    requires Named(nodes) && "x" in nodes && "c" in nodes
    requires nodes["x"].parent == Some("c") && nodes["c"].parent == Some("x")
    ensures OnCycle(nodes, "x")
  {
    assert Up(nodes, "x") == "c" && Up(nodes, "c") == "x";
    assert Climb(nodes, "x", 2) == Climb(nodes, "c", 1) == Climb(nodes, "x", 0);
  }

  lemma InitialTreeIsSound()
    ensures TreeOk(INITIAL_TREE, ["r", "x", "c"]) && Acyclic(INITIAL_TREE)
  {
    var t := INITIAL_TREE;
    assert Climb(t, "r", 1) == Climb(t, "", 0);
    assert Climb(t, "x", 2) == Climb(t, "r", 1);
    assert Climb(t, "c", 3) == Climb(t, "x", 2);
  }

  /** It happens: on an acyclic published tree of total weight 10000, two amends by
      its publisher hang the fold. */
  lemma FoldCanHang()
    ensures TreeOk(INITIAL_TREE, ["r", "x", "c"]) && Acyclic(INITIAL_TREE)
    ensures AllAmends([DROP_MIDDLE, LOOP_MIDDLE]) && Ordered([DROP_MIDDLE, LOOP_MIDDLE])
    ensures Fold(LOOPED_INPUTS, INITIAL_TREE, ["r", "x", "c"], [DROP_MIDDLE, LOOP_MIDDLE]).Hung?
  {
    InitialTreeIsSound();
    LoopsOn(INITIAL_TREE, ["r", "x", "c"], [DROP_MIDDLE, LOOP_MIDDLE]);
  }

  lemma LoopsOn(t: Tree, order: seq<string>, amends: seq<ChainEvent>)
    requires t == INITIAL_TREE && order == ["r", "x", "c"]
    requires |amends| == 2 && amends[0] == DROP_MIDDLE && amends[1] == LOOP_MIDDLE
    ensures Fold(LOOPED_INPUTS, t, order, amends).Hung?
  {
    var inp := LOOPED_INPUTS;
    assert FrozenAt(inp, KeyOf(DROP_MIDDLE)) == {} && FrozenAt(inp, KeyOf(LOOP_MIDDLE)) == {};
    var t1: Tree := map["r" := ROOT, "c" := LEAF];
    var t2: Tree := map["r" := ROOT, "c" := LEAF.(weight := Some(5000.0))];
    assert amends[..1][..0] == [];
    var s0 := Fold(inp, t, order, []);
    var s1 := FoldOne(inp, s0, DROP_MIDDLE);
    assert s1.Folding? && s1.nodes == t2 && s1.head == "a1" by {
      DroppedMiddle(inp, t, t1, t2);
    }
    assert Fold(inp, t, order, amends[..1]) == s1;
    assert FoldOne(inp, s1, LOOP_MIDDLE).Hung? by {
      LoopedMiddle(t2, s1.order);
    }
  }

  lemma LoopedMiddle(t2: Tree, order: seq<string>)
    requires t2 == map["r" := ROOT, "c" := LEAF.(weight := Some(5000.0))]
    ensures ApplyOps(LOOPED_INPUTS, t2, {}, t2, order, LOOP_MIDDLE.body.ops).Hangs?
  {
    var ops := LOOP_MIDDLE.body.ops;
    var t3 := t2["x" := NodeOf(RawNode("x", "c", "", "", None, Some(1.0)))];
    ReaddedParentLoops(t3);
    assert ops[1..] == [RemoveNode("x")];
    assert ApplyOp(LOOPED_INPUTS, t2, {}, t2, order, ops[0]) == Done(t3, order + ["x"]);
  }

  lemma DroppedMiddle(inp: FoldInputs, t: Tree, t1: Tree, t2: Tree)
    requires inp == LOOPED_INPUTS && t == INITIAL_TREE
    requires t1 == map["r" := ROOT, "c" := LEAF] && t2 == map["r" := ROOT, "c" := LEAF.(weight := Some(5000.0))]
    ensures var r := ApplyOps(inp, t, {}, t, ["r", "x", "c"], DROP_MIDDLE.body.ops);
            r.Done? && r.nodes == t2 && Acceptable(r)
  {
    var ops := DROP_MIDDLE.body.ops;
    assert Climb(t, "r", 1) == Climb(t, "", 0);
    assert Climb(t, "x", 2) == Climb(t, "r", 1);
    EndsIsOffCycle(t, "x");
    assert t - {"x"} == t1;
    var order1 := Without(["r", "x", "c"], "x");
    assert ApplyOp(inp, t, {}, t, ["r", "x", "c"], ops[0]) == Done(t1, order1);
    assert ops[1..] == [Reweight("c", Some(5000.0))];
    assert t1["c" := t1["c"].(weight := Some(5000.0))] == t2;
    assert ApplyOp(inp, t, {}, t1, order1, ops[1]) == Done(t2, order1);
    assert ops[1..][1..] == [];
    assert t2.Keys == {"r", "c"};
    SumFromAny(t2, t2.Keys, "r");
    assert t2.Keys - {"r"} == {"c"};
    SumFromAny(t2, {"c"}, "c");
    assert {"c"} - {"c"} == {};
    assert Climb(t2, "r", 1) == Climb(t2, "", 0);
    assert Up(t2, "x") == "";
    assert Climb(t2, "c", 2) == Climb(t2, "x", 1) == Climb(t2, "", 0);
  }
}
