/** Whether the amend fold is the same for both passes of the walk
    (internal/metatask/v121.go:969-982, 1286-1298): folded under inputs that know
    of fewer claims and verdicts, an amend that was refused may go through. */
module AmendPasses {
  import opened ChainEvents
  import opened TreeShape
  import opened AmendFold

  /** The same task, with some claims, holders and verified nodes unknown. */
  ghost predicate Laxer(inp: FoldInputs, lax: FoldInputs) {
    && lax.rootAuthor == inp.rootAuthor && lax.treePin == inp.treePin && lax.hAct2 == inp.hAct2
    && lax.verified <= inp.verified && lax.active <= inp.active
    && (forall id :: id in lax.firstClaim ==> id in inp.firstClaim && lax.firstClaim[id] == inp.firstClaim[id])
    && (lax.rootVerified ==> inp.rootVerified)
  }

  lemma FewerFrozen(inp: FoldInputs, lax: FoldInputs, key: OrdKey)
    requires Laxer(inp, lax)
    ensures FrozenAt(lax, key) <= FrozenAt(inp, key)
  {
  }

  // ------------------------------------------------------------------
  // One amend
  // ------------------------------------------------------------------

  /** What goes through goes through alike, and what has no end has none. */
  ghost predicate Follows(r: OpResult, l: OpResult) {
    (r.Done? ==> l == r) && (r.Hangs? ==> l.Hangs?)
  }

  lemma LaxRemove(nodes: Tree, order: seq<string>, frozen: set<string>, fewer: set<string>, id: string)
    requires Named(nodes) && fewer <= frozen
    ensures Follows(RemoveOp(nodes, order, frozen, id), RemoveOp(nodes, order, fewer, id))
  {
    if id in nodes && OnCycle(nodes, id) && FrozenAbove(nodes, id, frozen) {
      FrozenCycleIsRefused(nodes, order, frozen, id);
    }
  }

  lemma LaxOp(inp: FoldInputs, lax: FoldInputs, pre: Tree, frozen: set<string>, fewer: set<string>, nodes: Tree, order: seq<string>, op: AmendOp)
    requires Laxer(inp, lax) && Named(nodes) && fewer <= frozen
    ensures Follows(ApplyOp(inp, pre, frozen, nodes, order, op), ApplyOp(lax, pre, fewer, nodes, order, op))
  {
    if op.RemoveNode? {
      LaxRemove(nodes, order, frozen, fewer, op.node);
    }
  }

  lemma {:induction false} LaxOps(inp: FoldInputs, lax: FoldInputs, pre: Tree, frozen: set<string>, fewer: set<string>,
                                  nodes: Tree, order: seq<string>, ops: seq<AmendOp>)
    requires Laxer(inp, lax) && TreeOk(nodes, order) && fewer <= frozen
    ensures Follows(ApplyOps(inp, pre, frozen, nodes, order, ops), ApplyOps(lax, pre, fewer, nodes, order, ops))
    decreases |ops|
  {
    if ops != [] {
      LaxOp(inp, lax, pre, frozen, fewer, nodes, order, ops[0]);
      OpKeepsTree(inp, pre, frozen, nodes, order, ops[0]);
      var r := ApplyOp(inp, pre, frozen, nodes, order, ops[0]);
      if r.Done? {
        LaxOps(inp, lax, pre, frozen, fewer, r.nodes, r.order, ops[1..]);
      }
    }
  }

  lemma LaxAmend(inp: FoldInputs, lax: FoldInputs, s: FoldState, amend: ChainEvent)
    requires Laxer(inp, lax) && s.Folding? && TreeOk(s.nodes, s.order) && amend.body.Amend?
    ensures Follows(OpsOf(inp, s, amend), OpsOf(lax, s, amend))
  {
    var key := KeyOf(amend);
    FewerFrozen(inp, lax, key);
    LaxOps(inp, lax, s.nodes, FrozenAt(inp, key), FrozenAt(lax, key), s.nodes, s.order, amend.body.ops);
  }

  /** The gates reach the one that asks whether the task is final, and it is only
      under the stricter inputs. */
  ghost predicate OnlyFinal(inp: FoldInputs, lax: FoldInputs, amend: ChainEvent) {
    amend.height >= inp.hAct2 && amend.author == inp.rootAuthor && inp.rootVerified && !lax.rootVerified
  }

  /** The amend passes the gates, one of its operations is refused, and under the
      laxer inputs all of them go through to a tree the fold accepts, or have no end. */
  ghost predicate LetThrough(inp: FoldInputs, lax: FoldInputs, s: FoldState, amend: ChainEvent)
    requires s.Folding? && amend.body.Amend?
  {
    && GateOf(inp, s, amend).None? && OpsOf(inp, s, amend).Refused?
    && (Acceptable(OpsOf(lax, s, amend)) || OpsOf(lax, s, amend).Hangs?)
  }

  ghost predicate Differs(inp: FoldInputs, lax: FoldInputs, s: FoldState, amend: ChainEvent)
    requires s.Folding? && amend.body.Amend?
  {
    OnlyFinal(inp, lax, amend) || LetThrough(inp, lax, s, amend)
  }

  lemma GatesAlike(inp: FoldInputs, lax: FoldInputs, s: FoldState, amend: ChainEvent)
    requires Laxer(inp, lax) && s.Folding? && amend.body.Amend?
    ensures GateOf(lax, s, amend) == GateOf(inp, s, amend) <==> !OnlyFinal(inp, lax, amend)
    ensures OnlyFinal(inp, lax, amend) ==> GateOf(inp, s, amend) == Some(TaskFinalized)
  {
  }

  ghost predicate SameLists(s: FoldState, t: FoldState) {
    s.Folding? && t.Folding? && s.accepted == t.accepted && s.ignored == t.ignored
  }

  lemma StepDiffers(inp: FoldInputs, lax: FoldInputs, s: FoldState, amend: ChainEvent)
    requires Laxer(inp, lax) && s.Folding? && TreeOk(s.nodes, s.order) && amend.body.Amend?
    ensures FoldOne(inp, s, amend) == FoldOne(lax, s, amend) <==> !Differs(inp, lax, s, amend)
  {
    GatesAlike(inp, lax, s, amend);
    if OnlyFinal(inp, lax, amend) {
      FinalDiffers(inp, lax, s, amend);
    } else if GateOf(inp, s, amend).None? {
      LaxAmend(inp, lax, s, amend);
      OneVerdict(inp, s, amend);
      OneVerdict(lax, s, amend);
    }
  }

  lemma FinalDiffers(inp: FoldInputs, lax: FoldInputs, s: FoldState, amend: ChainEvent)
    requires s.Folding? && amend.body.Amend?
    requires GateOf(inp, s, amend) == Some(TaskFinalized) && GateOf(lax, s, amend) != Some(TaskFinalized)
    ensures !SameLists(FoldOne(inp, s, amend), FoldOne(lax, s, amend))
  {
    OneVerdict(inp, s, amend);
    OneVerdict(lax, s, amend);
    assert FoldOne(inp, s, amend).ignored[|s.ignored|].reason == TaskFinalized;
  }

  /** What one amend adds to the two lists. */
  lemma OneVerdict(inp: FoldInputs, s: FoldState, amend: ChainEvent)
    requires s.Folding? && amend.body.Amend?
    ensures var s', gate, r := FoldOne(inp, s, amend), GateOf(inp, s, amend), OpsOf(inp, s, amend);
            if gate.Some? then s' == Skip(s, amend, gate.value)
            else if r.Hangs? then s'.Hung?
            else if Acceptable(r) then s'.Folding? && s'.accepted == s.accepted + [amend] && s'.ignored == s.ignored
            else s'.Folding? && s'.accepted == s.accepted && s'.ignored == s.ignored + [IgnoredAmend(amend.pin, InvariantViolation)]
  {
  }

  // ------------------------------------------------------------------
  // Whole folds
  // ------------------------------------------------------------------

  /** An amend ends up at the end of exactly one of the lists. */
  lemma OneListGrows(inp: FoldInputs, s: FoldState, amend: ChainEvent)
    requires s.Folding? && amend.body.Amend? && FoldOne(inp, s, amend).Folding?
    ensures var s' := FoldOne(inp, s, amend);
            || (s'.accepted == s.accepted + [amend] && s'.ignored == s.ignored)
            || (s'.accepted == s.accepted && |s'.ignored| == |s.ignored| + 1 && s'.ignored[..|s.ignored|] == s.ignored)
  {
    OneVerdict(inp, s, amend);
  }

  lemma SameBefore(s: FoldState, t: FoldState, s': FoldState, t': FoldState, amend: ChainEvent)
    requires s.Folding? && t.Folding? && SameLists(s', t') && amend !in s.accepted && amend !in t.accepted
    requires (s'.accepted == s.accepted + [amend] && s'.ignored == s.ignored)
          || (s'.accepted == s.accepted && |s'.ignored| == |s.ignored| + 1 && s'.ignored[..|s.ignored|] == s.ignored)
    requires (t'.accepted == t.accepted + [amend] && t'.ignored == t.ignored)
          || (t'.accepted == t.accepted && |t'.ignored| == |t.ignored| + 1 && t'.ignored[..|t.ignored|] == t.ignored)
    ensures SameLists(s, t)
  {
    assert s'.accepted != s.accepted ==> s'.accepted[|s.accepted|] == amend;
    assert t'.accepted != t.accepted ==> t'.accepted[|t.accepted|] == amend;
    assert s'.accepted != s.accepted ==> s'.accepted[..|s.accepted|] == s.accepted;
    assert t'.accepted != t.accepted ==> t'.accepted[..|t.accepted|] == t.accepted;
  }

  lemma DifferenceShows(inp: FoldInputs, lax: FoldInputs, s: FoldState, amend: ChainEvent)
    requires Laxer(inp, lax) && s.Folding? && TreeOk(s.nodes, s.order) && amend.body.Amend?
    requires SameLists(FoldOne(inp, s, amend), FoldOne(lax, s, amend))
    ensures !Differs(inp, lax, s, amend)
  {
    OneVerdict(inp, s, amend);
    OneVerdict(lax, s, amend);
    GatesAlike(inp, lax, s, amend);
    ReasonsTell(inp, lax, s, amend);
  }

  lemma ReasonsTell(inp: FoldInputs, lax: FoldInputs, s: FoldState, amend: ChainEvent)
    requires s.Folding? && amend.body.Amend? && SameLists(FoldOne(inp, s, amend), FoldOne(lax, s, amend))
    ensures GateOf(inp, s, amend) == Some(TaskFinalized) ==> GateOf(lax, s, amend) == Some(TaskFinalized)
  {
    if GateOf(lax, s, amend) != Some(TaskFinalized) && GateOf(inp, s, amend) == Some(TaskFinalized) {
      FinalDiffers(inp, lax, s, amend);
    }
  }

  /** The fold of the first `i` amends has an end, and the `i`-th fares differently. */
  ghost predicate DiffersAt(inp: FoldInputs, lax: FoldInputs, initial: Tree, order: seq<string>, amends: seq<ChainEvent>, i: nat)
    requires AllAmends(amends)
  {
    && i < |amends|
    && var s := Fold(inp, initial, order, amends[..i]);
       s.Folding? && Differs(inp, lax, s, amends[i])
  }

  lemma DiffersInFront(inp: FoldInputs, lax: FoldInputs, initial: Tree, order: seq<string>, amends: seq<ChainEvent>, n: nat, i: nat)
    requires AllAmends(amends) && i < n <= |amends|
    ensures DiffersAt(inp, lax, initial, order, amends[..n], i) <==> DiffersAt(inp, lax, initial, order, amends, i)
  {
    assert amends[..n][..i] == amends[..i];
  }

  lemma {:induction false} AlikeFoldsAlike(inp: FoldInputs, lax: FoldInputs, initial: Tree, order: seq<string>, amends: seq<ChainEvent>)
    requires Laxer(inp, lax) && AllAmends(amends) && TreeOk(initial, order)
    requires forall i: nat :: !DiffersAt(inp, lax, initial, order, amends, i)
    ensures Fold(inp, initial, order, amends) == Fold(lax, initial, order, amends)
  {
    if amends != [] {
      var n := |amends| - 1;
      forall i: nat
        ensures !DiffersAt(inp, lax, initial, order, amends[..n], i)
      {
        if i < n {
          DiffersInFront(inp, lax, initial, order, amends, n, i);
        }
      }
      AlikeFoldsAlike(inp, lax, initial, order, amends[..n]);
      LastAlike(inp, lax, initial, order, amends, n);
    }
  }

  lemma LastAlike(inp: FoldInputs, lax: FoldInputs, initial: Tree, order: seq<string>, amends: seq<ChainEvent>, n: nat)
    requires Laxer(inp, lax) && AllAmends(amends) && TreeOk(initial, order) && n + 1 == |amends|
    requires Fold(inp, initial, order, amends[..n]) == Fold(lax, initial, order, amends[..n])
    requires !DiffersAt(inp, lax, initial, order, amends, n)
    ensures Fold(inp, initial, order, amends) == Fold(lax, initial, order, amends)
  {
    FoldKeepsTree(inp, initial, order, amends[..n]);
    var s := Fold(inp, initial, order, amends[..n]);
    if s.Folding? {
      StepDiffers(inp, lax, s, amends[n]);
    }
  }

  lemma NotYetAccepted(inp: FoldInputs, initial: Tree, order: seq<string>, amends: seq<ChainEvent>, n: nat)
    requires AllAmends(amends) && DistinctPins(amends) && n + 1 == |amends| && Fold(inp, initial, order, amends[..n]).Folding?
    ensures amends[n] !in Fold(inp, initial, order, amends[..n]).accepted
  {
    EveryAmendCountsOnce(inp, initial, order, amends[..n]);
    var accepted := Fold(inp, initial, order, amends[..n]).accepted;
    forall e | e in accepted
      ensures e.pin != amends[n].pin
    {
      assert e in multiset(accepted);
      assert e in multiset(amends[..n]);
    }
  }

  lemma SameListsBefore(inp: FoldInputs, lax: FoldInputs, initial: Tree, order: seq<string>, amends: seq<ChainEvent>, n: nat)
    requires AllAmends(amends) && DistinctPins(amends) && n + 1 == |amends|
    requires SameLists(Fold(inp, initial, order, amends), Fold(lax, initial, order, amends))
    ensures SameLists(Fold(inp, initial, order, amends[..n]), Fold(lax, initial, order, amends[..n]))
  {
    var s, t := Fold(inp, initial, order, amends[..n]), Fold(lax, initial, order, amends[..n]);
    NotYetAccepted(inp, initial, order, amends, n);
    NotYetAccepted(lax, initial, order, amends, n);
    OneListGrows(inp, s, amends[n]);
    OneListGrows(lax, t, amends[n]);
    SameBefore(s, t, FoldOne(inp, s, amends[n]), FoldOne(lax, t, amends[n]), amends[n]);
  }

  lemma {:induction false} SameListsAlike(inp: FoldInputs, lax: FoldInputs, initial: Tree, order: seq<string>, amends: seq<ChainEvent>, i: nat)
    requires Laxer(inp, lax) && AllAmends(amends) && TreeOk(initial, order) && DistinctPins(amends)
    requires SameLists(Fold(inp, initial, order, amends), Fold(lax, initial, order, amends))
    ensures !DiffersAt(inp, lax, initial, order, amends, i)
    decreases |amends|
  {
    if i < |amends| {
      var n := |amends| - 1;
      SameListsBefore(inp, lax, initial, order, amends, n);
      forall j: nat
        ensures !DiffersAt(inp, lax, initial, order, amends[..n], j)
      {
        SameListsAlike(inp, lax, initial, order, amends[..n], j);
      }
      if i < n {
        DiffersInFront(inp, lax, initial, order, amends, n, i);
      } else {
        AlikeFoldsAlike(inp, lax, initial, order, amends[..n]);
        LastDoesNotDiffer(inp, lax, initial, order, amends, n);
      }
    }
  }

  lemma LastDoesNotDiffer(inp: FoldInputs, lax: FoldInputs, initial: Tree, order: seq<string>, amends: seq<ChainEvent>, n: nat)
    requires Laxer(inp, lax) && AllAmends(amends) && TreeOk(initial, order) && n + 1 == |amends|
    requires Fold(inp, initial, order, amends[..n]) == Fold(lax, initial, order, amends[..n])
    requires SameLists(Fold(inp, initial, order, amends), Fold(lax, initial, order, amends))
    ensures !DiffersAt(inp, lax, initial, order, amends, n)
  {
    FoldKeepsTree(inp, initial, order, amends[..n]);
    DifferenceShows(inp, lax, Fold(inp, initial, order, amends[..n]), amends[n]);
  }

  /** A fold with an end comes out the same under laxer inputs, its tree, its head
      and its reasons for ignoring included, exactly when no amend fares differently. */
  lemma FoldsAgree(inp: FoldInputs, lax: FoldInputs, initial: Tree, order: seq<string>, amends: seq<ChainEvent>)
    requires Laxer(inp, lax) && AllAmends(amends) && TreeOk(initial, order) && DistinctPins(amends)
    requires Fold(inp, initial, order, amends).Folding?
    ensures Fold(inp, initial, order, amends) == Fold(lax, initial, order, amends)
      <==> forall i: nat :: !DiffersAt(inp, lax, initial, order, amends, i)
  {
    if forall i: nat :: !DiffersAt(inp, lax, initial, order, amends, i) {
      AlikeFoldsAlike(inp, lax, initial, order, amends);
    } else if Fold(inp, initial, order, amends) == Fold(lax, initial, order, amends) {
      forall i: nat
        ensures !DiffersAt(inp, lax, initial, order, amends, i)
      {
        SameListsAlike(inp, lax, initial, order, amends, i);
      }
      assert false;
    }
  }

  // ------------------------------------------------------------------
  // What only some nodes' claims and verdicts tell
  // ------------------------------------------------------------------

  /** The inputs as far as they are about `nodes`; `root` is the declared root. */
  function Narrowed(inp: FoldInputs, nodes: set<string>, root: string): FoldInputs {
    inp.(firstClaim := map id | id in inp.firstClaim && id in nodes :: inp.firstClaim[id],
         verified := inp.verified * nodes, active := inp.active * nodes,
         rootVerified := inp.rootVerified && root in nodes)
  }

  lemma NarrowedIsLaxer(inp: FoldInputs, nodes: set<string>, root: string)
    ensures Laxer(inp, Narrowed(inp, nodes, root))
    ensures forall key :: FrozenAt(Narrowed(inp, nodes, root), key) == FrozenAt(inp, key) * nodes
  {
  }

  ghost predicate FrozenOutside(nodes: set<string>, frozen: set<string>, id: string) {
    id in frozen && id !in nodes
  }

  /** The operation meets a claim or a verdict on a node outside `nodes`. */
  ghost predicate MeetsOutside(inp: FoldInputs, nodes: set<string>, frozen: set<string>, scratch: Tree, op: AmendOp) {
    match op
    case AddNode(raw) => raw.Some? && raw.value.parent in inp.verified + inp.active && raw.value.parent !in nodes
    case RemoveNode(id) => exists f :: FrozenOutside(nodes, frozen, f) && Below(scratch, id, f)
    case Reweight(id, _) => FrozenOutside(nodes, frozen, id)
    case Retitle(id, _) => FrozenOutside(nodes, frozen, id)
    case Respec(id, _) => FrozenOutside(nodes, frozen, id)
    case UnknownOp => false
  }

  lemma RemoveAlike(nodes: set<string>, scratch: Tree, order: seq<string>, frozen: set<string>, id: string)
    requires Named(scratch) && !exists f :: FrozenOutside(nodes, frozen, f) && Below(scratch, id, f)
    ensures RemoveOp(scratch, order, frozen, id) == RemoveOp(scratch, order, frozen * nodes, id)
  {
    if id in scratch {
      assert FrozenBelow(scratch, id, frozen) <==> FrozenBelow(scratch, id, frozen * nodes) by {
        if f :| f in frozen && Below(scratch, id, f) {
          assert !FrozenOutside(nodes, frozen, f);
        }
      }
      if OnCycle(scratch, id) && FrozenAbove(scratch, id, frozen) {
        FrozenCycleIsRefused(scratch, order, frozen, id);
        AboveIsBelow(scratch, id, frozen, nodes);
      }
    }
  }

  /** On a cycle what is above is below. */
  lemma AboveIsBelow(scratch: Tree, id: string, frozen: set<string>, nodes: set<string>)
    requires Named(scratch) && id in scratch && OnCycle(scratch, id) && FrozenAbove(scratch, id, frozen)
    requires !exists f :: FrozenOutside(nodes, frozen, f) && Below(scratch, id, f)
    ensures FrozenAbove(scratch, id, frozen * nodes)
  {
    var k: nat :| Climb(scratch, id, k) in frozen;
    OnCycleIsBelow(scratch, id, k);
    assert !FrozenOutside(nodes, frozen, Climb(scratch, id, k));
  }

  lemma OpAlike(inp: FoldInputs, nodes: set<string>, root: string, pre: Tree, frozen: set<string>, scratch: Tree, order: seq<string>, op: AmendOp)
    requires Named(scratch) && !MeetsOutside(inp, nodes, frozen, scratch, op)
    ensures ApplyOp(inp, pre, frozen, scratch, order, op)
         == ApplyOp(Narrowed(inp, nodes, root), pre, frozen * nodes, scratch, order, op)
  {
    if op.RemoveNode? {
      RemoveAlike(nodes, scratch, order, frozen, op.node);
    }
  }

  /** The `j`-th operation is reached and meets a node outside. */
  ghost predicate OutsideAt(inp: FoldInputs, nodes: set<string>, pre: Tree, frozen: set<string>, scratch: Tree, order: seq<string>,
                            ops: seq<AmendOp>, j: nat)
  {
    && j < |ops|
    && var r := ApplyOps(inp, pre, frozen, scratch, order, ops[..j]);
       r.Done? && MeetsOutside(inp, nodes, frozen, r.nodes, ops[j])
  }

  lemma LaterOutside(inp: FoldInputs, nodes: set<string>, pre: Tree, frozen: set<string>, scratch: Tree, order: seq<string>,
                     ops: seq<AmendOp>, j: nat)
    requires ops != [] && ApplyOp(inp, pre, frozen, scratch, order, ops[0]).Done?
    ensures var r := ApplyOp(inp, pre, frozen, scratch, order, ops[0]);
            var later := OutsideAt(inp, nodes, pre, frozen, r.nodes, r.order, ops[1..], j);
            later ==> OutsideAt(inp, nodes, pre, frozen, scratch, order, ops, j + 1)
  {
    if j + 1 < |ops| {
      assert ops[..j + 1][0] == ops[0] && ops[..j + 1][1..] == ops[1..][..j];
    }
  }

  lemma {:induction false} OpsAlike(inp: FoldInputs, nodes: set<string>, root: string, pre: Tree, frozen: set<string>,
                                    scratch: Tree, order: seq<string>, ops: seq<AmendOp>)
    requires TreeOk(scratch, order)
    requires forall j: nat :: !OutsideAt(inp, nodes, pre, frozen, scratch, order, ops, j)
    ensures ApplyOps(inp, pre, frozen, scratch, order, ops)
         == ApplyOps(Narrowed(inp, nodes, root), pre, frozen * nodes, scratch, order, ops)
    decreases |ops|
  {
    if ops != [] {
      assert ops[..0] == [];
      assert !OutsideAt(inp, nodes, pre, frozen, scratch, order, ops, 0);
      OpAlike(inp, nodes, root, pre, frozen, scratch, order, ops[0]);
      OpKeepsTree(inp, pre, frozen, scratch, order, ops[0]);
      var r := ApplyOp(inp, pre, frozen, scratch, order, ops[0]);
      if r.Done? {
        forall j: nat
          ensures !OutsideAt(inp, nodes, pre, frozen, r.nodes, r.order, ops[1..], j)
        {
          LaterOutside(inp, nodes, pre, frozen, scratch, order, ops, j);
        }
        OpsAlike(inp, nodes, root, pre, frozen, r.nodes, r.order, ops[1..]);
      }
    }
  }

  /** The amend passes the gates, and an operation of it that is reached meets a
      claim or a verdict on a node outside `nodes`. */
  ghost predicate ReachesOutside(inp: FoldInputs, nodes: set<string>, s: FoldState, amend: ChainEvent)
    requires s.Folding? && amend.body.Amend?
  {
    && GateOf(inp, s, amend).None?
    && exists j: nat :: OutsideAt(inp, nodes, s.nodes, FrozenAt(inp, KeyOf(amend)), s.nodes, s.order, amend.body.ops, j)
  }

  lemma DifferenceReachesOutside(inp: FoldInputs, nodes: set<string>, root: string, s: FoldState, amend: ChainEvent)
    requires s.Folding? && TreeOk(s.nodes, s.order) && amend.body.Amend?
    requires LetThrough(inp, Narrowed(inp, nodes, root), s, amend)
    ensures ReachesOutside(inp, nodes, s, amend)
  {
    var key := KeyOf(amend);
    NarrowedIsLaxer(inp, nodes, root);
    if !ReachesOutside(inp, nodes, s, amend) {
      OpsAlike(inp, nodes, root, s.nodes, FrozenAt(inp, key), s.nodes, s.order, amend.body.ops);
    }
  }

  ghost predicate ReachesOutsideAt(inp: FoldInputs, nodes: set<string>, initial: Tree, order: seq<string>, amends: seq<ChainEvent>, i: nat)
    requires AllAmends(amends)
  {
    && i < |amends|
    && var s := Fold(inp, initial, order, amends[..i]);
       s.Folding? && ReachesOutside(inp, nodes, s, amends[i])
  }

  /** The fold comes out the same from what is known of `nodes` when it is not the
      verdict on a root outside them that closed it, and no amend that passes the
      gates meets a claim or a verdict on a node outside them. */
  lemma NothingOutsideAgrees(inp: FoldInputs, nodes: set<string>, root: string, initial: Tree, order: seq<string>, amends: seq<ChainEvent>)
    requires AllAmends(amends) && TreeOk(initial, order)
    requires inp.rootVerified ==> root in nodes
    requires forall i: nat :: !ReachesOutsideAt(inp, nodes, initial, order, amends, i)
    ensures Fold(inp, initial, order, amends) == Fold(Narrowed(inp, nodes, root), initial, order, amends)
  {
    var lax := Narrowed(inp, nodes, root);
    NarrowedIsLaxer(inp, nodes, root);
    forall i: nat
      ensures !DiffersAt(inp, lax, initial, order, amends, i)
    {
      if DiffersAt(inp, lax, initial, order, amends, i) {
        FoldKeepsTree(inp, initial, order, amends[..i]);
        DifferenceReachesOutside(inp, nodes, root, Fold(inp, initial, order, amends[..i]), amends[i]);
        assert ReachesOutsideAt(inp, nodes, initial, order, amends, i);
      }
    }
    AlikeFoldsAlike(inp, lax, initial, order, amends);
  }

  /** In the tree an amend finds, every frozen node stays to the end. So only a
      node that the amend itself adds can be frozen outside the final tree. */
  lemma FrozenOutsideIsNew(inp: FoldInputs, initial: Tree, order: seq<string>, amends: seq<ChainEvent>, i: nat, id: string)
    requires AllAmends(amends) && Ordered(amends) && TreeOk(initial, order) && i < |amends|
    requires Fold(inp, initial, order, amends).Folding?
    requires FrozenOutside(Fold(inp, initial, order, amends).nodes.Keys, FrozenAt(inp, KeyOf(amends[i])), id)
    ensures Fold(inp, initial, order, amends[..i]).Folding? && id !in Fold(inp, initial, order, amends[..i]).nodes
  {
    FrozenForever(inp, initial, order, amends, i);
  }

  // ------------------------------------------------------------------
  // A fold that differs
  // ------------------------------------------------------------------

  const TOP := TreeNode("r", None, "", "proof", None, Some(5000.0))
  const UNDER := TreeNode("x", Some("r"), "", "proof", None, Some(5000.0))
  const TWO_NODES: Tree := map["r" := TOP, "x" := UNDER]

  /** Adds a child under the node "x". */
  const GROW := ChainEvent("a0", "publisher", 100, 0, 0,
    Amend("task", "tree", [AddNode(Some(RawNode("y", "x", "", "", None, Some(1000.0)))), Reweight("x", Some(4000.0))]))

  /** Removes "x". */
  const PRUNE := ChainEvent("a1", "publisher", 100, 1, 0,
    Amend("task", "tree", [RemoveNode("x"), Reweight("r", Some(10000.0))]))

  /** "x" is held, by a claim later than both amends. */
  const HELD := FoldInputs("publisher", "tree", map["x" := OrdKey(101, 0, 0, "c1")], {}, {"x"}, false, 100)

  const PRUNED: Tree := map["r" := TOP.(weight := Some(10000.0))]
  const GROWN: Tree := map["r" := TOP, "x" := UNDER.(weight := Some(4000.0)),
                           "y" := TreeNode("y", Some("x"), "", "proof", None, Some(1000.0))]

  lemma PrunedIsSound(t: Tree)
    requires t == PRUNED
    ensures TotalWeight(t) == 10000 && Acyclic(t)
  {
    assert t.Keys == {"r"};
    SumFromAny(t, t.Keys, "r");
    assert t.Keys - {"r"} == {};
    assert Climb(t, "r", 1) == Climb(t, "", 0);
  }

  lemma GrownWeighs(t: Tree)
    requires t == GROWN
    ensures TotalWeight(t) == 10000
  {
    assert t.Keys == {"r", "x", "y"};
    SumFromAny(t, t.Keys, "r");
    assert t.Keys - {"r"} == {"x", "y"};
    SumFromAny(t, {"x", "y"}, "x");
    assert {"x", "y"} - {"x"} == {"y"};
    SumFromAny(t, {"y"}, "y");
    assert {"y"} - {"y"} == {};
  }

  lemma GrownIsAcyclic(t: Tree)
    requires t == GROWN
    ensures Acyclic(t)
  {
    assert Climb(t, "r", 1) == Climb(t, "", 0);
    assert Climb(t, "x", 2) == Climb(t, "r", 1);
    assert Climb(t, "y", 3) == Climb(t, "x", 2);
  }

  lemma Prunes(t: Tree, order: seq<string>, ops: seq<AmendOp>)
    requires t == TWO_NODES && order == ["r", "x"] && ops == PRUNE.body.ops
    ensures ApplyOps(HELD, t, {}, t, order, ops) == Done(PRUNED, ["r"])
  {
    assert Climb(t, "x", 2) == Climb(t, "r", 1) == Climb(t, "", 0);
    EndsIsOffCycle(t, "x");
    var t1: Tree := map["r" := TOP];
    assert t - {"x"} == t1;
    assert order[1..] == ["x"] && ["x"][1..] == [];
    assert Without(["x"], "x") == [];
    assert Without(order, "x") == ["r"];
    assert ApplyOp(HELD, t, {}, t, order, ops[0]) == Done(t1, ["r"]);
    assert ops[1..] == [Reweight("r", Some(10000.0))];
    assert ApplyOp(HELD, t, {}, t1, ["r"], ops[1]) == Done(PRUNED, ["r"]);
    assert ops[1..][1..] == [];
  }

  lemma GrowsTree(inp: FoldInputs, t: Tree, order: seq<string>, ops: seq<AmendOp>)
    requires inp.verified == inp.active == {} && t == TWO_NODES && order == ["r", "x"] && ops == GROW.body.ops
    ensures ApplyOps(inp, t, {}, t, order, ops) == Done(GROWN, ["r", "x", "y"])
  {
    var y := NodeOf(RawNode("y", "x", "", "", None, Some(1000.0)));
    var t1 := t["y" := y];
    assert ApplyOp(inp, t, {}, t, order, ops[0]) == Done(t1, order + ["y"]);
    assert ops[1..] == [Reweight("x", Some(4000.0))];
    assert order + ["y"] == ["r", "x", "y"];
    assert ApplyOp(inp, t, {}, t1, ["r", "x", "y"], ops[1]) == Done(GROWN, ["r", "x", "y"]);
    assert ops[1..][1..] == [];
  }

  lemma HeldRefusesGrowth(t: Tree, order: seq<string>)
    requires t == TWO_NODES
    ensures ApplyOps(HELD, t, {}, t, order, GROW.body.ops).Refused?
  {
  }

  /** The fold has an end, in this tree and with these amends ignored. */
  ghost predicate EndsIn(inp: FoldInputs, initial: Tree, order: seq<string>, amends: seq<ChainEvent>, tree: Tree,
                         ignored: seq<IgnoredAmend>)
  {
    && AllAmends(amends) && Fold(inp, initial, order, amends).Folding?
    && Fold(inp, initial, order, amends).nodes == tree && Fold(inp, initial, order, amends).ignored == ignored
  }

  /** The first amend is refused for its held parent and the second removes that parent. */
  lemma HeldFold(t: Tree, order: seq<string>, amends: seq<ChainEvent>)
    requires t == TWO_NODES && order == ["r", "x"] && |amends| == 2 && amends[0] == GROW && amends[1] == PRUNE
    ensures EndsIn(HELD, t, order, amends, PRUNED, [IgnoredAmend("a0", InvariantViolation)])
  {
    var none: seq<ChainEvent> := [];
    assert amends[..1][..0] == none && amends[..1][0] == GROW;
    assert FrozenAt(HELD, KeyOf(GROW)) == {} && FrozenAt(HELD, KeyOf(PRUNE)) == {};
    HeldRefusesGrowth(t, order);
    Prunes(t, order, PRUNE.body.ops);
    PrunedIsSound(PRUNED);
    var s1 := FoldOne(HELD, Fold(HELD, t, order, none), GROW);
    assert s1.Folding? && s1.nodes == t && s1.order == order && s1.head == "tree" && s1.accepted == none
      && s1.ignored == [IgnoredAmend("a0", InvariantViolation)];
    assert Fold(HELD, t, order, amends[..1]) == s1;
  }

  /** What is known of the tree that is left lets the first amend through. */
  lemma NarrowedFold(t: Tree, order: seq<string>, amends: seq<ChainEvent>)
    requires t == TWO_NODES && order == ["r", "x"] && |amends| == 2 && amends[0] == GROW && amends[1] == PRUNE
    ensures EndsIn(Narrowed(HELD, {"r"}, "r"), t, order, amends, GROWN, [IgnoredAmend("a1", Conflict)])
  {
    var inp := Narrowed(HELD, {"r"}, "r");
    var none: seq<ChainEvent> := [];
    assert amends[..1][..0] == none && amends[..1][0] == GROW;
    assert inp.verified == inp.active == {} && inp.firstClaim == map[];
    assert FrozenAt(inp, KeyOf(GROW)) == {};
    GrowsTree(inp, t, order, GROW.body.ops);
    GrownWeighs(GROWN);
    GrownIsAcyclic(GROWN);
    var s1 := FoldOne(inp, Fold(inp, t, order, none), GROW);
    assert s1.Folding? && s1.nodes == GROWN && s1.head == "a0" && s1.taken == {"tree"} && s1.accepted == [GROW];
    assert Fold(inp, t, order, amends[..1]) == s1;
  }

  /** The fold ends in the pruned tree, and from what is known of that in the grown one. */
  ghost predicate EndsApart(inp: FoldInputs, initial: Tree, order: seq<string>, amends: seq<ChainEvent>, root: string) {
    && EndsIn(inp, initial, order, amends, PRUNED, [IgnoredAmend("a0", InvariantViolation)])
    && EndsIn(Narrowed(inp, PRUNED.Keys, root), initial, order, amends, GROWN, [IgnoredAmend("a1", Conflict)])
  }

  lemma HeldEndsApart(inp: FoldInputs, initial: Tree, order: seq<string>, amends: seq<ChainEvent>, root: string)
    requires inp == HELD && initial == TWO_NODES && order == ["r", "x"] && root == "r"
    requires |amends| == 2 && amends[0] == GROW && amends[1] == PRUNE
    ensures EndsApart(inp, initial, order, amends, root)
  {
    HeldFold(initial, order, amends);
    assert PRUNED.Keys == {"r"};
    NarrowedFold(initial, order, amends);
  }
}
