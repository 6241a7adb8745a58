/** The comment on the two passes says that the amend fold comes out the same for
    both (internal/metatask/v121.go:969-982). Here is when it does, and an input for
    which it does not. */
module ReplayPasses {
  import opened ChainEvents
  import opened Walk
  import opened WalkGhosts
  import opened TreeShape
  import opened Replay
  import AmendFold
  import AmendPasses
  import WalkCycles
  import VotePrepass

  // ------------------------------------------------------------------
  // What the second pass knows
  // ------------------------------------------------------------------

  lemma {:induction false} ActiveKeyIsListed(order: seq<CycleKey>, n: string)
    ensures ActiveKey(order, n).Some? <==> exists key :: key in order && key.0 == n
    ensures ActiveKey(order, n).Some? ==> ActiveKey(order, n).value in order && ActiveKey(order, n).value.0 == n
  {
    if order != [] {
      ActiveKeyIsListed(order[..|order| - 1], n);
      assert order == order[..|order| - 1] + [order[|order| - 1]];
    }
  }

  lemma ActiveCyclesAgree(w: WalkState, nodes: set<string>, n: string)
    ensures n in ActiveCycles(Project(w, nodes)) <==> n in ActiveCycles(w) && n in nodes
    ensures n in ActiveCycles(w) && n in nodes ==> ActiveCycles(Project(w, nodes))[n] == ActiveCycles(w)[n]
  {
    var p := Project(w, nodes);
    ActiveKeyIsListed(w.cycleOrder, n);
    ActiveKeyIsListed(p.cycleOrder, n);
    if n in nodes {
      ActiveCycleAgrees(w.cycleOrder, nodes, n);
    } else {
      KeptAreIn(w.cycleOrder, nodes);
    }
  }

  lemma {:induction false} KeptAreIn(order: seq<CycleKey>, nodes: set<string>)
    ensures forall key :: key in KeepOrder(order, nodes) ==> key.0 in nodes
  {
    if order != [] {
      KeptAreIn(order[..|order| - 1], nodes);
    }
  }

  /** Every cycle's effective submission is a target on its own node. */
  ghost predicate EffectiveLive(w: WalkState) {
    forall key | key in w.cycles :: w.cycles[key].effective.pin in w.live && w.live[w.cycles[key].effective.pin] == key.0
  }

  lemma VerifiedAgree(w: WalkState, nodes: set<string>)
    requires EffectiveLive(w)
    ensures VoteVerified(Project(w, nodes)) == VoteVerified(w) * nodes
  {
    var p := Project(w, nodes);
    forall n
      ensures n in VoteVerified(p) <==> n in VoteVerified(w) && n in nodes
    {
      ActiveCyclesAgree(w, nodes, n);
      if n in ActiveCycles(w) && n in nodes {
        ActiveKeyIsListed(w.cycleOrder, n);
        var key := ActiveKey(w.cycleOrder, n).value;
        assert key in w.cycles && key.0 == n;
      }
    }
  }

  lemma PassIsLive(events: seq<ChainEvent>, o: Options, t: Terms)
    requires DistinctPins(events) && t.quorum >= 1
    ensures EffectiveLive(Replay.Pass(FeedOf(events, o.rootPin), t, o, None))
  {
    var f := FeedOf(events, o.rootPin);
    TimelineIsReplayable(events, o, t);
    var c, timeline := ConfigOf(f, t, o), Timeline(f, t, o);
    var w := Run(c, None, timeline);
    WalkCycles.RunKeepsInv(c, None, timeline);
    forall key | key in w.cycles
      ensures w.cycles[key].effective.pin in w.live && w.live[w.cycles[key].effective.pin] == key.0
    {
      var cycle := w.cycles[key];
      assert WalkCycles.Anchored(c, w.live, w.subCycle, key, cycle);
      assert cycle.submissions[|cycle.submissions| - 1].pin in WalkCycles.SubPins(cycle.submissions);
    }
  }

  /** The second pass tells the fold what the first does, as far as it is about the
      nodes of the effective tree. */
  lemma SecondInputs(events: seq<ChainEvent>, o: Options, t: Terms, s: AmendFold.FoldState)
    requires DistinctPins(events) && t.quorum >= 1 && s.Folding? && TreePinOf(FeedOf(events, o.rootPin), t).Some?
    ensures var f := FeedOf(events, o.rootPin); var second := InputsFrom(f, t, o, SecondPass(f, t, o, s));
            second == AmendPasses.Narrowed(FoldInputsOf(f, t, o), s.nodes.Keys, DeclaredRoot(f, t))
  {
    var f := FeedOf(events, o.rootPin);
    PassesAgreeOnTheTree(events, o, t, s);
    PassIsLive(events, o, t);
    VerifiedAgree(Replay.Pass(f, t, o, None), s.nodes.Keys);
  }

  // ------------------------------------------------------------------
  // The fold fed by either pass
  // ------------------------------------------------------------------

  /** The fold that the second pass, inside the tree of the first fold, would feed. */
  ghost function SecondFold(f: Feed, t: Terms, o: Options): AmendFold.FoldState
    requires AmendFold.AllAmends(f.amends) && FoldOf(f, t, o).Folding?
  {
    var inputs := InputsFrom(f, t, o, SecondPass(f, t, o, FoldOf(f, t, o)));
    AmendFold.Fold(inputs, PublishedTree(f, t).0, PublishedTree(f, t).1, f.amends)
  }

  ghost function KnownInside(f: Feed, t: Terms, o: Options): AmendFold.FoldInputs
    requires AmendFold.AllAmends(f.amends) && FoldOf(f, t, o).Folding?
  {
    AmendPasses.Narrowed(FoldInputsOf(f, t, o), FoldOf(f, t, o).nodes.Keys, DeclaredRoot(f, t))
  }

  /** Both passes feed the same fold exactly when no amend fares differently for want
      of the claims and verdicts on nodes outside the effective tree. */
  lemma FoldsAgreeExactly(events: seq<ChainEvent>, o: Options, t: Terms)
    requires DistinctPins(events) && t.quorum >= 1 && TreePinOf(FeedOf(events, o.rootPin), t).Some?
    requires AmendFold.AllAmends(FeedOf(events, o.rootPin).amends) && FoldOf(FeedOf(events, o.rootPin), t, o).Folding?
    ensures var f := FeedOf(events, o.rootPin);
            var all, inside, tree := FoldInputsOf(f, t, o), KnownInside(f, t, o), PublishedTree(f, t);
            SecondFold(f, t, o) == FoldOf(f, t, o) <==> forall i: nat :: !AmendPasses.DiffersAt(all, inside, tree.0, tree.1, f.amends, i)
  {
    var f := FeedOf(events, o.rootPin);
    SecondInputs(events, o, t, FoldOf(f, t, o));
    PublishedIsOk(f, t);
    ScopedAre(events, PAmend, o.rootPin);
    AmendPasses.NarrowedIsLaxer(FoldInputsOf(f, t, o), FoldOf(f, t, o).nodes.Keys, DeclaredRoot(f, t));
    AmendPasses.FoldsAgree(FoldInputsOf(f, t, o), KnownInside(f, t, o), PublishedTree(f, t).0, PublishedTree(f, t).1, f.amends);
  }

  /** In particular when the root the tree declares is in it, and no amend that
      passes the gates adds under a held or verified node outside the effective
      tree or meets a frozen one there. */
  lemma FoldsAgreeInside(events: seq<ChainEvent>, o: Options, t: Terms)
    requires DistinctPins(events) && t.quorum >= 1 && TreePinOf(FeedOf(events, o.rootPin), t).Some?
    requires AmendFold.AllAmends(FeedOf(events, o.rootPin).amends) && FoldOf(FeedOf(events, o.rootPin), t, o).Folding?
    requires var f := FeedOf(events, o.rootPin); var nodes := FoldOf(f, t, o).nodes.Keys;
      && (FoldInputsOf(f, t, o).rootVerified ==> DeclaredRoot(f, t) in nodes)
      && forall i: nat :: !AmendPasses.ReachesOutsideAt(FoldInputsOf(f, t, o), nodes, PublishedTree(f, t).0, PublishedTree(f, t).1,
                                                        f.amends, i)
    ensures var f := FeedOf(events, o.rootPin); SecondFold(f, t, o) == FoldOf(f, t, o)
  {
    var f := FeedOf(events, o.rootPin);
    SecondInputs(events, o, t, FoldOf(f, t, o));
    PublishedIsOk(f, t);
    AmendPasses.NothingOutsideAgrees(FoldInputsOf(f, t, o), FoldOf(f, t, o).nodes.Keys, DeclaredRoot(f, t),
                                     PublishedTree(f, t).0, PublishedTree(f, t).1, f.amends);
  }

  // ------------------------------------------------------------------
  // A task for which they differ
  // ------------------------------------------------------------------

  const TASK := ChainEvent("task", "publisher", 1, 0, 0, Task("tree", "", Policy(None, None, None, None)))
  const PUBLISHED := ChainEvent("tree", "publisher", 2, 0, 0,
    Tree([RawTreeNode("r", None, "", "proof", None, Some(5000.0)), RawTreeNode("x", Some("r"), "", "proof", None, Some(5000.0))], "r"))
  const CLAIM_X := ChainEvent("c1", "worker", 101, 0, 0, Claim("task", "x"))
  const OPTIONS := Options("task", None, 0, 100, [], false)

  /** The events of a path in chain order are what its scope is. */
  lemma ScopedIs(events: seq<ChainEvent>, path: Path, rootPin: string, chosen: seq<ChainEvent>)
    requires DistinctPins(events) && DistinctPins(chosen) && Ordered(chosen)
    requires forall e :: e in chosen <==> e in events && InScope(e, path, rootPin)
    ensures Scoped(events, path, rootPin) == chosen
  {
    ScopedAre(events, path, rootPin);
    VotePrepass.SameMembersSameMultiset(Scoped(events, path, rootPin), chosen);
    OrderedIsUnique(Scoped(events, path, rootPin), chosen);
  }

  function GhostScope(path: Path): seq<ChainEvent> {
    match path
    case PTask => [TASK]
    case PTree => [PUBLISHED]
    case PClaim => [CLAIM_X]
    case PAmend => [AmendPasses.GROW, AmendPasses.PRUNE]
    case _ => []
  }

  lemma GhostScopeIs(events: seq<ChainEvent>, path: Path)
    requires DistinctPins(events)
    requires forall e :: e in events <==> e in {TASK, PUBLISHED, AmendPasses.GROW, AmendPasses.PRUNE, CLAIM_X}
    ensures Scoped(events, path, "task") == GhostScope(path)
  {
    assert KeyLess(KeyOf(AmendPasses.GROW), KeyOf(AmendPasses.PRUNE));
    ScopedIs(events, path, "task", GhostScope(path));
  }

  lemma GhostFeed(events: seq<ChainEvent>)
    requires DistinctPins(events)
    requires forall e :: e in events <==> e in {TASK, PUBLISHED, AmendPasses.GROW, AmendPasses.PRUNE, CLAIM_X}
    ensures IsGhostFeed(FeedOf(events, "task"))
  {
    GhostScopeIs(events, PTask);
    GhostScopeIs(events, PTree);
    GhostScopeIs(events, PSpec);
    GhostScopeIs(events, PClaim);
    GhostScopeIs(events, PRelease);
    GhostScopeIs(events, PSubmission);
    GhostScopeIs(events, PVerify);
    GhostScopeIs(events, PAmend);
    GhostScopeIs(events, PChallenge);
  }

  predicate IsGhostFeed(f: Feed) {
    f == Feed([TASK], [PUBLISHED], [], [CLAIM_X], [], [], [], [AmendPasses.GROW, AmendPasses.PRUNE], [])
  }

  lemma RawTree(raw: seq<RawTreeNode>)
    requires raw == PUBLISHED.body.rawNodes
    ensures InitialTree(raw) == (AmendPasses.TWO_NODES, ["r", "x"])
  {
    var one := raw[..1];
    assert one[..0] == [] && InitialTree(one[..0]) == (map[], []);
    assert InitialTree(one).0 == map["r" := AmendPasses.TOP] && InitialTree(one).1 == ["r"];
    assert InitialTree(raw).0 == AmendPasses.TWO_NODES && InitialTree(raw).1 == ["r", "x"];
  }

  lemma GhostTree(f: Feed, t: Terms)
    requires f.trees == [PUBLISHED] && t.treeId == "tree"
    ensures TreePinOf(f, t) == Some(PUBLISHED) && DeclaredRoot(f, t) == "r"
    ensures PublishedTree(f, t) == (AmendPasses.TWO_NODES, ["r", "x"])
  {
    RawTree(PUBLISHED.body.rawNodes);
  }

  /** The unfiltered pass leaves the claim holding the node. */
  lemma GhostInputs(f: Feed, t: Terms)
    requires IsGhostFeed(f)
    requires t == TermsOf(TASK)
    ensures FoldInputsOf(f, t, OPTIONS) == AmendPasses.HELD
  {
    GhostTree(f, t);
    GhostTimeline(f, t);
    var c := ConfigOf(f, t, OPTIONS);
    assert [CLAIM_X][..0] == [];
    assert Run(c, None, []) == EMPTY_WALK;
    var w := Run(c, None, [CLAIM_X]);
    assert w.holders.Keys == {"x"} && w.firstClaim == map["x" := OrdKey(101, 0, 0, "c1")] && w.verifiedPins == {};
    assert VoteVerified(w) == {};
  }

  lemma GhostTimeline(f: Feed, t: Terms)
    requires f.claims == [CLAIM_X] && f.releases == f.submissions == f.verifies == []
    ensures Timeline(f, t, OPTIONS) == [CLAIM_X]
  {
    assert ActingVotes(f, t, OPTIONS) == [];
    var events := f.claims + f.releases + f.submissions + ActingVotes(f, t, OPTIONS);
    assert events == f.claims;
    SortSorts(events);
    DistinctFromMultiset(events, SortEvents(events));
    OrderedIsUnique(SortEvents(events), events);
  }

  /** The first pass feeds a fold that ends in the pruned tree, the second pass
      inside that tree one that ends in the grown tree. */
  ghost predicate Disagree(f: Feed, t: Terms, o: Options) {
    && AmendFold.AllAmends(f.amends) && FoldOf(f, t, o).Folding? && SecondFold(f, t, o).Folding?
    && FoldOf(f, t, o).nodes == AmendPasses.PRUNED && SecondFold(f, t, o).nodes == AmendPasses.GROWN
  }

  ghost predicate StagesEndApart(f: Feed, t: Terms, o: Options) {
    AmendPasses.EndsApart(FoldInputsOf(f, t, o), PublishedTree(f, t).0, PublishedTree(f, t).1, f.amends, DeclaredRoot(f, t))
  }

  lemma GhostStages(f: Feed, t: Terms, o: Options)
    requires IsGhostFeed(f) && t == TermsOf(TASK) && o == OPTIONS
    ensures t.quorum >= 1 && TreePinOf(f, t).Some? && StagesEndApart(f, t, o)
  {
    GhostTree(f, t);
    GhostInputs(f, t);
    AmendPasses.HeldEndsApart(FoldInputsOf(f, t, o), PublishedTree(f, t).0, PublishedTree(f, t).1, f.amends, DeclaredRoot(f, t));
  }

  lemma ApartDisagree(events: seq<ChainEvent>, t: Terms, o: Options)
    requires DistinctPins(events) && t.quorum >= 1 && TreePinOf(FeedOf(events, o.rootPin), t).Some?
    requires StagesEndApart(FeedOf(events, o.rootPin), t, o)
    ensures Disagree(FeedOf(events, o.rootPin), t, o)
  {
    var f := FeedOf(events, o.rootPin);
    assert FoldOf(f, t, o).Folding?;
    SecondInputs(events, o, t, FoldOf(f, t, o));
  }

  predicate IsGhostRun(events: seq<ChainEvent>) {
    && |events| == 5 && events[0] == TASK && events[1] == PUBLISHED && events[2] == AmendPasses.GROW
    && events[3] == AmendPasses.PRUNE && events[4] == CLAIM_X
  }

  lemma GhostMembers(events: seq<ChainEvent>)
    requires IsGhostRun(events)
    ensures DistinctPins(events)
    ensures forall e :: e in events <==> e in {TASK, PUBLISHED, AmendPasses.GROW, AmendPasses.PRUNE, CLAIM_X}
  {
  }

  /** Five events of one task for which the passes feed different folds: the first
      pass holds "x", so the amend that adds below it is refused and the amend that
      removes it goes through. The claim is then a ghost; without it the first amend
      goes through and the second is ignored. */
  lemma PassesCanDisagree(events: seq<ChainEvent>, o: Options, t: Terms)
    requires IsGhostRun(events) && o == OPTIONS && t == TermsOf(TASK)
    ensures DistinctPins(events) && Ordered(events) && Disagree(FeedOf(events, "task"), t, o)
  {
    GhostMembers(events);
    GhostFeed(events);
    GhostStages(FeedOf(events, "task"), t, o);
    ApartDisagree(events, t, o);
  }
}
