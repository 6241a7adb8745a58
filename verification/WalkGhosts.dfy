/** Ghost events never interfere with the walk (internal/metatask/v121.go:1020-1082,
    1298-1320): filtered to a set of nodes it computes exactly the unfiltered walk's
    state on those nodes, whatever the timeline and the set. With the amend fold
    they can interfere: see `ReplayPasses`. */
module WalkGhosts {
  import opened ChainEvents
  import opened Walk

  function Keep<V>(m: map<string, V>, nodes: set<string>): map<string, V> {
    map n | n in m && n in nodes :: m[n]
  }

  function KeepOrder(order: seq<CycleKey>, nodes: set<string>): seq<CycleKey> {
    if order == [] then []
    else KeepOrder(order[..|order| - 1], nodes) + if order[|order| - 1].0 in nodes then [order[|order| - 1]] else []
  }

  function KeepCycles(cycles: map<CycleKey, Cycle>, nodes: set<string>): map<CycleKey, Cycle> {
    map key | key in cycles && key.0 in nodes :: cycles[key]
  }

  function KeepLive(live: map<string, string>, nodes: set<string>): map<string, string> {
    map p | p in live && live[p] in nodes :: live[p]
  }

  function KeepSubCycle(subCycle: map<string, CycleKey>, nodes: set<string>): map<string, CycleKey> {
    map p | p in subCycle && subCycle[p].0 in nodes :: subCycle[p]
  }

  function KeepVerified(pins: set<string>, live: map<string, string>, nodes: set<string>): set<string> {
    set p | p in pins && p in live && live[p] in nodes
  }

  function KeepReached(reached: map<string, string>, live: map<string, string>, nodes: set<string>): map<string, string> {
    map v | v in reached && reached[v] in live && live[reached[v]] in nodes :: reached[v]
  }

  /** Everything the state holds about the given nodes. */
  function Project(w: WalkState, nodes: set<string>): WalkState {
    WalkState(
      Keep(w.holders, nodes), Keep(w.firstClaim, nodes),
      KeepOrder(w.cycleOrder, nodes), KeepCycles(w.cycles, nodes),
      KeepVerified(w.verifiedPins, w.live, nodes), Keep(w.passVoters, nodes),
      KeepLive(w.live, nodes), KeepSubCycle(w.subCycle, nodes),
      Keep(w.nodeOutcome, nodes), KeepReached(w.reached, w.live, nodes))
  }

  // How each projection commutes with the updates a step makes.

  lemma KeepPut<V>(m: map<string, V>, nodes: set<string>, k: string, v: V)
    ensures Keep(m[k := v], nodes) == if k in nodes then Keep(m, nodes)[k := v] else Keep(m, nodes)
  {
  }

  lemma KeepDrop<V>(m: map<string, V>, nodes: set<string>, k: string)
    ensures Keep(m - {k}, nodes) == if k in nodes then Keep(m, nodes) - {k} else Keep(m, nodes)
  {
  }

  lemma KeepOrderPut(order: seq<CycleKey>, nodes: set<string>, key: CycleKey)
    ensures KeepOrder(order + [key], nodes)
         == if key.0 in nodes then KeepOrder(order, nodes) + [key] else KeepOrder(order, nodes)
  {
    assert (order + [key])[..|order|] == order;
    assert KeepOrder(order, nodes) + [] == KeepOrder(order, nodes);
  }

  lemma KeepCyclesPut(m: map<CycleKey, Cycle>, nodes: set<string>, k: CycleKey, v: Cycle)
    ensures KeepCycles(m[k := v], nodes) == if k.0 in nodes then KeepCycles(m, nodes)[k := v] else KeepCycles(m, nodes)
  {
  }

  lemma KeepPinPut(w: WalkState, nodes: set<string>, pin: string, key: CycleKey)
    requires pin !in w.live && pin !in w.verifiedPins && pin !in w.subCycle
    requires NeverReached(w.reached, pin)
    ensures KeepLive(w.live[pin := key.0], nodes)
         == if key.0 in nodes then KeepLive(w.live, nodes)[pin := key.0] else KeepLive(w.live, nodes)
    ensures KeepSubCycle(w.subCycle[pin := key], nodes)
         == if key.0 in nodes then KeepSubCycle(w.subCycle, nodes)[pin := key] else KeepSubCycle(w.subCycle, nodes)
    ensures KeepVerified(w.verifiedPins, w.live[pin := key.0], nodes) == KeepVerified(w.verifiedPins, w.live, nodes)
    ensures KeepReached(w.reached, w.live[pin := key.0], nodes) == KeepReached(w.reached, w.live, nodes)
  {
  }

  lemma KeepReachedPut(w: WalkState, nodes: set<string>, pin: string, target: string)
    requires target in w.live && pin !in w.reached
    ensures KeepReached(w.reached[pin := target], w.live, nodes)
         == if w.live[target] in nodes then KeepReached(w.reached, w.live, nodes)[pin := target]
            else KeepReached(w.reached, w.live, nodes)
  {
  }

  lemma KeepVerifiedChange(w: WalkState, nodes: set<string>, target: string)
    requires target in w.live
    ensures var old_ := KeepVerified(w.verifiedPins, w.live, nodes);
            && KeepVerified(w.verifiedPins + {target}, w.live, nodes) == (if w.live[target] in nodes then old_ + {target} else old_)
            && KeepVerified(w.verifiedPins - {target}, w.live, nodes) == (if w.live[target] in nodes then old_ - {target} else old_)
  {
  }

  ghost predicate ReachedLive(reached: map<string, string>, live: map<string, string>) {
    forall v | v in reached :: reached[v] in live
  }

  predicate NeverReached(reached: map<string, string>, pin: string) {
    forall v | v in reached :: reached[v] != pin
  }

  /** Verified pins and reached targets are pins of accepted submissions, and
      every recorded pin belongs to an event already walked. */
  ghost predicate PinsKnown(w: WalkState, done: seq<ChainEvent>) {
    && w.verifiedPins <= w.live.Keys
    && ReachedLive(w.reached, w.live)
    && w.live.Keys <= Pins(done)
    && w.subCycle.Keys <= Pins(done)
    && w.reached.Keys <= Pins(done)
  }

  lemma PinsGrow(done: seq<ChainEvent>, e: ChainEvent)
    ensures Pins(done + [e]) == Pins(done) + {e.pin}
  {
    var all := done + [e];
    assert all[|done|] == e;
    forall i | 0 <= i < |done|
      ensures done[i].pin in Pins(all)
    {
      assert all[i] == done[i];
    }
    forall p | p in Pins(all)
      ensures p in Pins(done) + {e.pin}
    {
      var i :| 0 <= i < |all| && all[i].pin == p;
      if i < |done| {
        assert done[i].pin == p;
      }
    }
  }

  lemma HolderChangesKeepPins(w: WalkState, done: seq<ChainEvent>, node: string, why: NodeOutcome, holder: Holder, key: OrdKey)
    requires PinsKnown(w, done)
    ensures PinsKnown(Reopen(w, node, why), done)
    ensures PinsKnown(TakeHold(w, node, holder, key), done)
  {
  }

  lemma InstallKeepsPins(w: WalkState, done: seq<ChainEvent>, key: CycleKey, cycle: Cycle)
    requires PinsKnown(w, done) && cycle.effective.pin in Pins(done)
    ensures PinsKnown(Install(w, key, cycle), done)
  {
  }

  lemma BallotKeepsPins(c: Config, w: WalkState, done: seq<ChainEvent>, key: CycleKey, e: ChainEvent)
    requires PinsKnown(w, done) && e.body.Verify? && key in w.cycles && e.body.targetId in w.live
    ensures PinsKnown(Ballot(c, w, key, e), done)
  {
    match e.body.verdict
    case Fail =>
      var w' := Refuse(w, key, e.body.targetId);
      assert PinsKnown(w', done);
      HolderChangesKeepPins(w', done, key.0, Rejected, Holder("", "", 0, 0), KeyOf(e));
    case Pass =>
      var w' := Gather(w, key.0, WithVoter(VotersOf(w, key.0), e.author, e.pin));
      assert PinsKnown(w', done);
      assert PinsKnown(Confirm(w', key, e.body.targetId, e.ts), done);
    case _ =>
  }

  lemma ReachKeepsPins(w: WalkState, done: seq<ChainEvent>, vote: string, target: string)
    requires PinsKnown(w, done) && vote in Pins(done) && target in w.live
    ensures PinsKnown(Reach(w, vote, target), done)
  {
  }

  lemma StepKeepsPinsKnown(c: Config, inTree: Option<set<string>>, w: WalkState,
                           done: seq<ChainEvent>, e: ChainEvent)
    requires PinsKnown(w, done)
    ensures PinsKnown(Step(c, inTree, w, e), done + [e])
  {
    PinsGrow(done, e);
    var all := done + [e];
    assert PinsKnown(w, all);
    match e.body
    case Verify(target, _, _, _) =>
      var key := LiveTarget(w, target);
      if key.Some? {
        ReachKeepsPins(w, all, e.pin, target);
        BallotKeepsPins(c, Reach(w, e.pin, target), all, key.value, e);
      }
    case Claim(_, node) =>
      HolderChangesKeepPins(w, all, node, Released, Holder(e.pin, e.author, e.ts, e.height), KeyOf(e));
    case Release(_, node, _) =>
      HolderChangesKeepPins(w, all, node, Released, Holder(e.pin, e.author, e.ts, e.height), KeyOf(e));
    case Submission(_, node, claimId, _, _) =>
      SubmissionKeepsPins(c, w, all, e);
    case _ =>
  }

  lemma SubmissionKeepsPins(c: Config, w: WalkState, done: seq<ChainEvent>, e: ChainEvent)
    requires PinsKnown(w, done) && e.body.Submission? && e.pin in Pins(done)
    ensures PinsKnown(StepSubmission(c, w, e), done)
  {
    var key := (e.body.node, e.body.claimId);
    if HeldUnder(w, key.0, key.1) {
      var next := NextCycle(c, w.cycles, w.holders[key.0].claimant, e);
      if next.Some? {
        InstallKeepsPins(w, done, key, next.value);
      }
    }
  }

  /** A pin no record of the state mentions. */
  predicate FreshPin(w: WalkState, pin: string) {
    pin !in w.live && pin !in w.subCycle && pin !in w.verifiedPins && pin !in w.reached
    && NeverReached(w.reached, pin)
  }

  lemma HoldCommutes(w: WalkState, nodes: set<string>, node: string, holder: Holder, key: OrdKey)
    requires node !in w.holders
    ensures Project(TakeHold(w, node, holder, key), nodes)
         == if node in nodes then TakeHold(Project(w, nodes), node, holder, key) else Project(w, nodes)
  {
    KeepPut(w.holders, nodes, node, holder);
    KeepPut(w.firstClaim, nodes, node, key);
    KeepPut(w.nodeOutcome, nodes, node, NoOutcome);
  }

  lemma ReopenCommutes(w: WalkState, nodes: set<string>, node: string, why: NodeOutcome)
    ensures Project(Reopen(w, node, why), nodes)
         == if node in nodes then Reopen(Project(w, nodes), node, why) else Project(w, nodes)
  {
    KeepDrop(w.holders, nodes, node);
    KeepDrop(w.passVoters, nodes, node);
    KeepPut(w.nodeOutcome, nodes, node, why);
  }

  lemma InstallCommutes(w: WalkState, nodes: set<string>, key: CycleKey, cycle: Cycle)
    requires FreshPin(w, cycle.effective.pin)
    ensures Project(Install(w, key, cycle), nodes)
         == if key.0 in nodes then Install(Project(w, nodes), key, cycle) else Project(w, nodes)
  {
    KeepOrderPut(w.cycleOrder, nodes, key);
    KeepCyclesPut(w.cycles, nodes, key, cycle);
    KeepPinPut(w, nodes, cycle.effective.pin, key);
  }

  lemma ReachCommutes(w: WalkState, nodes: set<string>, vote: string, target: string)
    requires target in w.live && vote !in w.reached
    ensures Project(Reach(w, vote, target), nodes)
         == if w.live[target] in nodes then Reach(Project(w, nodes), vote, target) else Project(w, nodes)
  {
    KeepReachedPut(w, nodes, vote, target);
  }

  lemma RefuseCommutes(w: WalkState, nodes: set<string>, key: CycleKey, target: string)
    requires key in w.cycles && target in w.live && w.live[target] == key.0
    ensures Project(Refuse(w, key, target), nodes)
         == if key.0 in nodes then Refuse(Project(w, nodes), key, target) else Project(w, nodes)
  {
    KeepCyclesPut(w.cycles, nodes, key, w.cycles[key].(outcome := FailRejected));
    KeepVerifiedChange(w, nodes, target);
  }

  lemma GatherCommutes(w: WalkState, nodes: set<string>, node: string, voters: map<string, string>)
    ensures Project(Gather(w, node, voters), nodes)
         == if node in nodes then Gather(Project(w, nodes), node, voters) else Project(w, nodes)
  {
    KeepPut(w.passVoters, nodes, node, voters);
  }

  lemma ConfirmCommutes(w: WalkState, nodes: set<string>, key: CycleKey, target: string, at: int)
    requires key in w.cycles && target in w.live && w.live[target] == key.0
    ensures Project(Confirm(w, key, target, at), nodes)
         == if key.0 in nodes then Confirm(Project(w, nodes), key, target, at) else Project(w, nodes)
  {
    var cycle := w.cycles[key];
    KeepCyclesPut(w.cycles, nodes, key,
                  cycle.(outcome := Verified, quorumAt := if cycle.quorumAt == 0 then at else cycle.quorumAt));
    KeepVerifiedChange(w, nodes, target);
  }

  lemma AttachCommutes(w: WalkState, nodes: set<string>, key: CycleKey, next: Option<Cycle>)
    requires next.Some? ==> FreshPin(w, next.value.effective.pin)
    ensures Project(Attach(w, key, next), nodes)
         == if key.0 in nodes then Attach(Project(w, nodes), key, next) else Project(w, nodes)
  {
    if next.Some? {
      InstallCommutes(w, nodes, key, next.value);
    }
  }

  lemma SubmissionCommutes(c: Config, w: WalkState, nodes: set<string>, e: ChainEvent)
    requires e.body.Submission? && FreshPin(w, e.pin)
    ensures Project(StepSubmission(c, w, e), nodes)
         == if e.body.node in nodes then StepSubmission(c, Project(w, nodes), e) else Project(w, nodes)
  {
    var key := (e.body.node, e.body.claimId);
    if HeldUnder(w, key.0, key.1) {
      AttachCommutes(w, nodes, key, NextCycle(c, w.cycles, w.holders[key.0].claimant, e));
    }
  }

  lemma LiveTargetCommutes(w: WalkState, nodes: set<string>, target: string)
    ensures var k := LiveTarget(w, target);
            LiveTarget(Project(w, nodes), target) == if k.Some? && k.value.0 in nodes then k else None
  {
  }

  lemma PassCommutes(c: Config, w: WalkState, nodes: set<string>, key: CycleKey, e: ChainEvent)
    requires e.body.Verify? && key in w.cycles && e.body.targetId in w.live && w.live[e.body.targetId] == key.0
    ensures Project(StepPass(c, w, key, e), nodes)
         == if key.0 in nodes then StepPass(c, Project(w, nodes), key, e) else Project(w, nodes)
  {
    var before := VotersOf(w, key.0);
    var voters := if e.author in before then before else before[e.author := e.pin];
    assert key.0 in nodes ==> VotersOf(Project(w, nodes), key.0) == before;
    GatherCommutes(w, nodes, key.0, voters);
    ConfirmCommutes(Gather(w, key.0, voters), nodes, key, e.body.targetId, e.ts);
  }

  lemma VerifyCommutes(c: Config, w: WalkState, nodes: set<string>, e: ChainEvent)
    requires e.body.Verify? && FreshPin(w, e.pin)
    ensures Project(StepVerify(c, w, e), nodes) == StepVerify(c, Project(w, nodes), e)
  {
    var target := e.body.targetId;
    var key := LiveTarget(w, target);
    LiveTargetCommutes(w, nodes, target);
    if key.Some? {
      ReachCommutes(w, nodes, e.pin, target);
      var w' := Reach(w, e.pin, target);
      match e.body.verdict
      case Fail =>
        RefuseCommutes(w', nodes, key.value, target);
        ReopenCommutes(Refuse(w', key.value, target), nodes, key.value.0, Rejected);
      case Pass => PassCommutes(c, w', nodes, key.value, e);
      case _ =>
    }
  }

  lemma ClaimCommutes(w: WalkState, nodes: set<string>, e: ChainEvent)
    requires e.body.Claim?
    ensures Project(StepClaim(w, e), nodes)
         == if e.body.node in nodes then StepClaim(Project(w, nodes), e) else Project(w, nodes)
  {
    if e.body.node !in w.holders {
      HoldCommutes(w, nodes, e.body.node, Holder(e.pin, e.author, e.ts, e.height), KeyOf(e));
    }
  }

  lemma ReleaseCommutes(w: WalkState, nodes: set<string>, e: ChainEvent)
    requires e.body.Release?
    ensures Project(StepRelease(w, e), nodes)
         == if e.body.node in nodes then StepRelease(Project(w, nodes), e) else Project(w, nodes)
  {
    ReopenCommutes(w, nodes, e.body.node, Released);
  }

  /** One event: project and step, or step and project. */
  lemma StepCommutes(c: Config, w: WalkState, nodes: set<string>, e: ChainEvent)
    requires FreshPin(w, e.pin)
    ensures Project(Step(c, None, w, e), nodes) == Step(c, Some(nodes), Project(w, nodes), e)
  {
    match e.body
    case Verify(_, _, _, _) => VerifyCommutes(c, w, nodes, e);
    case Claim(_, _) => ClaimCommutes(w, nodes, e);
    case Release(_, _, _) => ReleaseCommutes(w, nodes, e);
    case Submission(_, _, _, _, _) => SubmissionCommutes(c, w, nodes, e);
    case _ =>
  }

  lemma {:induction false} RunKeepsPinsKnown(c: Config, inTree: Option<set<string>>, timeline: seq<ChainEvent>)
    ensures PinsKnown(Run(c, inTree, timeline), timeline)
  {
    if timeline != [] {
      var n := |timeline| - 1;
      RunKeepsPinsKnown(c, inTree, timeline[..n]);
      StepKeepsPinsKnown(c, inTree, Run(c, inTree, timeline[..n]), timeline[..n], timeline[n]);
      assert timeline[..n] + [timeline[n]] == timeline;
    }
  }

  lemma PrefixPinsFresh(timeline: seq<ChainEvent>, n: nat)
    requires DistinctPins(timeline) && n < |timeline|
    ensures timeline[n].pin !in Pins(timeline[..n])
    ensures DistinctPins(timeline[..n])
  {
  }

  /** For every timeline with distinct pins and every set of nodes, the filtered
      walk is the unfiltered one seen through those nodes. */
  lemma {:induction false} GhostsNeverInterfere(c: Config, timeline: seq<ChainEvent>, nodes: set<string>)
    requires DistinctPins(timeline)
    ensures Run(c, Some(nodes), timeline) == Project(Run(c, None, timeline), nodes)
  {
    if timeline != [] {
      var n := |timeline| - 1;
      PrefixPinsFresh(timeline, n);
      GhostsNeverInterfere(c, timeline[..n], nodes);
      RunKeepsPinsKnown(c, None, timeline[..n]);
      StepCommutes(c, Run(c, None, timeline[..n]), nodes, timeline[n]);
    }
  }

  lemma GoneCommutes(c: Config, k: Clock, w: WalkState, nodes: set<string>)
    ensures var p := Project(w, nodes);
            && Gone(c, k, p, p.holders.Keys) == Gone(c, k, w, w.holders.Keys) * nodes
            && forall n | n in p.holders :: ExpiryOf(c, k, p, n) == ExpiryOf(c, k, w, n)
  {
    var p := Project(w, nodes);
    forall n | n in p.holders
      ensures ExpiryOf(c, k, p, n) == ExpiryOf(c, k, w, n)
    {
      assert VotersOf(p, n) == VotersOf(w, n);
    }
  }

  lemma KeepMinus<V>(m: map<string, V>, nodes: set<string>, gone: set<string>)
    ensures Keep(m - gone, nodes) == Keep(m, nodes) - gone * nodes
  {
  }

  lemma SweepCommutes(c: Config, k: Clock, w: WalkState, nodes: set<string>)
    ensures Project(Expired(c, k, w), nodes) == Expired(c, k, Project(w, nodes))
  {
    GoneCommutes(c, k, w, nodes);
    var gone := Gone(c, k, w, w.holders.Keys);
    KeepMinus(w.holders, nodes, gone);
    KeepMinus(w.passVoters, nodes, gone);
    assert Project(Expired(c, k, w), nodes).nodeOutcome == Expired(c, k, Project(w, nodes)).nodeOutcome;
  }

  /** The same holds after the expiry sweep, so every projection the engine takes
      from the second pass is what a single unfiltered pass would give there. */
  lemma GhostsNeverInterfereAfterExpiry(c: Config, k: Clock, timeline: seq<ChainEvent>, nodes: set<string>)
    requires DistinctPins(timeline)
    ensures Expired(c, k, Run(c, Some(nodes), timeline))
         == Project(Expired(c, k, Run(c, None, timeline)), nodes)
  {
    GhostsNeverInterfere(c, timeline, nodes);
    SweepCommutes(c, k, Run(c, None, timeline), nodes);
  }

  /** A node's current cycle is the same in both passes. */
  lemma {:induction false} ActiveCycleAgrees(order: seq<CycleKey>, nodes: set<string>, node: string)
    requires node in nodes
    ensures ActiveKey(KeepOrder(order, nodes), node) == ActiveKey(order, node)
  {
    if order != [] {
      var n := |order| - 1;
      var kept := KeepOrder(order[..n], nodes);
      ActiveCycleAgrees(order[..n], nodes, node);
      if order[n].0 in nodes {
        assert (kept + [order[n]])[..|kept|] == kept;
      } else {
        assert kept + [] == kept;
      }
    }
  }
}
