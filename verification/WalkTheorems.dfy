/** The walk's guarantees, stated over whole runs. */
module WalkTheorems {
  import opened ChainEvents
  import opened Walk
  import opened WalkGhosts
  import opened WalkCycles

  /** A timeline the engine can be handed: pins are distinct, the author index is
      that of its own submissions, and the quorum is normalised to at least one. */
  ghost predicate Replayable(c: Config, timeline: seq<ChainEvent>) {
    DistinctPins(timeline) && AuthorsIndexed(c, timeline) && c.quorum >= 1
  }

  /** In every reachable state a cycle's submissions are one author's, each
      superseding the one before it at or above the feature height, and the last
      of them is the effective one. */
  lemma SubmissionsFormOneChain(c: Config, inTree: Option<set<string>>, timeline: seq<ChainEvent>, key: CycleKey)
    requires Replayable(c, timeline) && key in Run(c, inTree, timeline).cycles
    ensures var cycle := Run(c, inTree, timeline).cycles[key];
            && (cycle.node, cycle.claimId) == key
            && ChainOk(c, cycle)
            && forall p | p in SubPins(cycle.submissions) :: SubmitterOf(c, p) == cycle.effective.author
  {
    RunKeepsInv(c, inTree, timeline);
    var w := Run(c, inTree, timeline);
    assert Anchored(c, w.live, w.subCycle, key, w.cycles[key]);
  }

  /** A ballot reaches its target exactly when, at its own position, that target
      is the effective submission of the cycle its node's holder works on. */
  lemma {:induction false} ReachedMeansLive(c: Config, inTree: Option<set<string>>, timeline: seq<ChainEvent>, i: nat)
    requires DistinctPins(timeline) && i < |timeline| && timeline[i].body.Verify?
    ensures var e, w := timeline[i], Run(c, inTree, timeline);
            && (e.pin in w.reached <==> LiveTarget(Run(c, inTree, timeline[..i]), e.body.targetId).Some?)
            && (e.pin in w.reached ==> w.reached[e.pin] == e.body.targetId)
  {
    var n := |timeline| - 1;
    var prefix, last := timeline[..n], timeline[n];
    var w := Run(c, inTree, prefix);
    PrefixPinsFresh(timeline, n);
    ReachedGrows(c, inTree, w, last);
    if i < n {
      assert prefix[..i] == timeline[..i] && prefix[i] == timeline[i];
      ReachedMeansLive(c, inTree, prefix, i);
      assert timeline[i].pin != last.pin;
    } else {
      RunKeepsPinsKnown(c, inTree, prefix);
    }
  }

  /** One event adds itself to `reached` when it is a ballot on a live target, and nothing else does. */
  lemma ReachedGrows(c: Config, inTree: Option<set<string>>, w: WalkState, e: ChainEvent)
    ensures Step(c, inTree, w, e).reached
         == if e.body.Verify? && LiveTarget(w, e.body.targetId).Some?
            then w.reached[e.pin := e.body.targetId] else w.reached
  {
    if e.body.Verify? {
      var key := LiveTarget(w, e.body.targetId);
      if key.Some? {
        BallotKeepsReached(c, Reach(w, e.pin, e.body.targetId), key.value, e);
      }
    } else if e.body.Submission? {
      var key := (e.body.node, e.body.claimId);
      if HeldUnder(w, key.0, key.1) {
        AttachKeepsReached(w, key, NextCycle(c, w.cycles, w.holders[key.0].claimant, e));
      }
    }
  }

  lemma AttachKeepsReached(w: WalkState, key: CycleKey, next: Option<Cycle>)
    ensures Attach(w, key, next).reached == w.reached
  {
  }

  lemma BallotKeepsReached(c: Config, w: WalkState, key: CycleKey, e: ChainEvent)
    requires e.body.Verify? && key in w.cycles
    ensures Ballot(c, w, key, e).reached == w.reached
  {
    if e.body.verdict.Pass? {
      PassKeepsReached(c, w, key, e);
    }
  }

  lemma PassKeepsReached(c: Config, w: WalkState, key: CycleKey, e: ChainEvent)
    requires e.body.Verify? && key in w.cycles
    ensures StepPass(c, w, key, e).reached == w.reached
  {
  }

  /** What a verdict means, for every reachable cycle: it is refused iff a fail
      reached a member of its chain; otherwise it is verified iff at least
      quorum distinct bots, none of them the submitter or the task's author, have
      passes that reached members of its chain. */
  lemma VerdictMeaning(c: Config, inTree: Option<set<string>>, timeline: seq<ChainEvent>, key: CycleKey)
    requires Replayable(c, timeline) && key in Run(c, inTree, timeline).cycles
    ensures var w := Run(c, inTree, timeline);
            var cycle := w.cycles[key];
            var pins := SubPins(cycle.submissions);
            var voters := Passers(c, timeline, w.reached, pins);
            && (cycle.outcome.FailRejected? <==> Failed(timeline, w.reached, pins))
            && (cycle.outcome.Verified? <==> !Failed(timeline, w.reached, pins) && |voters| >= c.quorum)
            && cycle.effective.author !in voters && c.rootAuthor !in voters
  {
    RunKeepsInv(c, inTree, timeline);
    var w := Run(c, inTree, timeline);
    assert Anchored(c, w.live, w.subCycle, key, w.cycles[key]);
  }

  /** Quorum soundness: a never-superseded cycle is verified iff enough distinct
      independent bots passed its one submission and no fail reached it. */
  lemma QuorumSoundness(c: Config, inTree: Option<set<string>>, timeline: seq<ChainEvent>, key: CycleKey)
    requires Replayable(c, timeline) && key in Run(c, inTree, timeline).cycles
    requires Run(c, inTree, timeline).cycles[key].superseded == {}
    ensures var w := Run(c, inTree, timeline);
            var cycle := w.cycles[key];
            var pin := cycle.effective.pin;
            var voters := Passers(c, timeline, w.reached, {pin});
            && cycle.submissions == [cycle.effective]
            && (cycle.outcome.Verified? <==> |voters| >= c.quorum && !Failed(timeline, w.reached, {pin}))
            && cycle.effective.author !in voters && c.rootAuthor !in voters
  {
    VerdictMeaning(c, inTree, timeline, key);
    SubmissionsFormOneChain(c, inTree, timeline, key);
    NeverSupersededIsSingle(c, Run(c, inTree, timeline).cycles[key]);
  }

  /** For any verified cycle, superseded or not: its effective submission has a
      quorum of its own exactly when the bots whose passes all reached superseded
      members are no more than what the cycle has above quorum. */
  lemma OwnQuorum(c: Config, inTree: Option<set<string>>, timeline: seq<ChainEvent>, key: CycleKey)
    requires Replayable(c, timeline) && key in Run(c, inTree, timeline).cycles
    requires Run(c, inTree, timeline).cycles[key].outcome.Verified?
    ensures var w := Run(c, inTree, timeline);
            var cycle := w.cycles[key];
            var all := Passers(c, timeline, w.reached, SubPins(cycle.submissions));
            var own := Passers(c, timeline, w.reached, {cycle.effective.pin});
            var inherited := Passers(c, timeline, w.reached, cycle.superseded);
            all == own + inherited && (|own| >= c.quorum <==> |inherited - own| <= |all| - c.quorum)
  {
    var w := Run(c, inTree, timeline);
    var cycle := w.cycles[key];
    RunKeepsInv(c, inTree, timeline);
    assert Anchored(c, w.live, w.subCycle, key, cycle);
    PinsOfChain(c, cycle);
    PassersJoin(c, timeline, w.reached, {cycle.effective.pin}, cycle.superseded);
    PartsOf(Passers(c, timeline, w.reached, {cycle.effective.pin}), Passers(c, timeline, w.reached, cycle.superseded));
  }

  lemma PinsOfChain(c: Config, cycle: Cycle)
    requires ChainOk(c, cycle)
    ensures SubPins(cycle.submissions) == {cycle.effective.pin} + cycle.superseded
  {
    var n := |cycle.submissions| - 1;
    SubPinsPut(cycle.submissions[..n], cycle.effective);
    assert cycle.submissions[..n] + [cycle.effective] == cycle.submissions;
  }

  lemma PassersJoin(c: Config, events: seq<ChainEvent>, reached: map<string, string>, a: set<string>, b: set<string>)
    ensures Passers(c, events, reached, a + b) == Passers(c, events, reached, a) + Passers(c, events, reached, b)
  {
    forall i | 0 <= i < |events|
      ensures Passes(c, events[i], reached, a + b) <==> Passes(c, events[i], reached, a) || Passes(c, events[i], reached, b)
    {
    }
  }

  lemma PartsOf(own: set<string>, inherited: set<string>)
    ensures |own + inherited| == |own| + |inherited - own|
  {
    assert own + inherited == own + (inherited - own);
  }

  lemma SupersededIffLonger(c: Config, cycle: Cycle)
    requires ChainOk(c, cycle)
    ensures cycle.superseded != {} <==> |cycle.submissions| > 1
  {
    var subs, n := cycle.submissions, |cycle.submissions|;
    if n > 1 {
      assert subs[..n - 1][0].pin in cycle.superseded;
    }
  }

  lemma NeverSupersededIsSingle(c: Config, cycle: Cycle)
    requires ChainOk(c, cycle) && cycle.superseded == {}
    ensures cycle.submissions == [cycle.effective] && SubPins(cycle.submissions) == {cycle.effective.pin}
  {
    SupersededIffLonger(c, cycle);
  }

  // ------------------------------------------------------------------
  // Dead cycles
  // ------------------------------------------------------------------

  /** The cycle's claim no longer holds its node. */
  predicate Dead(w: WalkState, key: CycleKey) {
    key in w.cycles && !HeldUnder(w, key.0, key.1)
  }

  /** `w'` still has the cycle, dead and unchanged. */
  predicate StillDead(w: WalkState, w': WalkState, key: CycleKey) {
    Dead(w, key) && Dead(w', key) && w'.cycles[key] == w.cycles[key]
  }

  lemma DeadAttach(w: WalkState, own: CycleKey, next: Option<Cycle>, key: CycleKey)
    requires Dead(w, key) && own != key
    ensures StillDead(w, Attach(w, own, next), key)
  {
  }

  lemma DeadFail(w: WalkState, own: CycleKey, target: string, key: CycleKey)
    requires own in w.cycles && Dead(w, key) && own != key
    ensures StillDead(w, StepFail(w, own, target), key)
  {
    assert StillDead(w, Refuse(w, own, target), key);
  }

  lemma DeadPass(c: Config, w: WalkState, own: CycleKey, e: ChainEvent, key: CycleKey)
    requires e.body.Verify? && own in w.cycles && Dead(w, key) && own != key
    ensures StillDead(w, StepPass(c, w, own, e), key)
  {
  }

  lemma DeadVerify(c: Config, w: WalkState, e: ChainEvent, key: CycleKey)
    requires e.body.Verify? && Dead(w, key)
    ensures StillDead(w, StepVerify(c, w, e), key)
  {
    var live := LiveTarget(w, e.body.targetId);
    if live.Some? {
      var r := Reach(w, e.pin, e.body.targetId);
      assert StillDead(w, r, key);
      match e.body.verdict
      case Fail => DeadFail(r, live.value, e.body.targetId, key);
      case Pass => DeadPass(c, r, live.value, e, key);
      case _ =>
    }
  }

  lemma DeadClaim(w: WalkState, e: ChainEvent, key: CycleKey)
    requires e.body.Claim? && e.pin != key.1 && Dead(w, key)
    ensures StillDead(w, StepClaim(w, e), key)
  {
  }

  lemma DeadRelease(w: WalkState, e: ChainEvent, key: CycleKey)
    requires e.body.Release? && Dead(w, key)
    ensures StillDead(w, StepRelease(w, e), key)
  {
  }

  lemma DeadStep(c: Config, inTree: Option<set<string>>, w: WalkState, e: ChainEvent, key: CycleKey)
    requires e.pin != key.1 && Dead(w, key)
    ensures StillDead(w, Step(c, inTree, w, e), key)
  {
    match e.body
    case Verify(_, _, _, _) => DeadVerify(c, w, e, key);
    case Claim(_, _) => DeadClaim(w, e, key);
    case Release(_, _, _) => DeadRelease(w, e, key);
    case Submission(_, node, claimId, _, _) =>
      if HeldUnder(w, node, claimId) {
        DeadAttach(w, (node, claimId), NextCycle(c, w.cycles, w.holders[node].claimant, e), key);
      }
    case _ =>
  }

  lemma DeadNext(c: Config, inTree: Option<set<string>>, prefix: seq<ChainEvent>, e: ChainEvent, key: CycleKey)
    requires Replayable(c, prefix + [e]) && Dead(Run(c, inTree, prefix), key)
    ensures Dead(Run(c, inTree, prefix + [e]), key)
    ensures Run(c, inTree, prefix + [e]).cycles[key] == Run(c, inTree, prefix).cycles[key]
  {
    var all := prefix + [e];
    PrefixPinsFresh(all, |prefix|);
    assert all[..|prefix|] == prefix;
    RunKeepsInv(c, inTree, prefix);
    assert key.1 in Pins(prefix);
    DeadStep(c, inTree, Run(c, inTree, prefix), e, key);
  }

  /** A cycle whose claim lost the node never changes again, nor does it come back to life. */
  lemma {:induction false} DeadStaysDead(c: Config, inTree: Option<set<string>>, timeline: seq<ChainEvent>, i: nat, key: CycleKey)
    requires Replayable(c, timeline) && i <= |timeline| && Dead(Run(c, inTree, timeline[..i]), key)
    ensures Dead(Run(c, inTree, timeline), key)
    ensures Run(c, inTree, timeline).cycles[key] == Run(c, inTree, timeline[..i]).cycles[key]
  {
    if i == |timeline| {
      assert timeline[..i] == timeline;
    } else {
      var n := |timeline| - 1;
      var prefix := timeline[..n];
      PrefixPinsFresh(timeline, n);
      assert prefix[..i] == timeline[..i];
      DeadStaysDead(c, inTree, prefix, i, key);
      assert timeline == prefix + [timeline[n]];
      DeadNext(c, inTree, prefix, timeline[n], key);
    }
  }

  /** In particular a fail-rejected cycle is final: whatever follows, it stays as it was refused. */
  lemma RefusalIsFinal(c: Config, inTree: Option<set<string>>, timeline: seq<ChainEvent>, i: nat, key: CycleKey)
    requires Replayable(c, timeline) && i <= |timeline|
    requires key in Run(c, inTree, timeline[..i]).cycles
    requires Run(c, inTree, timeline[..i]).cycles[key].outcome.FailRejected?
    ensures key in Run(c, inTree, timeline).cycles
    ensures Run(c, inTree, timeline).cycles[key] == Run(c, inTree, timeline[..i]).cycles[key]
    ensures !HeldUnder(Run(c, inTree, timeline), key.0, key.1)
  {
    var prefix := timeline[..i];
    RunKeepsInv(c, inTree, prefix);
    var w := Run(c, inTree, prefix);
    assert HeldUnder(w, key.0, key.1) ==> VotersOk(c, w.cycles, key, VotersIn(w.passVoters, key.0), w.reached, prefix);
    DeadStaysDead(c, inTree, timeline, i, key);
  }

  // ------------------------------------------------------------------
  // The two readings of "verified"
  // ------------------------------------------------------------------

  /** The amend fold asks whether a node's effective submission is among the
      verified pins, the aggregation check whether its cycle's outcome is verified. */
  ghost predicate ReadingsAgree(cycles: map<CycleKey, Cycle>, verifiedPins: set<string>) {
    forall key | key in cycles ::
      && (cycles[key].effective.pin in verifiedPins ==> cycles[key].outcome.Verified?)
      && (cycles[key].outcome.Verified? && cycles[key].superseded == {} ==> cycles[key].effective.pin in verifiedPins)
  }

  lemma AttachKeepsReadings(w: WalkState, key: CycleKey, next: Cycle)
    requires ReadingsAgree(w.cycles, w.verifiedPins) && FreshPin(w, next.effective.pin)
    requires next.outcome.Open? || next.superseded != {}
    ensures ReadingsAgree(Install(w, key, next).cycles, Install(w, key, next).verifiedPins)
  {
  }

  /** No other cycle has the live target as its effective submission. */
  lemma EffectiveIsOwn(c: Config, w: WalkState, done: seq<ChainEvent>, key: CycleKey, pin: string)
    requires Inv(c, w, done) && LiveTarget(w, pin) == Some(key)
    ensures forall k | k in w.cycles && k != key :: w.cycles[k].effective.pin != pin
  {
    TargetIsOwn(c, w, done, pin, key);
    forall k | k in w.cycles && k != key
      ensures w.cycles[k].effective.pin != pin
    {
      assert Anchored(c, w.live, w.subCycle, k, w.cycles[k]);
      var subs := w.cycles[k].submissions;
      assert subs[|subs| - 1].pin in SubPins(subs);
    }
  }

  lemma RefusalKeepsReadings(w: WalkState, key: CycleKey, pin: string)
    requires ReadingsAgree(w.cycles, w.verifiedPins) && key in w.cycles && w.cycles[key].effective.pin == pin
    requires forall k | k in w.cycles && k != key :: w.cycles[k].effective.pin != pin
    ensures ReadingsAgree(Refuse(w, key, pin).cycles, Refuse(w, key, pin).verifiedPins)
  {
  }

  lemma ConfirmKeepsReadings(w: WalkState, key: CycleKey, pin: string, at: int)
    requires ReadingsAgree(w.cycles, w.verifiedPins) && key in w.cycles && w.cycles[key].effective.pin == pin
    requires forall k | k in w.cycles && k != key :: w.cycles[k].effective.pin != pin
    ensures ReadingsAgree(Confirm(w, key, pin, at).cycles, Confirm(w, key, pin, at).verifiedPins)
  {
  }

  lemma BallotKeepsReadings(c: Config, w: WalkState, key: CycleKey, e: ChainEvent)
    requires e.body.Verify? && key in w.cycles && w.cycles[key].effective.pin == e.body.targetId
    requires ReadingsAgree(w.cycles, w.verifiedPins)
    requires forall k | k in w.cycles && k != key :: w.cycles[k].effective.pin != e.body.targetId
    ensures ReadingsAgree(Ballot(c, w, key, e).cycles, Ballot(c, w, key, e).verifiedPins)
  {
    match e.body.verdict
    case Fail => RefusalKeepsReadings(w, key, e.body.targetId);
    case Pass =>
      ConfirmKeepsReadings(Gather(w, key.0, WithVoter(VotersOf(w, key.0), e.author, e.pin)), key, e.body.targetId, e.ts);
    case _ =>
  }

  lemma SubmissionKeepsReadings(c: Config, w: WalkState, e: ChainEvent)
    requires e.body.Submission? && FreshPin(w, e.pin) && ReadingsAgree(w.cycles, w.verifiedPins)
    ensures ReadingsAgree(StepSubmission(c, w, e).cycles, StepSubmission(c, w, e).verifiedPins)
  {
    var key := (e.body.node, e.body.claimId);
    if HeldUnder(w, key.0, key.1) {
      if key !in w.cycles {
        AttachKeepsReadings(w, key, FirstCycle(e, w.holders[key.0].claimant));
      } else {
        var next := Superseding(w.cycles[key], RecordOf(e));
        assert e.body.supersedeId in next.superseded;
        AttachKeepsReadings(w, key, next);
      }
    }
  }

  lemma VerifyKeepsReadings(c: Config, w: WalkState, done: seq<ChainEvent>, e: ChainEvent)
    requires Inv(c, w, done) && e.body.Verify? && ReadingsAgree(w.cycles, w.verifiedPins)
    ensures ReadingsAgree(StepVerify(c, w, e).cycles, StepVerify(c, w, e).verifiedPins)
  {
    var key := LiveTarget(w, e.body.targetId);
    if key.Some? {
      EffectiveIsOwn(c, w, done, key.value, e.body.targetId);
      BallotKeepsReadings(c, Reach(w, e.pin, e.body.targetId), key.value, e);
    }
  }

  lemma StepKeepsReadings(c: Config, inTree: Option<set<string>>, w: WalkState, done: seq<ChainEvent>, e: ChainEvent)
    requires Inv(c, w, done) && e.pin !in Pins(done) && ReadingsAgree(w.cycles, w.verifiedPins)
    ensures ReadingsAgree(Step(c, inTree, w, e).cycles, Step(c, inTree, w, e).verifiedPins)
  {
    OneStep(c, inTree, w, e);
    if e.body.Verify? {
      VerifyKeepsReadings(c, w, done, e);
    } else if e.body.Submission? {
      FreshIsUnused(c, w, done, e.pin);
      SubmissionKeepsReadings(c, w, e);
    }
  }

  /** Only ballots and submissions touch cycles or verified pins. */
  lemma OneStep(c: Config, inTree: Option<set<string>>, w: WalkState, e: ChainEvent)
    ensures var t := Step(c, inTree, w, e);
            || (t.cycles == w.cycles && t.verifiedPins == w.verifiedPins)
            || (e.body.Verify? && t == StepVerify(c, w, e))
            || (e.body.Submission? && t == StepSubmission(c, w, e))
  {
  }

  /** On every run the fold's reading implies the aggregation's, and for a
      never-superseded cycle the two are the same. */
  lemma {:induction false} VerifiedReadingsAgree(c: Config, inTree: Option<set<string>>, timeline: seq<ChainEvent>)
    requires Replayable(c, timeline)
    ensures ReadingsAgree(Run(c, inTree, timeline).cycles, Run(c, inTree, timeline).verifiedPins)
  {
    if timeline != [] {
      var n := |timeline| - 1;
      PrefixPinsFresh(timeline, n);
      VerifiedReadingsAgree(c, inTree, timeline[..n]);
      RunKeepsInv(c, inTree, timeline[..n]);
      StepKeepsReadings(c, inTree, Run(c, inTree, timeline[..n]), timeline[..n], timeline[n]);
    }
  }

  // ------------------------------------------------------------------
  // A superseded cycle keeps its votes
  // ------------------------------------------------------------------

  const SUPERSEDE_CONFIG := Config(1, "publisher", 100, map["s1" := "worker", "s2" := "worker"])

  const CLAIM_N := ChainEvent("c1", "worker", 100, 0, 0, Claim("task", "n"))
  const SUBMIT_S1 := ChainEvent("s1", "worker", 100, 1, 0, Submission("task", "n", "c1", "", {}))
  const PASS_S1 := ChainEvent("v1", "voter", 100, 2, 0, Verify("s1", Pass, true, true))
  const SUBMIT_S2 := ChainEvent("s2", "worker", 100, 3, 0, Submission("task", "n", "c1", "s1", {}))

  const SUPERSEDE_RUN := [CLAIM_N, SUBMIT_S1, PASS_S1, SUBMIT_S2]

  const KEY_N := ("n", "c1")

  lemma RunSnoc(c: Config, inTree: Option<set<string>>, prefix: seq<ChainEvent>, e: ChainEvent)
    ensures Run(c, inTree, prefix + [e]) == Step(c, inTree, Run(c, inTree, prefix), e)
  {
    assert (prefix + [e])[..|prefix|] == prefix;
  }

  /** After the claim and the first submission the cycle is open. */
  lemma AfterFirstSubmission() returns (w: WalkState)
    ensures w == Run(SUPERSEDE_CONFIG, None, [CLAIM_N, SUBMIT_S1])
    ensures HeldUnder(w, "n", "c1") && LiveTarget(w, "s1") == Some(KEY_N) && VotersOf(w, "n") == map[]
    ensures w.cycles == map[KEY_N := FirstCycle(SUBMIT_S1, "worker")] && w.verifiedPins == {}
  {
    var c := SUPERSEDE_CONFIG;
    var w1 := StepClaim(EMPTY_WALK, CLAIM_N);
    RunSnoc(c, None, [], CLAIM_N);
    assert [] + [CLAIM_N] == [CLAIM_N];
    RunSnoc(c, None, [CLAIM_N], SUBMIT_S1);
    assert [CLAIM_N] + [SUBMIT_S1] == [CLAIM_N, SUBMIT_S1];
    w := Install(w1, KEY_N, FirstCycle(SUBMIT_S1, "worker"));
  }

  lemma PassAtQuorum(c: Config, w: WalkState, key: CycleKey, e: ChainEvent)
    requires e.body.Verify? && key in w.cycles && CanPass(c, e.author, e.body.targetId)
    requires |WithVoter(VotersOf(w, key.0), e.author, e.pin)| >= c.quorum
    ensures StepPass(c, w, key, e)
         == Confirm(Gather(w, key.0, WithVoter(VotersOf(w, key.0), e.author, e.pin)), key, e.body.targetId, e.ts)
  {
  }

  /** One pass is quorum here. */
  lemma PassOnS1(w2: WalkState) returns (w: WalkState)
    requires LiveTarget(w2, "s1") == Some(KEY_N) && VotersOf(w2, "n") == map[]
    requires w2.cycles == map[KEY_N := FirstCycle(SUBMIT_S1, "worker")] && w2.verifiedPins == {}
    ensures w == Step(SUPERSEDE_CONFIG, None, w2, PASS_S1)
    ensures w.holders == w2.holders && w.verifiedPins == {"s1"}
    ensures w.cycles == map[KEY_N := FirstCycle(SUBMIT_S1, "worker").(outcome := Verified)]
  {
    var r := Reach(w2, "v1", "s1");
    var voters := WithVoter(VotersOf(w2, "n"), "voter", "v1");
    OneMoreVoter(VotersOf(w2, "n"), "voter", "v1");
    assert voters.Keys == {"voter"};
    PassAtQuorum(SUPERSEDE_CONFIG, r, KEY_N, PASS_S1);
    w := Confirm(Gather(r, "n", voters), KEY_N, "s1", 0);
  }

  lemma AfterPass() returns (w: WalkState)
    ensures w == Run(SUPERSEDE_CONFIG, None, [CLAIM_N, SUBMIT_S1, PASS_S1])
    ensures HeldUnder(w, "n", "c1") && w.verifiedPins == {"s1"}
    ensures w.cycles == map[KEY_N := FirstCycle(SUBMIT_S1, "worker").(outcome := Verified)]
  {
    var w2 := AfterFirstSubmission();
    RunSnoc(SUPERSEDE_CONFIG, None, [CLAIM_N, SUBMIT_S1], PASS_S1);
    assert [CLAIM_N, SUBMIT_S1] + [PASS_S1] == [CLAIM_N, SUBMIT_S1, PASS_S1];
    w := PassOnS1(w2);
  }

  /** Quorum soundness needs the cycle never superseded: here the effective
      submission is verified although no ballot in the timeline names it. */
  lemma SupersedeInheritsVotes()
    ensures Replayable(SUPERSEDE_CONFIG, SUPERSEDE_RUN)
    ensures var w := Run(SUPERSEDE_CONFIG, None, SUPERSEDE_RUN);
            && KEY_N in w.cycles
            && w.cycles[KEY_N].outcome.Verified?
            && w.cycles[KEY_N].effective.pin == "s2"
            && "s2" !in w.verifiedPins
    ensures forall e | e in SUPERSEDE_RUN && e.body.Verify? :: e.body.targetId != "s2"
  {
    var c := SUPERSEDE_CONFIG;
    var w3 := AfterPass();
    RunSnoc(c, None, [CLAIM_N, SUBMIT_S1, PASS_S1], SUBMIT_S2);
    assert [CLAIM_N, SUBMIT_S1, PASS_S1] + [SUBMIT_S2] == SUPERSEDE_RUN;
    var cycle := w3.cycles[KEY_N];
    assert FindSubmission(cycle.submissions, "s1") == Some(RecordOf(SUBMIT_S1));
    assert SupersedeHolds(c, cycle, RecordOf(SUBMIT_S2));
  }
}
