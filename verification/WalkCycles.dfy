/** What every reachable walk state keeps about submission cycles
    (internal/metatask/v121.go:910-941, 1061-1180): the shape of a supersede
    chain, what a verdict on a cycle means in terms of the ballots that reached
    it, and that a cycle which lost its holder never changes again. */
module WalkCycles {
  import opened ChainEvents
  import opened Walk
  import opened WalkGhosts

  // ------------------------------------------------------------------
  // Supersede chains
  // ------------------------------------------------------------------

  ghost function SubPins(subs: seq<SubmissionRecord>): set<string> {
    set i | 0 <= i < |subs| :: subs[i].pin
  }

  ghost predicate Supersedes(c: Config, older: SubmissionRecord, newer: SubmissionRecord) {
    newer.supersedeId == older.pin && newer.height >= c.hAct2 && older.height >= c.hAct2
  }

  /** One author's submissions, each superseding the one before it, none repeated. */
  ghost predicate Linked(c: Config, subs: seq<SubmissionRecord>) {
    && subs != []
    && (forall i | 0 <= i < |subs| :: subs[i].author == subs[0].author)
    && (forall i | 0 < i < |subs| :: Supersedes(c, subs[i - 1], subs[i]))
    && (forall i, j | 0 <= i < j < |subs| :: subs[i].pin != subs[j].pin)
  }

  /** The chain ends in the effective submission, and every earlier one is superseded. */
  ghost predicate ChainOk(c: Config, cycle: Cycle) {
    var n := |cycle.submissions|;
    && Linked(c, cycle.submissions)
    && cycle.effective == cycle.submissions[n - 1]
    && cycle.superseded == SubPins(cycle.submissions[..n - 1])
  }

  lemma LinkedPut(c: Config, subs: seq<SubmissionRecord>, record: SubmissionRecord)
    requires Linked(c, subs) && Supersedes(c, subs[|subs| - 1], record)
    requires record.author == subs[0].author && record.pin !in SubPins(subs)
    ensures Linked(c, subs + [record])
  {
    forall i | 0 <= i < |subs|
      ensures subs[i].pin != record.pin
    {
      assert subs[i].pin in SubPins(subs);
    }
  }

  /** The superseded record the rule finds is the effective one. */
  lemma FoundIsEffective(c: Config, cycle: Cycle, record: SubmissionRecord)
    requires ChainOk(c, cycle) && SupersedeHolds(c, cycle, record)
    ensures Supersedes(c, cycle.effective, record) && record.author == cycle.submissions[0].author
  {
    var subs := cycle.submissions;
    var found := FindSubmission(subs, record.supersedeId).value;
    var i :| 0 <= i < |subs| && subs[i] == found;
    assert i == |subs| - 1;
  }

  lemma SupersedingKeepsChain(c: Config, cycle: Cycle, record: SubmissionRecord)
    requires ChainOk(c, cycle) && SupersedeHolds(c, cycle, record)
    requires record.pin !in SubPins(cycle.submissions)
    ensures ChainOk(c, Superseding(cycle, record))
    ensures SubPins(Superseding(cycle, record).submissions) == SubPins(cycle.submissions) + {record.pin}
  {
    var subs, n := cycle.submissions, |cycle.submissions|;
    FoundIsEffective(c, cycle, record);
    LinkedPut(c, subs, record);
    SubPinsPut(subs, record);
    SubPinsPut(subs[..n - 1], cycle.effective);
    assert subs[..n - 1] + [cycle.effective] == subs;
    assert (subs + [record])[..n] == subs;
  }

  lemma SubPinsPut(subs: seq<SubmissionRecord>, record: SubmissionRecord)
    ensures SubPins(subs + [record]) == SubPins(subs) + {record.pin}
  {
    var all := subs + [record];
    assert all[|subs|] == record;
    forall p | p in SubPins(subs)
      ensures p in SubPins(all)
    {
      var i :| 0 <= i < |subs| && subs[i].pin == p;
      assert all[i].pin == p;
    }
  }

  // ------------------------------------------------------------------
  // Ballots that reached a cycle
  // ------------------------------------------------------------------

  /** A pass, by a bot whose pass counts, that reached one of the pins. */
  ghost predicate Passes(c: Config, e: ChainEvent, reached: map<string, string>, pins: set<string>) {
    && e.body.Verify? && e.body.verdict.Pass?
    && e.pin in reached && reached[e.pin] in pins
    && CanPass(c, e.author, reached[e.pin])
  }

  /** The distinct bots with such a pass. */
  ghost function Passers(c: Config, events: seq<ChainEvent>, reached: map<string, string>, pins: set<string>): set<string> {
    set i | 0 <= i < |events| && Passes(c, events[i], reached, pins) :: events[i].author
  }

  ghost predicate Fails(e: ChainEvent, reached: map<string, string>, pins: set<string>) {
    e.body.Verify? && e.body.verdict.Fail? && e.pin in reached && reached[e.pin] in pins
  }

  /** Some fail reached one of the pins. */
  ghost predicate Failed(events: seq<ChainEvent>, reached: map<string, string>, pins: set<string>) {
    exists i :: 0 <= i < |events| && Fails(events[i], reached, pins)
  }

  /** An event that reached nothing counts for nothing. */
  lemma TallyIgnores(c: Config, events: seq<ChainEvent>, e: ChainEvent, reached: map<string, string>, pins: set<string>)
    requires e.pin in reached ==> reached[e.pin] !in pins
    ensures Passers(c, events + [e], reached, pins) == Passers(c, events, reached, pins)
    ensures Failed(events + [e], reached, pins) == Failed(events, reached, pins)
  {
    var all := events + [e];
    assert all[|events|] == e && forall i | 0 <= i < |events| :: all[i] == events[i];
    forall a | a in Passers(c, events, reached, pins)
      ensures a in Passers(c, all, reached, pins)
    {
      var i :| 0 <= i < |events| && Passes(c, events[i], reached, pins) && events[i].author == a;
      assert Passes(c, all[i], reached, pins);
    }
    if Failed(events, reached, pins) {
      var i :| 0 <= i < |events| && Fails(events[i], reached, pins);
      assert Fails(all[i], reached, pins);
    }
  }

  /** What one ballot that reached a live target adds to the tally of a set of pins. */
  lemma TallyCounts(c: Config, events: seq<ChainEvent>, e: ChainEvent, reached: map<string, string>,
                    target: string, pins: set<string>)
    requires e.body.Verify? && e.pin !in Pins(events) && e.pin !in reached
    ensures var reached' := reached[e.pin := target];
            && Passers(c, events + [e], reached', pins)
               == (if target in pins && e.body.verdict.Pass? && CanPass(c, e.author, target)
                   then Passers(c, events, reached, pins) + {e.author} else Passers(c, events, reached, pins))
            && (Failed(events + [e], reached', pins)
                <==> Failed(events, reached, pins) || (target in pins && e.body.verdict.Fail?))
  {
    var all, reached' := events + [e], reached[e.pin := target];
    assert all[|events|] == e;
    forall i | 0 <= i < |events|
      ensures all[i] == events[i]
      ensures Passes(c, all[i], reached', pins) == Passes(c, events[i], reached, pins)
      ensures Fails(all[i], reached', pins) == Fails(events[i], reached, pins)
    {
      assert events[i].pin in Pins(events);
    }
    forall a | a in Passers(c, events, reached, pins)
      ensures a in Passers(c, all, reached', pins)
    {
      var i :| 0 <= i < |events| && Passes(c, events[i], reached, pins) && events[i].author == a;
      assert Passes(c, all[i], reached', pins);
    }
    if Failed(events, reached, pins) {
      var i :| 0 <= i < |events| && Fails(events[i], reached, pins);
      assert Fails(all[i], reached', pins);
    }
    if target in pins && e.body.verdict.Pass? && CanPass(c, e.author, target) {
      assert Passes(c, all[|events|], reached', pins);
    }
    if target in pins && e.body.verdict.Fail? {
      assert Fails(all[|events|], reached', pins);
    }
  }

  /** A pin nothing has reached yet adds nothing. */
  lemma TallyOfNewPin(c: Config, events: seq<ChainEvent>, reached: map<string, string>, pins: set<string>, pin: string)
    requires NeverReached(reached, pin)
    ensures Passers(c, events, reached, pins + {pin}) == Passers(c, events, reached, pins)
    ensures Failed(events, reached, pins + {pin}) == Failed(events, reached, pins)
  {
    forall e: ChainEvent
      ensures Passes(c, e, reached, pins + {pin}) == Passes(c, e, reached, pins)
      ensures Fails(e, reached, pins + {pin}) == Fails(e, reached, pins)
    {
    }
  }

  // ------------------------------------------------------------------
  // The invariant of the walk
  // ------------------------------------------------------------------

  /** The index from submission pin to author is built from the timeline's own submissions. */
  ghost predicate AuthorsIndexed(c: Config, events: seq<ChainEvent>) {
    forall i | 0 <= i < |events| && events[i].body.Submission? :: SubmitterOf(c, events[i].pin) == events[i].author
  }

  /** The cycle stands under its own claim and every one of its pins leads back to it. */
  ghost predicate Anchored(c: Config, live: map<string, string>, subCycle: map<string, CycleKey>,
                           key: CycleKey, cycle: Cycle) {
    && cycle.node == key.0 && cycle.claimId == key.1
    && ChainOk(c, cycle)
    && forall p | p in SubPins(cycle.submissions) ::
         && p in live && live[p] == key.0
         && p in subCycle && subCycle[p] == key
         && SubmitterOf(c, p) == cycle.effective.author
  }

  /** What the outcome means: refused iff a fail reached the chain, otherwise
      verified iff enough distinct bots passed members of it. */
  ghost predicate OutcomeOk(c: Config, cycle: Cycle, reached: map<string, string>, done: seq<ChainEvent>) {
    var pins := SubPins(cycle.submissions);
    && (cycle.outcome.FailRejected? <==> Failed(done, reached, pins))
    && (cycle.outcome.Verified? <==> !Failed(done, reached, pins) && |Passers(c, done, reached, pins)| >= c.quorum)
  }

  /** The votes gathered on a held node are those of the holder's cycle, and that cycle stands. */
  ghost predicate VotersOk(c: Config, cycles: map<CycleKey, Cycle>, key: CycleKey, voters: map<string, string>,
                           reached: map<string, string>, done: seq<ChainEvent>) {
    if key in cycles then
      && !cycles[key].outcome.FailRejected?
      && voters.Keys == Passers(c, done, reached, SubPins(cycles[key].submissions))
    else voters == map[]
  }

  ghost predicate HoldersOk(c: Config, holders: map<string, Holder>, passVoters: map<string, map<string, string>>,
                            cycles: map<CycleKey, Cycle>, reached: map<string, string>, done: seq<ChainEvent>) {
    && passVoters.Keys <= holders.Keys
    && forall n | n in holders ::
         && holders[n].pin in Pins(done)
         && VotersOk(c, cycles, (n, holders[n].pin), VotersIn(passVoters, n), reached, done)
  }

  ghost predicate CyclesOk(c: Config, cycles: map<CycleKey, Cycle>, live: map<string, string>,
                           subCycle: map<string, CycleKey>, reached: map<string, string>, done: seq<ChainEvent>) {
    forall key | key in cycles ::
      && key.1 in Pins(done)
      && Anchored(c, live, subCycle, key, cycles[key])
      && OutcomeOk(c, cycles[key], reached, done)
  }

  ghost predicate Inv(c: Config, w: WalkState, done: seq<ChainEvent>) {
    && PinsKnown(w, done)
    && CyclesOk(c, w.cycles, w.live, w.subCycle, w.reached, done)
    && HoldersOk(c, w.holders, w.passVoters, w.cycles, w.reached, done)
  }

  ghost predicate NoClaim(cycles: map<CycleKey, Cycle>, pin: string) {
    forall key | key in cycles :: key.1 != pin
  }

  /** No trace of the pin: not a claim in use, not a submission, not a ballot. */
  ghost predicate Unused(w: WalkState, pin: string) {
    FreshPin(w, pin) && NoClaim(w.cycles, pin)
  }

  lemma FreshIsUnused(c: Config, w: WalkState, done: seq<ChainEvent>, pin: string)
    requires Inv(c, w, done) && pin !in Pins(done)
    ensures Unused(w, pin)
  {
  }

  /** Walking past an event that reaches nothing keeps the invariant. */
  lemma PassingBy(c: Config, w: WalkState, done: seq<ChainEvent>, e: ChainEvent)
    requires Inv(c, w, done) && e.pin !in Pins(done)
    ensures Inv(c, w, done + [e])
  {
    PinsGrow(done, e);
    forall pins: set<string>
      ensures Passers(c, done + [e], w.reached, pins) == Passers(c, done, w.reached, pins)
      ensures Failed(done + [e], w.reached, pins) == Failed(done, w.reached, pins)
    {
      TallyIgnores(c, done, e, w.reached, pins);
    }
  }

  lemma HoldKeepsHolders(c: Config, w: WalkState, done: seq<ChainEvent>, node: string, holder: Holder)
    requires HoldersOk(c, w.holders, w.passVoters, w.cycles, w.reached, done)
    requires node !in w.holders && (node, holder.pin) !in w.cycles && holder.pin in Pins(done)
    ensures HoldersOk(c, w.holders[node := holder], w.passVoters, w.cycles, w.reached, done)
  {
    assert VotersIn(w.passVoters, node) == map[];
  }

  lemma HoldKeepsInv(c: Config, w: WalkState, done: seq<ChainEvent>, node: string, holder: Holder, key: OrdKey)
    requires Inv(c, w, done) && node !in w.holders && Unused(w, holder.pin) && holder.pin in Pins(done)
    ensures Inv(c, TakeHold(w, node, holder, key), done)
  {
    HoldKeepsHolders(c, w, done, node, holder);
  }

  /** Every holder but that of `node` is in order. */
  ghost predicate OthersOk(c: Config, w: WalkState, done: seq<ChainEvent>, node: string) {
    HoldersOk(c, w.holders - {node}, w.passVoters - {node}, w.cycles, w.reached, done)
  }

  lemma HoldersOkOthers(c: Config, w: WalkState, done: seq<ChainEvent>, node: string)
    requires HoldersOk(c, w.holders, w.passVoters, w.cycles, w.reached, done)
    ensures OthersOk(c, w, done, node)
  {
    forall n | n in w.holders && n != node
      ensures VotersIn(w.passVoters - {node}, n) == VotersIn(w.passVoters, n)
    {
    }
  }

  lemma ReopenKeepsInv(c: Config, w: WalkState, done: seq<ChainEvent>, node: string, why: NodeOutcome)
    requires PinsKnown(w, done) && CyclesOk(c, w.cycles, w.live, w.subCycle, w.reached, done)
    requires OthersOk(c, w, done, node)
    ensures Inv(c, Reopen(w, node, why), done)
  {
  }

  // A submission.

  /** `next` may replace the cycle under `key`: it is in order and holds the gathered votes. */
  ghost predicate NextOk(c: Config, w: WalkState, done: seq<ChainEvent>, key: CycleKey, next: Cycle) {
    var pin := next.effective.pin;
    && Anchored(c, w.live[pin := key.0], w.subCycle[pin := key], key, next)
    && OutcomeOk(c, next, w.reached, done)
    && !next.outcome.FailRejected?
    && VotersOf(w, key.0).Keys == Passers(c, done, w.reached, SubPins(next.submissions))
  }

  lemma FirstIsOk(c: Config, w: WalkState, done: seq<ChainEvent>, e: ChainEvent, claimant: string)
    requires e.body.Submission? && Unused(w, e.pin) && VotersOf(w, e.body.node) == map[]
    requires c.quorum >= 1 && SubmitterOf(c, e.pin) == e.author
    ensures NextOk(c, w, done, (e.body.node, e.body.claimId), FirstCycle(e, claimant))
  {
    var next := FirstCycle(e, claimant);
    SubPinsPut([], RecordOf(e));
    assert [] + [RecordOf(e)] == next.submissions && next.submissions[..0] == [];
    assert SubPins([]) == {};
    TallyOfNewPin(c, done, w.reached, {}, e.pin);
    NothingForNoPins(c, done, w.reached);
  }

  lemma SupersedingIsOk(c: Config, w: WalkState, done: seq<ChainEvent>, key: CycleKey, record: SubmissionRecord)
    requires key in w.cycles && Unused(w, record.pin)
    requires Anchored(c, w.live, w.subCycle, key, w.cycles[key]) && OutcomeOk(c, w.cycles[key], w.reached, done)
    requires VotersOk(c, w.cycles, key, VotersOf(w, key.0), w.reached, done)
    requires SupersedeHolds(c, w.cycles[key], record) && SubmitterOf(c, record.pin) == record.author
    ensures NextOk(c, w, done, key, Superseding(w.cycles[key], record))
  {
    var cycle := w.cycles[key];
    assert record.pin !in SubPins(cycle.submissions);
    SupersedingKeepsChain(c, cycle, record);
    FoundIsEffective(c, cycle, record);
    TallyOfNewPin(c, done, w.reached, SubPins(cycle.submissions), record.pin);
  }

  lemma NothingForNoPins(c: Config, done: seq<ChainEvent>, reached: map<string, string>)
    ensures Passers(c, done, reached, {}) == {} && !Failed(done, reached, {})
  {
  }

  lemma InstallKeepsCycles(c: Config, w: WalkState, done: seq<ChainEvent>, key: CycleKey, next: Cycle)
    requires CyclesOk(c, w.cycles, w.live, w.subCycle, w.reached, done)
    requires key.1 in Pins(done) && Unused(w, next.effective.pin)
    requires Anchored(c, w.live[next.effective.pin := key.0], w.subCycle[next.effective.pin := key], key, next)
    requires OutcomeOk(c, next, w.reached, done)
    ensures CyclesOk(c, w.cycles[key := next], w.live[next.effective.pin := key.0],
                     w.subCycle[next.effective.pin := key], w.reached, done)
  {
    var pin := next.effective.pin;
    forall k | k in w.cycles && k != key
      ensures Anchored(c, w.live[pin := key.0], w.subCycle[pin := key], k, w.cycles[k])
    {
      assert Anchored(c, w.live, w.subCycle, k, w.cycles[k]);
      assert pin !in SubPins(w.cycles[k].submissions);
    }
  }

  lemma InstallKeepsHolders(c: Config, w: WalkState, done: seq<ChainEvent>, key: CycleKey, next: Cycle)
    requires HoldersOk(c, w.holders, w.passVoters, w.cycles, w.reached, done)
    requires HeldUnder(w, key.0, key.1) && NextOk(c, w, done, key, next)
    ensures HoldersOk(c, w.holders, w.passVoters, w.cycles[key := next], w.reached, done)
  {
  }

  lemma InstallKeepsInv(c: Config, w: WalkState, done: seq<ChainEvent>, key: CycleKey, next: Cycle)
    requires Inv(c, w, done) && HeldUnder(w, key.0, key.1) && NextOk(c, w, done, key, next)
    requires Unused(w, next.effective.pin) && next.effective.pin in Pins(done)
    ensures Inv(c, Install(w, key, next), done)
  {
    InstallKeepsCycles(c, w, done, key, next);
    InstallKeepsHolders(c, w, done, key, next);
    InstallKeepsPins(w, done, key, next);
  }

  lemma SubmissionKeepsInv(c: Config, w: WalkState, done: seq<ChainEvent>, e: ChainEvent)
    requires Inv(c, w, done) && e.body.Submission? && Unused(w, e.pin) && e.pin in Pins(done)
    requires c.quorum >= 1 && SubmitterOf(c, e.pin) == e.author
    ensures Inv(c, StepSubmission(c, w, e), done)
  {
    var key := (e.body.node, e.body.claimId);
    if HeldUnder(w, key.0, key.1) {
      assert VotersOk(c, w.cycles, (key.0, w.holders[key.0].pin), VotersIn(w.passVoters, key.0), w.reached, done);
      var next := NextCycle(c, w.cycles, w.holders[key.0].claimant, e);
      if key !in w.cycles {
        FirstIsOk(c, w, done, e, w.holders[key.0].claimant);
        InstallKeepsInv(c, w, done, key, FirstCycle(e, w.holders[key.0].claimant));
      } else if next.Some? {
        SupersedingIsOk(c, w, done, key, RecordOf(e));
        InstallKeepsInv(c, w, done, key, Superseding(w.cycles[key], RecordOf(e)));
      }
    }
  }

  // A ballot. `all` is the walked prefix with the ballot at its end.

  /** The live target belongs to its cycle and to no other. */
  lemma TargetIsOwn(c: Config, w: WalkState, done: seq<ChainEvent>, target: string, key: CycleKey)
    requires Inv(c, w, done) && LiveTarget(w, target) == Some(key)
    ensures target in SubPins(w.cycles[key].submissions)
    ensures forall k | k in w.cycles && k != key :: target !in SubPins(w.cycles[k].submissions)
    ensures SubmitterOf(c, target) == w.cycles[key].effective.author
    ensures VotersOk(c, w.cycles, key, VotersOf(w, key.0), w.reached, done)
    ensures target in w.live && w.live[target] == key.0
  {
    var cycle := w.cycles[key];
    assert Anchored(c, w.live, w.subCycle, key, cycle);
    assert cycle.submissions[|cycle.submissions| - 1].pin == target;
    forall k | k in w.cycles && k != key
      ensures target !in SubPins(w.cycles[k].submissions)
    {
      assert Anchored(c, w.live, w.subCycle, k, w.cycles[k]);
    }
  }

  /** Outcomes and gathered votes of every other cycle do not feel the ballot. */
  lemma BallotSparesOthers(c: Config, w: WalkState, done: seq<ChainEvent>, e: ChainEvent, k: CycleKey)
    requires e.body.Verify? && e.pin !in Pins(done) && e.pin !in w.reached && k in w.cycles
    requires e.body.targetId !in SubPins(w.cycles[k].submissions)
    requires OutcomeOk(c, w.cycles[k], w.reached, done)
    ensures var reached', all := w.reached[e.pin := e.body.targetId], done + [e];
            && OutcomeOk(c, w.cycles[k], reached', all)
            && Passers(c, all, reached', SubPins(w.cycles[k].submissions))
               == Passers(c, done, w.reached, SubPins(w.cycles[k].submissions))
  {
    TallyCounts(c, done, e, w.reached, e.body.targetId, SubPins(w.cycles[k].submissions));
  }

  /** The ballot's own cycle: what its outcome and votes must become. */
  lemma BallotCounts(c: Config, w: WalkState, done: seq<ChainEvent>, e: ChainEvent, key: CycleKey)
    requires Inv(c, w, done) && e.body.Verify? && e.pin !in Pins(done) && e.pin !in w.reached
    requires LiveTarget(w, e.body.targetId) == Some(key)
    ensures var reached', all := w.reached[e.pin := e.body.targetId], done + [e];
            var pins := SubPins(w.cycles[key].submissions);
            && (Failed(all, reached', pins) <==> e.body.verdict.Fail?)
            && Passers(c, all, reached', pins)
               == (if e.body.verdict.Pass? && CanPass(c, e.author, e.body.targetId)
                   then VotersOf(w, key.0).Keys + {e.author} else VotersOf(w, key.0).Keys)
            && (w.cycles[key].outcome.Verified? <==> |VotersOf(w, key.0).Keys| >= c.quorum)
            && !w.cycles[key].outcome.FailRejected?
  {
    TargetIsOwn(c, w, done, e.body.targetId, key);
    TallyCounts(c, done, e, w.reached, e.body.targetId, SubPins(w.cycles[key].submissions));
  }

  lemma ReplaceOutcome(c: Config, w: WalkState, all: seq<ChainEvent>, reached: map<string, string>, key: CycleKey, next: Cycle)
    requires key in w.cycles && next.submissions == w.cycles[key].submissions && next.effective == w.cycles[key].effective
    requires next.node == w.cycles[key].node && next.claimId == w.cycles[key].claimId
    requires next.superseded == w.cycles[key].superseded
    requires forall k | k in w.cycles ::
      && k.1 in Pins(all)
      && Anchored(c, w.live, w.subCycle, k, w.cycles[k])
      && (k != key ==> OutcomeOk(c, w.cycles[k], reached, all))
    requires OutcomeOk(c, next, reached, all)
    ensures CyclesOk(c, w.cycles[key := next], w.live, w.subCycle, reached, all)
  {
  }

  /** Facts about every cycle but the ballot's own, at the longer prefix. */
  lemma OtherCyclesStand(c: Config, w: WalkState, done: seq<ChainEvent>, e: ChainEvent, key: CycleKey)
    requires Inv(c, w, done) && e.body.Verify? && e.pin !in Pins(done) && e.pin !in w.reached
    requires LiveTarget(w, e.body.targetId) == Some(key)
    ensures var reached', all := w.reached[e.pin := e.body.targetId], done + [e];
            && (forall k | k in w.cycles ::
                 && k.1 in Pins(all)
                 && Anchored(c, w.live, w.subCycle, k, w.cycles[k])
                 && (k != key ==> OutcomeOk(c, w.cycles[k], reached', all)))
            && OthersOk(c, Reach(w, e.pin, e.body.targetId), all, key.0)
  {
    TargetIsOwn(c, w, done, e.body.targetId, key);
    PinsGrow(done, e);
    forall k | k in w.cycles && k != key
      ensures OutcomeOk(c, w.cycles[k], w.reached[e.pin := e.body.targetId], done + [e])
      ensures Passers(c, done + [e], w.reached[e.pin := e.body.targetId], SubPins(w.cycles[k].submissions))
           == Passers(c, done, w.reached, SubPins(w.cycles[k].submissions))
    {
      BallotSparesOthers(c, w, done, e, k);
    }
    HoldersOkOthers(c, w, done, key.0);
  }

  lemma FailKeepsInv(c: Config, w: WalkState, done: seq<ChainEvent>, e: ChainEvent, key: CycleKey)
    requires Inv(c, w, done) && e.body.Verify? && e.pin !in Pins(done) && e.pin !in w.reached
    requires LiveTarget(w, e.body.targetId) == Some(key) && e.body.verdict.Fail?
    requires PinsKnown(Reach(w, e.pin, e.body.targetId), done + [e])
    ensures Inv(c, StepFail(Reach(w, e.pin, e.body.targetId), key, e.body.targetId), done + [e])
  {
    var all, w' := done + [e], Reach(w, e.pin, e.body.targetId);
    OtherCyclesStand(c, w, done, e, key);
    BallotCounts(c, w, done, e, key);
    ReplaceOutcome(c, w, all, w'.reached, key, w.cycles[key].(outcome := FailRejected));
    RefuseKeepsOthers(c, w', all, key, e.body.targetId);
    ReopenKeepsInv(c, Refuse(w', key, e.body.targetId), all, key.0, Rejected);
  }

  lemma RefuseKeepsOthers(c: Config, w: WalkState, all: seq<ChainEvent>, key: CycleKey, target: string)
    requires PinsKnown(w, all) && key in w.cycles && OthersOk(c, w, all, key.0)
    ensures PinsKnown(Refuse(w, key, target), all) && OthersOk(c, Refuse(w, key, target), all, key.0)
  {
  }

  /** A held node whose cycle and voters change together. */
  lemma OthersAndOwn(c: Config, w: WalkState, all: seq<ChainEvent>, key: CycleKey)
    requires OthersOk(c, w, all, key.0) && HeldUnder(w, key.0, key.1) && key.1 in Pins(all)
    requires VotersOk(c, w.cycles, key, VotersOf(w, key.0), w.reached, all)
    ensures HoldersOk(c, w.holders, w.passVoters, w.cycles, w.reached, all)
  {
    forall n | n in w.holders && n != key.0
      ensures VotersIn(w.passVoters, n) == VotersIn(w.passVoters - {key.0}, n)
    {
      assert n in w.holders - {key.0};
    }
    assert forall n | n in w.passVoters && n != key.0 :: n in w.passVoters - {key.0};
  }

  /** The own cycle, unchanged, is in order too. */
  lemma KeepOutcome(c: Config, w: WalkState, done: seq<ChainEvent>, e: ChainEvent, key: CycleKey)
    requires Inv(c, w, done) && e.body.Verify? && e.pin !in Pins(done) && e.pin !in w.reached
    requires LiveTarget(w, e.body.targetId) == Some(key)
    requires OutcomeOk(c, w.cycles[key], w.reached[e.pin := e.body.targetId], done + [e])
    ensures CyclesOk(c, w.cycles, w.live, w.subCycle, w.reached[e.pin := e.body.targetId], done + [e])
  {
    OtherCyclesStand(c, w, done, e, key);
  }

  /** The ballot changes neither outcome nor voters. */
  lemma MutedKeepsInv(c: Config, w: WalkState, done: seq<ChainEvent>, e: ChainEvent, key: CycleKey)
    requires Inv(c, w, done) && e.body.Verify? && e.pin !in Pins(done) && e.pin !in w.reached
    requires LiveTarget(w, e.body.targetId) == Some(key) && !e.body.verdict.Fail?
    requires !(e.body.verdict.Pass? && CanPass(c, e.author, e.body.targetId))
    requires PinsKnown(Reach(w, e.pin, e.body.targetId), done + [e])
    ensures Inv(c, Reach(w, e.pin, e.body.targetId), done + [e])
  {
    var r := Reach(w, e.pin, e.body.targetId);
    BallotCounts(c, w, done, e, key);
    KeepOutcome(c, w, done, e, key);
    OtherCyclesStand(c, w, done, e, key);
    OthersAndOwn(c, r, done + [e], key);
  }

  /** An effective pass: the gathered voters are the passers of the longer prefix. */
  lemma GatheredArePassers(c: Config, w: WalkState, done: seq<ChainEvent>, e: ChainEvent, key: CycleKey)
    requires Inv(c, w, done) && e.body.Verify? && e.pin !in Pins(done) && e.pin !in w.reached
    requires LiveTarget(w, e.body.targetId) == Some(key)
    requires e.body.verdict.Pass? && CanPass(c, e.author, e.body.targetId)
    ensures var voters := WithVoter(VotersOf(w, key.0), e.author, e.pin);
            var reached', all := w.reached[e.pin := e.body.targetId], done + [e];
            var pins := SubPins(w.cycles[key].submissions);
            && voters.Keys == Passers(c, all, reached', pins) && |voters| == |voters.Keys|
            && !Failed(all, reached', pins)
            && (|voters| < c.quorum ==> w.cycles[key].outcome.Open?)
            && !w.cycles[key].outcome.FailRejected?
  {
    BallotCounts(c, w, done, e, key);
    OneMoreVoter(VotersOf(w, key.0), e.author, e.pin);
  }

  lemma MissKeepsInv(c: Config, w: WalkState, done: seq<ChainEvent>, e: ChainEvent, key: CycleKey,
                     voters: map<string, string>)
    requires Inv(c, w, done) && e.body.Verify? && e.pin !in Pins(done) && e.pin !in w.reached
    requires LiveTarget(w, e.body.targetId) == Some(key)
    requires e.body.verdict.Pass? && CanPass(c, e.author, e.body.targetId)
    requires PinsKnown(Reach(w, e.pin, e.body.targetId), done + [e])
    requires voters == WithVoter(VotersOf(w, key.0), e.author, e.pin) && |voters| < c.quorum
    ensures Inv(c, Gather(Reach(w, e.pin, e.body.targetId), key.0, voters), done + [e])
  {
    var all, r := done + [e], Reach(w, e.pin, e.body.targetId);
    GatheredArePassers(c, w, done, e, key);
    KeepOutcome(c, w, done, e, key);
    OtherCyclesStand(c, w, done, e, key);
    GatherKeepsOthers(c, r, all, key, voters);
    OthersAndOwn(c, Gather(r, key.0, voters), all, key);
  }

  lemma QuorumKeepsInv(c: Config, w: WalkState, done: seq<ChainEvent>, e: ChainEvent, key: CycleKey,
                       voters: map<string, string>)
    requires Inv(c, w, done) && e.body.Verify? && e.pin !in Pins(done) && e.pin !in w.reached
    requires LiveTarget(w, e.body.targetId) == Some(key)
    requires e.body.verdict.Pass? && CanPass(c, e.author, e.body.targetId)
    requires PinsKnown(Reach(w, e.pin, e.body.targetId), done + [e])
    requires voters == WithVoter(VotersOf(w, key.0), e.author, e.pin) && |voters| >= c.quorum
    ensures Inv(c, Confirm(Gather(Reach(w, e.pin, e.body.targetId), key.0, voters), key, e.body.targetId, e.ts), done + [e])
  {
    var all, r := done + [e], Reach(w, e.pin, e.body.targetId);
    var g := Gather(r, key.0, voters);
    var v := Confirm(g, key, e.body.targetId, e.ts);
    GatheredArePassers(c, w, done, e, key);
    OtherCyclesStand(c, w, done, e, key);
    ReplaceOutcome(c, w, all, r.reached, key, v.cycles[key]);
    GatherKeepsOthers(c, r, all, key, voters);
    ConfirmKeepsOthers(c, g, all, key, e.body.targetId, e.ts);
    OthersAndOwn(c, v, all, key);
  }

  lemma PassKeepsInv(c: Config, w: WalkState, done: seq<ChainEvent>, e: ChainEvent, key: CycleKey)
    requires Inv(c, w, done) && e.body.Verify? && e.pin !in Pins(done) && e.pin !in w.reached
    requires LiveTarget(w, e.body.targetId) == Some(key)
    requires e.body.verdict.Pass? && CanPass(c, e.author, e.body.targetId)
    requires PinsKnown(Reach(w, e.pin, e.body.targetId), done + [e])
    ensures Inv(c, StepPass(c, Reach(w, e.pin, e.body.targetId), key, e), done + [e])
  {
    var voters := WithVoter(VotersOf(w, key.0), e.author, e.pin);
    assert VotersOf(Gather(Reach(w, e.pin, e.body.targetId), key.0, voters), key.0) == voters;
    if |voters| < c.quorum {
      MissKeepsInv(c, w, done, e, key, voters);
    } else {
      QuorumKeepsInv(c, w, done, e, key, voters);
    }
  }

  lemma OneMoreVoter(voters: map<string, string>, author: string, pin: string)
    ensures var more := WithVoter(voters, author, pin);
            more.Keys == voters.Keys + {author} && |more| == |more.Keys| >= |voters.Keys|
  {
    assert voters.Keys + {author} == if author in voters then voters.Keys else voters.Keys + {author};
  }

  lemma GatherKeepsOthers(c: Config, w: WalkState, all: seq<ChainEvent>, key: CycleKey, voters: map<string, string>)
    requires PinsKnown(w, all) && OthersOk(c, w, all, key.0)
    ensures PinsKnown(Gather(w, key.0, voters), all) && OthersOk(c, Gather(w, key.0, voters), all, key.0)
    ensures VotersOf(Gather(w, key.0, voters), key.0) == voters
  {
    assert w.passVoters[key.0 := voters] - {key.0} == w.passVoters - {key.0};
  }

  lemma ConfirmKeepsOthers(c: Config, w: WalkState, all: seq<ChainEvent>, key: CycleKey, target: string, at: int)
    requires PinsKnown(w, all) && OthersOk(c, w, all, key.0) && key in w.cycles && target in w.live
    ensures PinsKnown(Confirm(w, key, target, at), all) && OthersOk(c, Confirm(w, key, target, at), all, key.0)
  {
  }

  lemma VerifyKeepsInv(c: Config, w: WalkState, done: seq<ChainEvent>, e: ChainEvent)
    requires Inv(c, w, done) && e.body.Verify? && e.pin !in Pins(done)
    ensures Inv(c, StepVerify(c, w, e), done + [e])
  {
    var key := LiveTarget(w, e.body.targetId);
    PassingBy(c, w, done, e);
    if key.Some? {
      PinsGrow(done, e);
      ReachKeepsPins(w, done + [e], e.pin, e.body.targetId);
      if e.body.verdict.Fail? {
        FailKeepsInv(c, w, done, e, key.value);
      } else if e.body.verdict.Pass? && CanPass(c, e.author, e.body.targetId) {
        PassKeepsInv(c, w, done, e, key.value);
      } else {
        MutedKeepsInv(c, w, done, e, key.value);
      }
    }
  }

  lemma StepKeepsInv(c: Config, inTree: Option<set<string>>, w: WalkState, done: seq<ChainEvent>, e: ChainEvent)
    requires Inv(c, w, done) && e.pin !in Pins(done) && c.quorum >= 1
    requires e.body.Submission? ==> SubmitterOf(c, e.pin) == e.author
    ensures Inv(c, Step(c, inTree, w, e), done + [e])
  {
    if e.body.Verify? {
      VerifyKeepsInv(c, w, done, e);
    } else {
      var all := done + [e];
      FreshIsUnused(c, w, done, e.pin);
      PassingBy(c, w, done, e);
      PinsGrow(done, e);
      match e.body
      case Claim(_, node) =>
        if node !in w.holders {
          HoldKeepsInv(c, w, all, node, Holder(e.pin, e.author, e.ts, e.height), KeyOf(e));
        }
      case Release(_, node, _) =>
        HoldersOkOthers(c, w, all, node);
        ReopenKeepsInv(c, w, all, node, Released);
      case Submission(_, _, _, _, _) => SubmissionKeepsInv(c, w, all, e);
      case _ =>
    }
  }

  lemma {:induction false} RunKeepsInv(c: Config, inTree: Option<set<string>>, timeline: seq<ChainEvent>)
    requires DistinctPins(timeline) && AuthorsIndexed(c, timeline) && c.quorum >= 1
    ensures Inv(c, Run(c, inTree, timeline), timeline)
  {
    if timeline != [] {
      var n := |timeline| - 1;
      PrefixPinsFresh(timeline, n);
      RunKeepsInv(c, inTree, timeline[..n]);
      StepKeepsInv(c, inTree, Run(c, inTree, timeline[..n]), timeline[..n], timeline[n]);
      assert timeline[..n] + [timeline[n]] == timeline;
    }
  }
}
