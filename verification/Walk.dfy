/** The unified ordered walk of the v1.2.1 replay engine
    (internal/metatask/v121.go:969-1242): claims, releases, submissions and
    acting votes interleave in one pass that updates the walk state in place.

    `Step`, `Run` and `Expired` say what one event, one pass and the expiry
    sweep do to the state; class `Walker` is the engine's own form, fields
    updated by a loop, proved to compute them. */
module Walk {
  import opened ChainEvents

  datatype Holder = Holder(pin: string, claimant: string, since: int, height: int)

  datatype SubmissionRecord = SubmissionRecord(pin: string, author: string, at: int, height: int,
                                               supersedeId: string)

  datatype Outcome = Open | Verified | FailRejected

  /** One (node, claim) submission cycle; `quorumAt` 0 means quorum was never reached. */
  datatype Cycle = Cycle(node: string, claimId: string, claimant: string,
                         submissions: seq<SubmissionRecord>, effective: SubmissionRecord,
                         superseded: set<string>, outcome: Outcome, quorumAt: int)

  type CycleKey = (string, string)

  datatype NodeOutcome = NoOutcome | Rejected | Released | ExpiredClaim | ExpiredWindow

  datatype IgnoreReason = UnknownNode | DuplicateWithoutSupersede | SupersedePredicateFailed

  datatype Ignored = Ignored(pin: string, reason: IgnoreReason)

  datatype Config = Config(quorum: int, rootAuthor: string, hAct2: int,
                           subAuthor: map<string, string>)

  /** What a pass knows about nodes. `reached` maps each ballot that reached a
      live target to that target. */
  datatype WalkState = WalkState(
    holders: map<string, Holder>,
    firstClaim: map<string, OrdKey>,
    cycleOrder: seq<CycleKey>,
    cycles: map<CycleKey, Cycle>,
    verifiedPins: set<string>,
    passVoters: map<string, map<string, string>>,
    live: map<string, string>,
    subCycle: map<string, CycleKey>,
    nodeOutcome: map<string, NodeOutcome>,
    reached: map<string, string>)

  const EMPTY_WALK := WalkState(map[], map[], [], map[], {}, map[], map[], map[], map[], map[])

  /** A node outside the membership filter; `None` is the unfiltered pass. */
  predicate Ghost(inTree: Option<set<string>>, node: string) {
    inTree.Some? && node !in inTree.value
  }

  function VotersIn(passVoters: map<string, map<string, string>>, node: string): map<string, string> {
    if node in passVoters then passVoters[node] else map[]
  }

  function VotersOf(w: WalkState, node: string): map<string, string> {
    VotersIn(w.passVoters, node)
  }

  function SubmitterOf(c: Config, pin: string): string {
    if pin in c.subAuthor then c.subAuthor[pin] else ""
  }

  // ------------------------------------------------------------------
  // The state changes an event can make
  // ------------------------------------------------------------------

  /** The node gets a holder; its first effective claim is remembered. */
  function TakeHold(w: WalkState, node: string, holder: Holder, key: OrdKey): WalkState {
    w.(holders := w.holders[node := holder],
       firstClaim := if node in w.firstClaim then w.firstClaim else w.firstClaim[node := key],
       nodeOutcome := w.nodeOutcome[node := NoOutcome])
  }

  /** The node loses its holder and the votes gathered under it. */
  function Reopen(w: WalkState, node: string, why: NodeOutcome): WalkState {
    w.(holders := w.holders - {node},
       passVoters := w.passVoters - {node},
       nodeOutcome := w.nodeOutcome[node := why])
  }

  /** A new cycle goes to the end of the insertion order. */
  function Enlist(order: seq<CycleKey>, cycles: map<CycleKey, Cycle>, key: CycleKey): seq<CycleKey> {
    if key in cycles then order else order + [key]
  }

  /** `cycle` stands under `key`, its effective submission being the live target. */
  function Install(w: WalkState, key: CycleKey, cycle: Cycle): WalkState {
    w.(cycleOrder := Enlist(w.cycleOrder, w.cycles, key),
       cycles := w.cycles[key := cycle],
       live := w.live[cycle.effective.pin := key.0],
       subCycle := w.subCycle[cycle.effective.pin := key])
  }

  function Reach(w: WalkState, vote: string, target: string): WalkState {
    w.(reached := w.reached[vote := target])
  }

  function Refuse(w: WalkState, key: CycleKey, target: string): WalkState
    requires key in w.cycles
  {
    w.(cycles := w.cycles[key := w.cycles[key].(outcome := FailRejected)],
       verifiedPins := w.verifiedPins - {target})
  }

  function Gather(w: WalkState, node: string, voters: map<string, string>): WalkState {
    w.(passVoters := w.passVoters[node := voters])
  }

  function Confirm(w: WalkState, key: CycleKey, target: string, at: int): WalkState
    requires key in w.cycles
  {
    var cycle := w.cycles[key];
    w.(cycles := w.cycles[key := cycle.(outcome := Verified,
                                        quorumAt := if cycle.quorumAt == 0 then at else cycle.quorumAt)],
       verifiedPins := w.verifiedPins + {target})
  }

  // ------------------------------------------------------------------
  // One event
  // ------------------------------------------------------------------

  function StepClaim(w: WalkState, e: ChainEvent): WalkState
    requires e.body.Claim?
  {
    if e.body.node in w.holders then w
    else TakeHold(w, e.body.node, Holder(e.pin, e.author, e.ts, e.height), KeyOf(e))
  }

  function RecordOf(e: ChainEvent): SubmissionRecord
    requires e.body.Submission?
  {
    SubmissionRecord(e.pin, e.author, e.ts, e.height, e.body.supersedeId)
  }

  /** The first member of the cycle with the given pin. */
  function FindSubmission(subs: seq<SubmissionRecord>, pin: string): (r: Option<SubmissionRecord>)
    ensures r.Some? ==> r.value in subs && r.value.pin == pin
    ensures r.None? ==> forall s | s in subs :: s.pin != pin
  {
    if subs == [] then None
    else if subs[0].pin == pin then Some(subs[0])
    else FindSubmission(subs[1..], pin)
  }

  /** The six predicates of the supersede rule. */
  predicate SupersedeHolds(c: Config, cycle: Cycle, record: SubmissionRecord) {
    var found := FindSubmission(cycle.submissions, record.supersedeId);
    && found.Some?
    && found.value.pin != record.pin
    && found.value.pin == cycle.effective.pin
    && found.value.author == record.author
    && record.height >= c.hAct2
    && found.value.height >= c.hAct2
    && record.supersedeId !in cycle.superseded
  }

  function FirstCycle(e: ChainEvent, claimant: string): Cycle
    requires e.body.Submission?
  {
    Cycle(e.body.node, e.body.claimId, claimant, [RecordOf(e)], RecordOf(e), {}, Open, 0)
  }

  function Superseding(cycle: Cycle, record: SubmissionRecord): Cycle {
    cycle.(superseded := cycle.superseded + {record.supersedeId},
           submissions := cycle.submissions + [record],
           effective := record)
  }

  /** The cycle under the holder's claim once it has taken the submission, if it takes it. */
  function NextCycle(c: Config, cycles: map<CycleKey, Cycle>, claimant: string, e: ChainEvent): Option<Cycle>
    requires e.body.Submission?
  {
    var key := (e.body.node, e.body.claimId);
    if key !in cycles then Some(FirstCycle(e, claimant))
    else if e.body.supersedeId != "" && SupersedeHolds(c, cycles[key], RecordOf(e))
    then Some(Superseding(cycles[key], RecordOf(e)))
    else None
  }

  function Attach(w: WalkState, key: CycleKey, next: Option<Cycle>): WalkState {
    if next.None? then w else Install(w, key, next.value)
  }

  /** The node's holder claimed under `claimId`. */
  predicate HeldUnder(w: WalkState, node: string, claimId: string) {
    node in w.holders && w.holders[node].pin == claimId
  }

  function StepRelease(w: WalkState, e: ChainEvent): WalkState
    requires e.body.Release?
  {
    if HeldUnder(w, e.body.node, e.body.claimId) then Reopen(w, e.body.node, Released) else w
  }

  function StepSubmission(c: Config, w: WalkState, e: ChainEvent): WalkState
    requires e.body.Submission?
  {
    var key := (e.body.node, e.body.claimId);
    if !HeldUnder(w, key.0, key.1) then w
    else Attach(w, key, NextCycle(c, w.cycles, w.holders[key.0].claimant, e))
  }

  /** The key of the live cycle whose effective submission is `target`, if there is one. */
  function LiveTarget(w: WalkState, target: string): Option<CycleKey> {
    if target !in w.live then None
    else
      var node := w.live[target];
      if node !in w.holders then None
      else
        var key := (node, w.holders[node].pin);
        if key in w.cycles && w.cycles[key].effective.pin == target then Some(key) else None
  }

  function StepFail(w: WalkState, key: CycleKey, target: string): WalkState
    requires key in w.cycles
  {
    Reopen(Refuse(w, key, target), key.0, Rejected)
  }

  /** The voters once `author` has voted: a bot counts once, under its first ballot. */
  function WithVoter(voters: map<string, string>, author: string, pin: string): map<string, string> {
    if author in voters then voters else voters[author := pin]
  }

  /** Quorum verifies the cycle. */
  function Weigh(c: Config, w: WalkState, key: CycleKey, target: string, at: int): WalkState
    requires key in w.cycles
  {
    if |VotersOf(w, key.0)| < c.quorum then w else Confirm(w, key, target, at)
  }

  /** A pass by the submitter or by the task's author never counts. */
  predicate CanPass(c: Config, author: string, target: string) {
    author != SubmitterOf(c, target) && author != c.rootAuthor
  }

  function StepPass(c: Config, w: WalkState, key: CycleKey, e: ChainEvent): WalkState
    requires e.body.Verify? && key in w.cycles
  {
    if !CanPass(c, e.author, e.body.targetId) then w
    else
      Weigh(c, Gather(w, key.0, WithVoter(VotersOf(w, key.0), e.author, e.pin)), key, e.body.targetId, e.ts)
  }

  /** A ballot that reached the live cycle under `key`. */
  function Ballot(c: Config, w: WalkState, key: CycleKey, e: ChainEvent): WalkState
    requires e.body.Verify? && key in w.cycles
  {
    match e.body.verdict
    case Fail => StepFail(w, key, e.body.targetId)
    case Pass => StepPass(c, w, key, e)
    case _ => w
  }

  function StepVerify(c: Config, w: WalkState, e: ChainEvent): WalkState
    requires e.body.Verify?
  {
    var key := LiveTarget(w, e.body.targetId);
    if key.None? then w else Ballot(c, Reach(w, e.pin, e.body.targetId), key.value, e)
  }

  /** A claim, release or submission that names its node (and, for a submission, its claim). */
  predicate Addressed(e: ChainEvent) {
    match e.body
    case Claim(_, node) => node != ""
    case Release(_, node, _) => node != ""
    case Submission(_, node, claimId, _, _) => node != "" && claimId != ""
    case _ => false
  }

  function Step(c: Config, inTree: Option<set<string>>, w: WalkState, e: ChainEvent): WalkState {
    if e.body.Verify? then StepVerify(c, w, e)
    else if !Addressed(e) || Ghost(inTree, e.body.node) then w
    else
      match e.body
      case Claim(_, _) => StepClaim(w, e)
      case Release(_, _, _) => StepRelease(w, e)
      case Submission(_, _, _, _, _) => StepSubmission(c, w, e)
  }

  /** What the event adds to the ignore log. */
  function LogOf(c: Config, inTree: Option<set<string>>, w: WalkState, e: ChainEvent): seq<Ignored> {
    if !Addressed(e) then []
    else if Ghost(inTree, e.body.node) then [Ignored(e.pin, UnknownNode)]
    else if !e.body.Submission? then []
    else
      var key := (e.body.node, e.body.claimId);
      if !HeldUnder(w, key.0, key.1) || key !in w.cycles then []
      else if e.body.supersedeId == "" then [Ignored(e.pin, DuplicateWithoutSupersede)]
      else if SupersedeHolds(c, w.cycles[key], RecordOf(e)) then []
      else [Ignored(e.pin, SupersedePredicateFailed)]
  }

  /** The effective claims per author after the event. */
  function CountClaim(inTree: Option<set<string>>, w: WalkState, counts: map<string, nat>, e: ChainEvent): map<string, nat> {
    if e.body.Claim? && Addressed(e) && !Ghost(inTree, e.body.node) && e.body.node !in w.holders
    then counts[e.author := 1 + if e.author in counts then counts[e.author] else 0]
    else counts
  }

  // ------------------------------------------------------------------
  // One pass
  // ------------------------------------------------------------------

  /** The state after the whole timeline. */
  function Run(c: Config, inTree: Option<set<string>>, timeline: seq<ChainEvent>): WalkState {
    if timeline == [] then EMPTY_WALK
    else Step(c, inTree, Run(c, inTree, timeline[..|timeline| - 1]), timeline[|timeline| - 1])
  }

  function RunLog(c: Config, inTree: Option<set<string>>, timeline: seq<ChainEvent>): seq<Ignored> {
    if timeline == [] then []
    else
      var prefix := timeline[..|timeline| - 1];
      RunLog(c, inTree, prefix) + LogOf(c, inTree, Run(c, inTree, prefix), timeline[|timeline| - 1])
  }

  function RunCounts(c: Config, inTree: Option<set<string>>, timeline: seq<ChainEvent>): map<string, nat> {
    if timeline == [] then map[]
    else
      var prefix := timeline[..|timeline| - 1];
      CountClaim(inTree, Run(c, inTree, prefix), RunCounts(c, inTree, prefix), timeline[|timeline| - 1])
  }

  // ------------------------------------------------------------------
  // Expiry against the evaluation clock
  // ------------------------------------------------------------------

  datatype Clock = Clock(now: int, ttlHours: int, windowHours: int)

  const HOUR_MS := 3_600_000

  function ExpiryOf(c: Config, k: Clock, w: WalkState, node: string): Option<NodeOutcome>
    requires node in w.holders
  {
    var holder := w.holders[node];
    var key := (node, holder.pin);
    if key !in w.cycles then
      if k.ttlHours > 0 && k.now - holder.since > k.ttlHours * HOUR_MS then Some(ExpiredClaim) else None
    else if k.windowHours > 0 then
      if |VotersOf(w, node)| < c.quorum && k.now - w.cycles[key].effective.at > k.windowHours * HOUR_MS
      then Some(ExpiredWindow) else None
    else None
  }

  function Gone(c: Config, k: Clock, w: WalkState, nodes: set<string>): (gone: set<string>)
    requires nodes <= w.holders.Keys
    ensures gone <= nodes
  {
    set n | n in nodes && ExpiryOf(c, k, w, n).Some?
  }

  function Swept(c: Config, k: Clock, w: WalkState, gone: set<string>): WalkState
    requires gone <= w.holders.Keys
    requires forall n | n in gone :: ExpiryOf(c, k, w, n).Some?
  {
    w.(holders := w.holders - gone,
       passVoters := w.passVoters - gone,
       nodeOutcome := SweptOutcomes(c, k, w, gone))
  }

  function SweptOutcomes(c: Config, k: Clock, w: WalkState, gone: set<string>): map<string, NodeOutcome>
    requires gone <= w.holders.Keys
    requires forall n | n in gone :: ExpiryOf(c, k, w, n).Some?
  {
    map n | n in w.nodeOutcome.Keys + gone :: if n in gone then ExpiryOf(c, k, w, n).value else w.nodeOutcome[n]
  }

  /** The whole sweep: every expired holder goes, nothing else changes. */
  function Expired(c: Config, k: Clock, w: WalkState): WalkState {
    Swept(c, k, w, Gone(c, k, w, w.holders.Keys))
  }

  lemma SweptNone(c: Config, k: Clock, w: WalkState)
    ensures Swept(c, k, w, {}) == w
  {
    var r := Swept(c, k, w, {});
    assert r.holders == w.holders && r.passVoters == w.passVoters && r.nodeOutcome == w.nodeOutcome;
  }

  /** What the sweep has not dropped it has left alone. */
  lemma SweptSpares(c: Config, k: Clock, w: WalkState, gone: set<string>, node: string)
    requires gone <= w.holders.Keys && node in w.holders && node !in gone
    requires forall n | n in gone :: ExpiryOf(c, k, w, n).Some?
    ensures var v := Swept(c, k, w, gone);
      node in v.holders && v.holders[node] == w.holders[node] && v.cycles == w.cycles
      && VotersOf(v, node) == VotersOf(w, node)
  {
  }

  lemma GoneOneMore(c: Config, k: Clock, w: WalkState, done: set<string>, node: string)
    requires done <= w.holders.Keys && node in w.holders && node !in done
    ensures Gone(c, k, w, done + {node})
         == Gone(c, k, w, done) + if ExpiryOf(c, k, w, node).Some? then {node} else {}
  {
  }

  lemma DropOneMore<T>(m: map<string, T>, gone: set<string>, node: string)
    ensures m - (gone + {node}) == (m - gone) - {node}
  {
  }

  lemma OutcomesOneMore(c: Config, k: Clock, w: WalkState, gone: set<string>, node: string)
    requires gone <= w.holders.Keys && node in w.holders
    requires forall n | n in gone :: ExpiryOf(c, k, w, n).Some?
    requires ExpiryOf(c, k, w, node).Some?
    ensures SweptOutcomes(c, k, w, gone + {node}) == SweptOutcomes(c, k, w, gone)[node := ExpiryOf(c, k, w, node).value]
  {
  }

  lemma SweepOneMore(c: Config, k: Clock, w: WalkState, gone: set<string>, node: string)
    requires gone <= w.holders.Keys && node in w.holders && node !in gone
    requires forall n | n in gone :: ExpiryOf(c, k, w, n).Some?
    requires ExpiryOf(c, k, w, node).Some?
    ensures Swept(c, k, w, gone + {node}) == Reopen(Swept(c, k, w, gone), node, ExpiryOf(c, k, w, node).value)
  {
    DropOneMore(w.holders, gone, node);
    DropOneMore(w.passVoters, gone, node);
    OutcomesOneMore(c, k, w, gone, node);
  }

  /** A node's current cycle is its latest in insertion order. */
  function ActiveKey(order: seq<CycleKey>, node: string): Option<CycleKey> {
    if order == [] then None
    else if order[|order| - 1].0 == node then Some(order[|order| - 1])
    else ActiveKey(order[..|order| - 1], node)
  }

  // ------------------------------------------------------------------
  // The engine's form: fields updated in place
  // ------------------------------------------------------------------

  class Walker {
    var holders: map<string, Holder>
    var firstClaim: map<string, OrdKey>
    var claimCounts: map<string, nat>
    var cycleOrder: seq<CycleKey>
    var cycles: map<CycleKey, Cycle>
    var verifiedPins: set<string>
    var passVoters: map<string, map<string, string>>
    var live: map<string, string>
    var subCycle: map<string, CycleKey>
    var nodeOutcome: map<string, NodeOutcome>
    var reached: map<string, string>
    var ignored: seq<Ignored>
    const config: Config
    const inTree: Option<set<string>>

    function View(): WalkState
      reads this
    {
      WalkState(holders, firstClaim, cycleOrder, cycles, verifiedPins, passVoters,
                live, subCycle, nodeOutcome, reached)
    }

    constructor (config: Config, inTree: Option<set<string>>)
      ensures View() == EMPTY_WALK && ignored == [] && claimCounts == map[]
      ensures this.config == config && this.inTree == inTree
    {
      this.config, this.inTree := config, inTree;
      holders, firstClaim, claimCounts := map[], map[], map[];
      cycleOrder, cycles, verifiedPins := [], map[], {};
      passVoters, live, subCycle := map[], map[], map[];
      nodeOutcome, reached, ignored := map[], map[], [];
    }

    /** The event did to the fields what the step functions say. */
    twostate predicate Did(e: ChainEvent)
      reads this
    {
      && View() == Step(config, inTree, old(View()), e)
      && ignored == old(ignored) + LogOf(config, inTree, old(View()), e)
      && claimCounts == CountClaim(inTree, old(View()), old(claimCounts), e)
    }

    method Claim(e: ChainEvent)
      requires e.body.Claim?
      modifies this
      ensures Did(e)
    {
      var node := e.body.node;
      if node == "" {
        return;
      }
      if Ghost(inTree, node) {
        ignored := ignored + [Ignored(e.pin, UnknownNode)];
        return;
      }
      if node in holders {
        return;
      }
      holders := holders[node := Holder(e.pin, e.author, e.ts, e.height)];
      if node !in firstClaim {
        firstClaim := firstClaim[node := KeyOf(e)];
      }
      claimCounts := claimCounts[e.author := 1 + if e.author in claimCounts then claimCounts[e.author] else 0];
      nodeOutcome := nodeOutcome[node := NoOutcome];
    }

    method Release(e: ChainEvent)
      requires e.body.Release?
      modifies this
      ensures Did(e)
    {
      var node := e.body.node;
      if node == "" {
        return;
      }
      if Ghost(inTree, node) {
        ignored := ignored + [Ignored(e.pin, UnknownNode)];
        return;
      }
      if node in holders && holders[node].pin == e.body.claimId {
        Drop(node, Released);
      }
    }

    method Submit(e: ChainEvent)
      requires e.body.Submission?
      modifies this
      ensures Did(e)
    {
      var node, claimId := e.body.node, e.body.claimId;
      if node == "" || claimId == "" {
        return;
      }
      if Ghost(inTree, node) {
        ignored := ignored + [Ignored(e.pin, UnknownNode)];
        return;
      }
      if node !in holders || holders[node].pin != claimId {
        return;
      }
      var key := (node, claimId);
      var record := RecordOf(e);
      if key !in cycles {
        cycleOrder := cycleOrder + [key];
        cycles := cycles[key := Cycle(node, claimId, holders[node].claimant, [record], record, {}, Open, 0)];
        live := live[record.pin := node];
        subCycle := subCycle[record.pin := key];
        return;
      }
      if record.supersedeId == "" {
        ignored := ignored + [Ignored(e.pin, DuplicateWithoutSupersede)];
        return;
      }
      var cycle := cycles[key];
      if SupersedeHolds(config, cycle, record) {
        cycles := cycles[key := cycle.(superseded := cycle.superseded + {record.supersedeId},
                                       submissions := cycle.submissions + [record],
                                       effective := record)];
        live := live[record.pin := node];
        subCycle := subCycle[record.pin := key];
      } else {
        ignored := ignored + [Ignored(e.pin, SupersedePredicateFailed)];
      }
    }

    method Vote(e: ChainEvent)
      requires e.body.Verify?
      modifies this
      ensures Did(e)
    {
      var target := e.body.targetId;
      if target !in live || live[target] !in holders {
        return;
      }
      var node := live[target];
      var key := (node, holders[node].pin);
      if key !in cycles || cycles[key].effective.pin != target {
        return;
      }
      reached := reached[e.pin := target];
      if e.body.verdict.Fail? {
        cycles := cycles[key := cycles[key].(outcome := FailRejected)];
        verifiedPins := verifiedPins - {target};
        Drop(node, Rejected);
      } else if e.body.verdict.Pass? {
        PassVote(key, e);
      }
    }

    method PassVote(key: CycleKey, e: ChainEvent)
      requires e.body.Verify? && key in cycles
      modifies this
      ensures View() == StepPass(config, old(View()), key, e)
      ensures ignored == old(ignored) && claimCounts == old(claimCounts)
    {
      var node, target := key.0, e.body.targetId;
      if e.author == SubmitterOf(config, target) || e.author == config.rootAuthor {
        return;
      }
      var voters := if node in passVoters then passVoters[node] else map[];
      if e.author !in voters {
        voters := voters[e.author := e.pin];
      }
      passVoters := passVoters[node := voters];
      if |voters| >= config.quorum {
        var cycle := cycles[key];
        cycles := cycles[key := cycle.(outcome := Verified,
                                       quorumAt := if cycle.quorumAt == 0 then e.ts else cycle.quorumAt)];
        verifiedPins := verifiedPins + {target};
      }
    }

    /** One pass over the timeline from a fresh state. */
    method RunWalk(timeline: seq<ChainEvent>)
      requires View() == EMPTY_WALK && ignored == [] && claimCounts == map[]
      modifies this
      ensures View() == Run(config, inTree, timeline)
      ensures ignored == RunLog(config, inTree, timeline)
      ensures claimCounts == RunCounts(config, inTree, timeline)
    {
      assert timeline[..0] == [];
      for i := 0 to |timeline|
        invariant View() == Run(config, inTree, timeline[..i])
        invariant ignored == RunLog(config, inTree, timeline[..i])
        invariant claimCounts == RunCounts(config, inTree, timeline[..i])
      {
        var e := timeline[i];
        assert timeline[..i + 1][..i] == timeline[..i];
        match e.body
        case Claim(_, _) => Claim(e);
        case Release(_, _, _) => Release(e);
        case Submission(_, _, _, _, _) => Submit(e);
        case Verify(_, _, _, _) => Vote(e);
        case _ =>
      }
      assert timeline[..|timeline|] == timeline;
    }

    /** The expiry sweep. Go ranges over the holder map in an unspecified order
        while deleting from it; `node` is any holder not yet visited, so the
        postcondition is also the sweep's independence of that order. */
    method ApplyExpiry(k: Clock)
      modifies this
      ensures View() == Expired(config, k, old(View()))
      ensures ignored == old(ignored) && claimCounts == old(claimCounts)
    {
      ghost var w := View();
      ghost var done: set<string>, gone: set<string> := {}, {};
      var todo := holders.Keys;
      SweptNone(config, k, w);
      while todo != {}
        invariant done + todo == w.holders.Keys && done !! todo
        invariant gone == Gone(config, k, w, done)
        invariant View() == Swept(config, k, w, gone)
        invariant ignored == old(ignored) && claimCounts == old(claimCounts)
        decreases todo
      {
        var node :| node in todo;
        GoneOneMore(config, k, w, done, node);
        gone := Visit(k, node, w, gone);
        todo, done := todo - {node}, done + {node};
      }
      assert done == w.holders.Keys;
    }

    method Visit(k: Clock, node: string, ghost w: WalkState, ghost gone: set<string>) returns (ghost gone': set<string>)
      requires gone <= w.holders.Keys && (forall n | n in gone :: ExpiryOf(config, k, w, n).Some?)
      requires View() == Swept(config, k, w, gone) && node in w.holders && node !in gone
      modifies this
      ensures gone' == gone + if ExpiryOf(config, k, w, node).Some? then {node} else {}
      ensures View() == Swept(config, k, w, gone')
      ensures ignored == old(ignored) && claimCounts == old(claimCounts)
    {
      SweptSpares(config, k, w, gone, node);
      var why := ExpiryAt(k, node, w);
      gone' := gone;
      if why.Some? {
        SweepOneMore(config, k, w, gone, node);
        Drop(node, why.value);
        gone' := gone + {node};
      }
    }

    method Drop(node: string, why: NodeOutcome)
      modifies this
      ensures View() == Reopen(old(View()), node, why)
      ensures ignored == old(ignored) && claimCounts == old(claimCounts)
    {
      holders := holders - {node};
      passVoters := passVoters - {node};
      nodeOutcome := nodeOutcome[node := why];
    }

    /** Whether the holder of `node` has expired; `w` is the state before the sweep,
        which the sweep so far has left alone at `node`. */
    method ExpiryAt(k: Clock, node: string, ghost w: WalkState) returns (why: Option<NodeOutcome>)
      requires node in holders && node in w.holders && holders[node] == w.holders[node]
      requires cycles == w.cycles && VotersOf(View(), node) == VotersOf(w, node)
      ensures why == ExpiryOf(config, k, w, node)
    {
      var key := (node, holders[node].pin);
      if key !in cycles {
        if k.ttlHours > 0 && k.now - holders[node].since > k.ttlHours * HOUR_MS {
          return Some(ExpiredClaim);
        }
      } else if k.windowHours > 0 {
        var good := if node in passVoters then |passVoters[node]| else 0;
        if good < config.quorum && k.now - cycles[key].effective.at > k.windowHours * HOUR_MS {
          return Some(ExpiredWindow);
        }
      }
      return None;
    }
  }
}
