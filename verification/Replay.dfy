/** One whole replay (internal/metatask/v121.go:799-1890): scope and sort the
    events, let the last ballots act, walk, fold the amends, walk again inside
    the effective tree, aggregate, and settle. */
module Replay {
  import opened ChainEvents
  import opened Sorting
  import opened Walk
  import opened TreeShape
  import Aggregation
  import AmendFold
  import CanonicalJson
  import Settlement
  import VotePrepass
  import WalkGhosts
  import WalkTheorems

  /** `now` None derives no expiry; the H's are the resolved activation heights. */
  datatype Options = Options(rootPin: string, now: Option<int>, hAct: int, hAct2: int,
                             roster: seq<seq<string>>, openChallenge: bool)

  datatype Path = PTask | PTree | PSpec | PClaim | PRelease | PSubmission | PVerify | PAmend | PChallenge

  function PathOf(b: Body): Path {
    match b
    case Task(_, _, _) => PTask
    case Tree(_, _) => PTree
    case Spec => PSpec
    case Claim(_, _) => PClaim
    case Release(_, _, _) => PRelease
    case Submission(_, _, _, _, _) => PSubmission
    case Verify(_, _, _, _) => PVerify
    case Amend(_, _, _) => PAmend
    case Challenge(_) => PChallenge
  }

  function TaskIdOf(b: Body): Option<string> {
    match b
    case Claim(t, _) => Some(t)
    case Release(t, _, _) => Some(t)
    case Submission(t, _, _, _, _) => Some(t)
    case Amend(t, _, _) => Some(t)
    case _ => None
  }

  // ------------------------------------------------------------------
  // Scoping and sorting
  // ------------------------------------------------------------------

  predicate InScope(e: ChainEvent, path: Path, rootPin: string) {
    PathOf(e.body) == path && (TaskIdOf(e.body).Some? ==> TaskIdOf(e.body).value == rootPin)
  }

  /** The events of one path that belong to the task, in chain order. */
  function Scoped(events: seq<ChainEvent>, path: Path, rootPin: string): seq<ChainEvent> {
    SortEvents(Select(e => InScope(e, path, rootPin), events))
  }

  /** What the rest of the replay reads. */
  datatype Feed = Feed(tasks: seq<ChainEvent>, trees: seq<ChainEvent>, specs: seq<ChainEvent>, claims: seq<ChainEvent>,
                       releases: seq<ChainEvent>, submissions: seq<ChainEvent>, verifies: seq<ChainEvent>,
                       amends: seq<ChainEvent>, challenges: seq<ChainEvent>)

  function FeedOf(events: seq<ChainEvent>, rootPin: string): Feed {
    Feed(Scoped(events, PTask, rootPin), Scoped(events, PTree, rootPin), Scoped(events, PSpec, rootPin),
         Scoped(events, PClaim, rootPin), Scoped(events, PRelease, rootPin), Scoped(events, PSubmission, rootPin),
         Scoped(events, PVerify, rootPin), Scoped(events, PAmend, rootPin), Scoped(events, PChallenge, rootPin))
  }

  function FindPin(events: seq<ChainEvent>, pin: string): (r: Option<ChainEvent>)
    ensures r.Some? ==> r.value in events && r.value.pin == pin
  {
    if events == [] then None
    else if events[0].pin == pin then Some(events[0])
    else FindPin(events[1..], pin)
  }

  /** Submission authors by pin; a repeated pin keeps its last author. */
  function SubmittersOf(submissions: seq<ChainEvent>): map<string, string> {
    if submissions == [] then map[]
    else
      var e := submissions[|submissions| - 1];
      SubmittersOf(submissions[..|submissions| - 1])[e.pin := e.author]
  }

  function ListedOf(submissions: seq<ChainEvent>): map<string, set<string>> {
    if submissions == [] then map[]
    else
      var e := submissions[|submissions| - 1];
      var before := ListedOf(submissions[..|submissions| - 1]);
      if e.body.Submission? then before[e.pin := e.body.childIds] else before
  }

  // ------------------------------------------------------------------
  // The published tree
  // ------------------------------------------------------------------

  /** Nameless nodes are skipped and a repeated id keeps its first node. */
  function InitialTree(raw: seq<RawTreeNode>): (Tree, seq<string>) {
    if raw == [] then (map[], [])
    else
      var (nodes, order) := InitialTree(raw[..|raw| - 1]);
      var n := raw[|raw| - 1];
      if n.id == "" || n.id in nodes then (nodes, order)
      else (nodes[n.id := TreeNode(n.id, n.parent, n.title, n.kind, n.specId, n.weight)], order + [n.id])
  }

  lemma {:induction false} InitialTreeIsOk(raw: seq<RawTreeNode>)
    ensures AmendFold.TreeOk(InitialTree(raw).0, InitialTree(raw).1)
  {
    if raw != [] {
      var prefix, n := raw[..|raw| - 1], raw[|raw| - 1];
      InitialTreeIsOk(prefix);
      if n.id != "" && n.id !in InitialTree(prefix).0 {
        DistinctConcat(InitialTree(prefix).1, [n.id]);
      }
    }
  }

  // ------------------------------------------------------------------
  // The stages
  // ------------------------------------------------------------------

  datatype Terms = Terms(rootAuthor: string, treeId: string, specId: string, quorum: int, ttlHours: int,
                         windowHours: int, sigma: int)

  function OrElse(x: Option<int>, default: int): int {
    if x.Some? then x.value else default
  }

  /** The task's terms as the engine normalises them. */
  function TermsOf(root: ChainEvent): (t: Terms)
    requires root.body.Task?
    ensures t.quorum >= 1 && Settlement.SIGMA_MIN <= t.sigma <= Settlement.SIGMA_MAX
  {
    var p := root.body.policy;
    var quorum := OrElse(p.verifyQuorum, 2);
    Terms(root.author, root.body.treeId, root.body.specId, if quorum < 1 then 1 else quorum,
          OrElse(p.claimTtlHours, 0), OrElse(p.verifyWindowHours, 0), Settlement.ClampSigma(p.submitterShareBP))
  }

  function RulesOf(f: Feed, t: Terms, o: Options): VotePrepass.Rules {
    VotePrepass.Rules(SubmittersOf(f.submissions), t.rootAuthor, o.hAct, o.hAct2, o.roster)
  }

  function ActingVotes(f: Feed, t: Terms, o: Options): seq<ChainEvent> {
    var rules := RulesOf(f, t, o);
    var last := VotePrepass.LastVotes(rules, f.verifies);
    Select(v => VotePrepass.Acting(rules, last, v), f.verifies)
  }

  /** Claims, releases, submissions and acting votes in one chain order. */
  function Timeline(f: Feed, t: Terms, o: Options): seq<ChainEvent> {
    SortEvents(f.claims + f.releases + f.submissions + ActingVotes(f, t, o))
  }

  function ConfigOf(f: Feed, t: Terms, o: Options): Config {
    Config(t.quorum, t.rootAuthor, o.hAct2, SubmittersOf(f.submissions))
  }

  /** One pass and its expiry sweep. */
  function Pass(f: Feed, t: Terms, o: Options, inTree: Option<set<string>>): WalkState {
    var c := ConfigOf(f, t, o);
    var w := Run(c, inTree, Timeline(f, t, o));
    if o.now.Some? then Expired(c, Clock(o.now.value, t.ttlHours, t.windowHours), w) else w
  }

  /** Each node's current cycle: its latest in insertion order. */
  function ActiveCycles(w: WalkState): map<string, Cycle> {
    map n | n in (set key | key in w.cycleOrder :: key.0)
          && ActiveKey(w.cycleOrder, n).Some? && ActiveKey(w.cycleOrder, n).value in w.cycles
      :: w.cycles[ActiveKey(w.cycleOrder, n).value]
  }

  /** Every cycle in insertion order. */
  function AllCycles(w: WalkState, order: seq<CycleKey>): seq<Cycle> {
    if order == [] then []
    else
      AllCycles(w, order[..|order| - 1])
        + if order[|order| - 1] in w.cycles then [w.cycles[order[|order| - 1]]] else []
  }

  function VoteVerified(w: WalkState): set<string> {
    set n | n in ActiveCycles(w) && ActiveCycles(w)[n].effective.pin in w.verifiedPins
  }

  function TreePinOf(f: Feed, t: Terms): Option<ChainEvent> {
    FindPin(f.trees, t.treeId)
  }

  function PublishedTree(f: Feed, t: Terms): (Tree, seq<string>) {
    var pin := TreePinOf(f, t);
    if pin.Some? && pin.value.body.Tree? then InitialTree(pin.value.body.rawNodes) else (map[], [])
  }

  lemma PublishedIsOk(f: Feed, t: Terms)
    ensures AmendFold.TreeOk(PublishedTree(f, t).0, PublishedTree(f, t).1)
  {
    var pin := TreePinOf(f, t);
    if pin.Some? && pin.value.body.Tree? {
      InitialTreeIsOk(pin.value.body.rawNodes);
    } else {
      InitialTreeIsOk([]);
    }
  }

  function DeclaredRoot(f: Feed, t: Terms): string {
    var pin := TreePinOf(f, t);
    if pin.Some? && pin.value.body.Tree? then pin.value.body.root else ""
  }

  /** What a walk tells the amend fold. */
  function InputsFrom(f: Feed, t: Terms, o: Options, w: WalkState): AmendFold.FoldInputs {
    var verified := VoteVerified(w);
    AmendFold.FoldInputs(t.rootAuthor, t.treeId, w.firstClaim, verified, w.holders.Keys,
                 DeclaredRoot(f, t) != "" && DeclaredRoot(f, t) in verified, o.hAct2)
  }

  function FoldInputsOf(f: Feed, t: Terms, o: Options): AmendFold.FoldInputs {
    InputsFrom(f, t, o, Pass(f, t, o, None))
  }

  ghost function FoldOf(f: Feed, t: Terms, o: Options): AmendFold.FoldState
    requires AmendFold.AllAmends(f.amends)
  {
    AmendFold.Fold(FoldInputsOf(f, t, o), PublishedTree(f, t).0, PublishedTree(f, t).1, f.amends)
  }

  ghost function MembershipOf(f: Feed, t: Terms, s: AmendFold.FoldState): Option<set<string>>
    requires s.Folding?
  {
    if TreePinOf(f, t).Some? then Some(s.nodes.Keys) else None
  }

  /** The second pass, inside the effective tree when there is one. */
  ghost function SecondPass(f: Feed, t: Terms, o: Options, s: AmendFold.FoldState): WalkState
    requires s.Folding?
  {
    Pass(f, t, o, MembershipOf(f, t, s))
  }

  ghost function NodeSet(f: Feed, t: Terms, s: AmendFold.FoldState, w: WalkState): set<string>
    requires s.Folding?
  {
    if TreePinOf(f, t).Some? then s.nodes.Keys
    else (set key | key in w.cycleOrder :: key.0) + w.holders.Keys
  }

  /** The projected nodes in some order; `Settlement.ListingDoesNotMatter` is why any will do. */
  ghost function NodeOrder(nodes: set<string>): (r: seq<string>)
    ensures Distinct(r) && Lists(r, nodes)
  {
    ListingExists(nodes);
    var s :| Distinct(s) && Lists(s, nodes);
    s
  }

  lemma {:induction false} ListingExists(nodes: set<string>)
    ensures exists s :: Distinct(s) && Lists(s, nodes)
    decreases nodes
  {
    if nodes == {} {
      assert Distinct([]) && Lists([], nodes);
    } else {
      var n :| n in nodes;
      ListingExists(nodes - {n});
      var s :| Distinct(s) && Lists(s, nodes - {n});
      DistinctConcat([n], s);
      assert Lists([n] + s, nodes);
    }
  }

  ghost function AggregationOf(f: Feed, o: Options, s: AmendFold.FoldState, w: WalkState): Aggregation.Task
    requires s.Folding?
  {
    Aggregation.Task(s.nodes, s.order, ActiveCycles(w), ListedOf(f.submissions), o.hAct2)
  }

  ghost function FinalNodes(nodes: set<string>, task: Aggregation.Task): set<string> {
    set n | n in nodes && Aggregation.Final(task, n)
  }

  /** The node without a parent, in tree order; else the one the tree pin declares. */
  function RootNode(nodes: Tree, order: seq<string>, declared: string): string {
    if order == [] then declared
    else if order[0] in nodes && nodes[order[0]].parent.None? then order[0]
    else RootNode(nodes, order[1..], declared)
  }

  ghost predicate Complete(f: Feed, t: Terms, s: AmendFold.FoldState, nodes: set<string>, finals: set<string>)
    requires s.Folding?
  {
    var root := RootNode(s.nodes, s.order, DeclaredRoot(f, t));
    if root != "" then root in finals else nodes != {} && finals == nodes
  }

  // Settlement.

  function BallotsOf(f: Feed, t: Terms, o: Options, w: WalkState): map<string, seq<Settlement.Vote>> {
    map pin | pin in SubmittersOf(f.submissions) :: Ballots(VotePrepass.VotesOn(RulesOf(f, t, o), f.verifies, pin))
  }

  function Ballots(votes: seq<ChainEvent>): seq<Settlement.Vote> {
    if votes == [] then []
    else
      var v := votes[|votes| - 1];
      Ballots(votes[..|votes| - 1]) + if v.body.Verify? then [Settlement.Vote(v.author, v.body.verdict)] else []
  }

  function FinalPins(active: map<string, Cycle>, finals: set<string>): set<string> {
    set n | n in finals && n in active :: active[n].effective.pin
  }

  function CaseOf(f: Feed, t: Terms, o: Options, w: WalkState, finals: set<string>): Settlement.Case {
    Settlement.Case(t.rootAuthor, BallotsOf(f, t, o, w), ActiveCycles(w), FinalPins(ActiveCycles(w), finals), t.sigma)
  }

  /** The participants before any review is judged. */
  ghost function EnrolledFirst(f: Feed, t: Terms, o: Options, inTree: Option<set<string>>, w: WalkState, nodes: set<string>): Settlement.Roll {
    var claimants := RunCounts(ConfigOf(f, t, o), inTree, Timeline(f, t, o)).Keys;
    var submitters := set n | n in nodes && n in ActiveCycles(w) :: ActiveCycles(w)[n].effective.author;
    map id | id in {t.rootAuthor} + claimants + submitters :: Settlement.Stats(0, 0)
  }

  lemma {:induction false} ActiveIsListed(w: WalkState, order: seq<CycleKey>, n: string)
    requires ActiveKey(order, n).Some? && ActiveKey(order, n).value in w.cycles
    ensures w.cycles[ActiveKey(order, n).value] in AllCycles(w, order)
  {
    if order[|order| - 1].0 != n {
      ActiveIsListed(w, order[..|order| - 1], n);
    }
  }

  /** Every paid pin is the effective submission of a verified cycle, so its reviewers are enrolled. */
  lemma ReviewersEnrolled(f: Feed, t: Terms, o: Options, w: WalkState, task: Aggregation.Task, nodes: set<string>, roll: Settlement.Roll)
    requires task.active == ActiveCycles(w) && Settlement.Honest(roll)
    ensures var k := CaseOf(f, t, o, w, FinalNodes(nodes, task));
            Settlement.Enrolled(k, Settlement.Review(k, roll, AllCycles(w, w.cycleOrder)))
  {
    var finals := FinalNodes(nodes, task);
    var k := CaseOf(f, t, o, w, finals);
    forall pin | pin in k.finalPins
      ensures exists c :: c in AllCycles(w, w.cycleOrder) && c.outcome.Verified? && c.effective.pin == pin
    {
      var n :| n in finals && n in task.active && task.active[n].effective.pin == pin;
      Aggregation.FinalEquation(task, n);
      ActiveIsListed(w, w.cycleOrder, n);
      assert task.active[n] in AllCycles(w, w.cycleOrder);
    }
    Settlement.PaidReviewersAreEnrolled(k, roll, AllCycles(w, w.cycleOrder));
  }

  // The hashed event set.

  const HASH_ORDER := [PTask, PTree, PSpec, PClaim, PRelease, PSubmission, PVerify, PAmend, PChallenge]

  function PathName(p: Path): string {
    match p
    case PTask => "task"
    case PTree => "tree"
    case PSpec => "spec"
    case PClaim => "claim"
    case PRelease => "release"
    case PSubmission => "submission"
    case PVerify => "verify"
    case PAmend => "amend"
    case PChallenge => "challenge"
  }

  function ListOf(f: Feed, p: Path): seq<ChainEvent> {
    match p
    case PTask => f.tasks
    case PTree => f.trees
    case PSpec => f.specs
    case PClaim => f.claims
    case PRelease => f.releases
    case PSubmission => f.submissions
    case PVerify => f.verifies
    case PAmend => f.amends
    case PChallenge => f.challenges
  }

  /** Which confirmed events of a path enter the hash. */
  predicate Hashed(f: Feed, t: Terms, rootPin: string, e: ChainEvent) {
    && e.height >= 0
    && match e.body
       case Task(_, _, _) => e.pin == rootPin
       case Tree(_, _) => e.pin == t.treeId
       case Spec => t.specId != "" && e.pin == t.specId
       case Verify(target, _, _, _) => target in SubmittersOf(f.submissions)
       case Challenge(target) => target in SubmittersOf(f.submissions)
       case _ => TaskIdOf(e.body) == Some(rootPin)
  }

  /** Hash entries go by height, index and pin; a timestamp plays no part. */
  function Untimed(events: seq<ChainEvent>): seq<ChainEvent> {
    if events == [] then [] else Untimed(events[..|events| - 1]) + [events[|events| - 1].(ts := 0)]
  }

  function Entries(p: Path, events: seq<ChainEvent>): seq<CanonicalJson.HashEntry> {
    seq(|events|, i requires 0 <= i < |events| => CanonicalJson.HashEntry(PathName(p), events[i].pin, events[i].height, events[i].txIndex))
  }

  function HashEntries(f: Feed, t: Terms, rootPin: string, paths: seq<Path>): seq<CanonicalJson.HashEntry> {
    if paths == [] then []
    else
      var p := paths[0];
      Entries(p, SortEvents(Untimed(Select(e => Hashed(f, t, rootPin, e), ListOf(f, p)))))
        + HashEntries(f, t, rootPin, paths[1..])
  }

  // ------------------------------------------------------------------
  // The conclusion
  // ------------------------------------------------------------------

  datatype Conclusion =
    | NoTask
    | Unending
    | Concluded(fold: AmendFold.FoldState, walk: WalkState, log: seq<Ignored>, nodes: set<string>, finals: set<string>,
                complete: bool, shares: Option<Settlement.Shares>, eventSet: string)

  ghost function Conclude(f: Feed, o: Options): Conclusion {
    var root := FindPin(f.tasks, o.rootPin);
    if root.None? || !root.value.body.Task? || !AmendFold.AllAmends(f.amends) then NoTask
    else if FoldOf(f, TermsOf(root.value), o).Hung? then Unending
    else Concluding(f, TermsOf(root.value), o)
  }

  ghost function SharesOf(f: Feed, t: Terms, o: Options, inTree: Option<set<string>>, w: WalkState, task: Aggregation.Task,
                          nodes: set<string>): Settlement.Shares
    requires task.active == ActiveCycles(w)
  {
    var k, roll := CaseOf(f, t, o, w, FinalNodes(nodes, task)), EnrolledFirst(f, t, o, inTree, w, nodes);
    ReviewersEnrolled(f, t, o, w, task, nodes, roll);
    var order := NodeOrder(nodes);
    Settlement.PayAll(k, Settlement.Review(k, roll, AllCycles(w, w.cycleOrder)), order, task.tree, |order|)
  }

  ghost function Concluding(f: Feed, t: Terms, o: Options): (c: Conclusion)
    requires AmendFold.AllAmends(f.amends) && FoldOf(f, t, o).Folding?
    ensures c.Concluded? && c.fold == FoldOf(f, t, o)
  {
    var fold := FoldOf(f, t, o);
    var inTree := MembershipOf(f, t, fold);
    var w := SecondPass(f, t, o, fold);
    var nodes := NodeSet(f, t, fold, w);
    var task := AggregationOf(f, o, fold, w);
    var finals := FinalNodes(nodes, task);
    var complete := Complete(f, t, fold, nodes, finals);
    Concluded(fold, w, RunLog(ConfigOf(f, t, o), inTree, Timeline(f, t, o)), nodes, finals, complete,
              if complete && !o.openChallenge then Some(SharesOf(f, t, o, inTree, w, task, nodes)) else None,
              CanonicalJson.Canon(CanonicalJson.EntriesJson(HashEntries(f, t, o.rootPin, HASH_ORDER))))
  }

  ghost function ReplayTask(events: seq<ChainEvent>, o: Options): Conclusion {
    Conclude(FeedOf(events, o.rootPin), o)
  }

  // ------------------------------------------------------------------
  // Theorems
  // ------------------------------------------------------------------

  lemma ScopedDependsOnSet(events: seq<ChainEvent>, events': seq<ChainEvent>, path: Path, rootPin: string)
    requires DistinctPins(events) && multiset(events) == multiset(events')
    ensures Scoped(events, path, rootPin) == Scoped(events', path, rootPin)
  {
    var p := e => InScope(e, path, rootPin);
    DistinctFromMultiset(events, events');
    VotePrepass.SelectKeeps(events, p);
    VotePrepass.SelectKeeps(events', p);
    forall e
      ensures e in events <==> e in events'
    {
      assert e in multiset(events) <==> e in multiset(events');
    }
    VotePrepass.SameMembersSameMultiset(Select(p, events), Select(p, events'));
    SortIsCanonical(Select(p, events), Select(p, events'));
  }

  /** The conclusion depends only on the set of events: any permutation of an
      input with distinct pins concludes alike, settlement and hash bytes included. */
  lemma ConclusionDependsOnSet(events: seq<ChainEvent>, events': seq<ChainEvent>, o: Options)
    requires DistinctPins(events) && multiset(events) == multiset(events')
    ensures ReplayTask(events, o) == ReplayTask(events', o)
  {
    forall path: Path
      ensures Scoped(events, path, o.rootPin) == Scoped(events', path, o.rootPin)
    {
      ScopedDependsOnSet(events, events', path, o.rootPin);
    }
    assert FeedOf(events, o.rootPin) == FeedOf(events', o.rootPin);
  }

  // The walk theorems apply to the timeline the replay builds.

  lemma ScopedAre(events: seq<ChainEvent>, path: Path, rootPin: string)
    requires DistinctPins(events)
    ensures var s := Scoped(events, path, rootPin);
            && DistinctPins(s) && Ordered(s)
            && forall e :: e in s <==> e in events && InScope(e, path, rootPin)
  {
    var p := e => InScope(e, path, rootPin);
    VotePrepass.SelectKeeps(events, p);
    SortSorts(Select(p, events));
    DistinctFromMultiset(Select(p, events), SortEvents(Select(p, events)));
    SameMembers(Select(p, events), SortEvents(Select(p, events)));
  }

  lemma SameMembers(a: seq<ChainEvent>, b: seq<ChainEvent>)
    requires multiset(a) == multiset(b)
    ensures forall e :: e in a <==> e in b
  {
    forall e
      ensures e in a <==> e in b
    {
      assert e in multiset(a) <==> e in multiset(b);
    }
  }

  ghost predicate DrawnFrom(s: seq<ChainEvent>, events: seq<ChainEvent>) {
    DistinctPins(s) && forall e | e in s :: e in events
  }

  lemma DrawnConcat(events: seq<ChainEvent>, a: seq<ChainEvent>, b: seq<ChainEvent>)
    requires DistinctPins(events) && DrawnFrom(a, events) && DrawnFrom(b, events) && forall e | e in a :: e !in b
    ensures DrawnFrom(a + b, events)
  {
    var s := a + b;
    forall i, j | 0 <= i < j < |s|
      ensures s[i].pin != s[j].pin
    {
      if i < |a| <= j {
        assert s[i] in a && s[j] in b;
        var p :| 0 <= p < |events| && events[p] == s[i];
        var q :| 0 <= q < |events| && events[q] == s[j];
      }
    }
  }

  lemma {:induction false} SubmittersAre(submissions: seq<ChainEvent>, i: nat)
    requires DistinctPins(submissions) && i < |submissions|
    ensures submissions[i].pin in SubmittersOf(submissions)
    ensures SubmittersOf(submissions)[submissions[i].pin] == submissions[i].author
  {
    var n := |submissions| - 1;
    if i < n {
      assert DistinctPins(submissions[..n]);
      SubmittersAre(submissions[..n], i);
    }
  }

  ghost predicate OfPath(s: seq<ChainEvent>, events: seq<ChainEvent>, path: Path) {
    DrawnFrom(s, events) && forall e | e in s :: PathOf(e.body) == path
  }

  lemma ScopedAreOfPath(events: seq<ChainEvent>, path: Path, rootPin: string)
    requires DistinctPins(events)
    ensures OfPath(Scoped(events, path, rootPin), events, path)
  {
    ScopedAre(events, path, rootPin);
  }

  lemma ActingAreOfPath(events: seq<ChainEvent>, o: Options, t: Terms)
    requires DistinctPins(events)
    ensures OfPath(ActingVotes(FeedOf(events, o.rootPin), t, o), events, PVerify)
  {
    var f := FeedOf(events, o.rootPin);
    var rules := RulesOf(f, t, o);
    var last := VotePrepass.LastVotes(rules, f.verifies);
    ScopedAre(events, PVerify, o.rootPin);
    VotePrepass.SelectKeeps(f.verifies, v => VotePrepass.Acting(rules, last, v));
  }

  lemma PartsAreDrawn(events: seq<ChainEvent>, a: seq<ChainEvent>, b: seq<ChainEvent>, c: seq<ChainEvent>, d: seq<ChainEvent>)
    requires DistinctPins(events)
    requires OfPath(a, events, PClaim) && OfPath(b, events, PRelease)
    requires OfPath(c, events, PSubmission) && OfPath(d, events, PVerify)
    ensures DrawnFrom(a + b + c + d, events)
    ensures forall e | e in a + b + c + d && e.body.Submission? :: e in c
  {
    DrawnConcat(events, a, b);
    assert forall e | e in a + b :: PathOf(e.body) == PClaim || PathOf(e.body) == PRelease;
    DrawnConcat(events, a + b, c);
    assert forall e | e in a + b + c :: PathOf(e.body) != PVerify;
    DrawnConcat(events, a + b + c, d);
  }

  lemma SortingKeepsDrawn(events: seq<ChainEvent>, s: seq<ChainEvent>)
    requires DrawnFrom(s, events)
    ensures DrawnFrom(SortEvents(s), events) && Ordered(SortEvents(s))
    ensures forall e :: e in SortEvents(s) <==> e in s
  {
    SortSorts(s);
    DistinctFromMultiset(s, SortEvents(s));
    SameMembers(s, SortEvents(s));
  }

  lemma TimelineIsDrawn(events: seq<ChainEvent>, o: Options, t: Terms)
    requires DistinctPins(events)
    ensures var f := FeedOf(events, o.rootPin);
            && DrawnFrom(Timeline(f, t, o), events) && Ordered(Timeline(f, t, o))
            && forall e | e in Timeline(f, t, o) && e.body.Submission? :: e in f.submissions
  {
    var f := FeedOf(events, o.rootPin);
    ScopedAreOfPath(events, PClaim, o.rootPin);
    ScopedAreOfPath(events, PRelease, o.rootPin);
    ScopedAreOfPath(events, PSubmission, o.rootPin);
    ActingAreOfPath(events, o, t);
    PartsAreDrawn(events, f.claims, f.releases, f.submissions, ActingVotes(f, t, o));
    SortingKeepsDrawn(events, f.claims + f.releases + f.submissions + ActingVotes(f, t, o));
  }

  /** Distinct pins are all the walk's theorems need of an input. */
  lemma TimelineIsReplayable(events: seq<ChainEvent>, o: Options, t: Terms)
    requires DistinctPins(events) && t.quorum >= 1
    ensures var f := FeedOf(events, o.rootPin);
            WalkTheorems.Replayable(ConfigOf(f, t, o), Timeline(f, t, o)) && Ordered(Timeline(f, t, o))
  {
    var f := FeedOf(events, o.rootPin);
    var timeline := Timeline(f, t, o);
    TimelineIsDrawn(events, o, t);
    ScopedAre(events, PSubmission, o.rootPin);
    forall i | 0 <= i < |timeline| && timeline[i].body.Submission?
      ensures SubmitterOf(ConfigOf(f, t, o), timeline[i].pin) == timeline[i].author
    {
      var j :| 0 <= j < |f.submissions| && f.submissions[j] == timeline[i];
      SubmittersAre(f.submissions, j);
    }
  }

  /** The pass that feeds every projection is what the unfiltered pass leaves on the
      nodes of the effective tree. `ReplayPasses` says when the amend fold could
      have been fed by it as well. */
  lemma PassesAgreeOnTheTree(events: seq<ChainEvent>, o: Options, t: Terms, s: AmendFold.FoldState)
    requires DistinctPins(events) && t.quorum >= 1 && s.Folding?
    requires TreePinOf(FeedOf(events, o.rootPin), t).Some?
    ensures var f := FeedOf(events, o.rootPin);
            SecondPass(f, t, o, s) == WalkGhosts.Project(Pass(f, t, o, None), s.nodes.Keys)
  {
    var f := FeedOf(events, o.rootPin);
    TimelineIsReplayable(events, o, t);
    var c, timeline := ConfigOf(f, t, o), Timeline(f, t, o);
    WalkGhosts.GhostsNeverInterfere(c, timeline, s.nodes.Keys);
    if o.now.Some? {
      WalkGhosts.GhostsNeverInterfereAfterExpiry(c, Clock(o.now.value, t.ttlHours, t.windowHours), timeline, s.nodes.Keys);
    }
  }

  lemma SharesAreBounded(f: Feed, t: Terms, o: Options, inTree: Option<set<string>>, w: WalkState, task: Aggregation.Task,
                         nodes: set<string>)
    requires task.active == ActiveCycles(w) && Settlement.SIGMA_MIN <= t.sigma <= Settlement.SIGMA_MAX
    ensures var shares := SharesOf(f, t, o, inTree, w, task, nodes);
            Settlement.Total(shares) <= 10000 && Settlement.NoDebt(shares)
  {
    var k, roll := CaseOf(f, t, o, w, FinalNodes(nodes, task)), EnrolledFirst(f, t, o, inTree, w, nodes);
    ReviewersEnrolled(f, t, o, w, task, nodes, roll);
    var reviewed, order := Settlement.Review(k, roll, AllCycles(w, w.cycleOrder)), NodeOrder(nodes);
    Settlement.SharesAtMostWhole(k, reviewed, order, task.tree);
    Settlement.SharesOweNothing(k, reviewed, order, task.tree, |order|);
  }

  /** A settlement, whenever there is one, shares out at most 10000 and leaves nobody in debt. */
  lemma SettlementIsBounded(events: seq<ChainEvent>, o: Options)
    ensures var r := ReplayTask(events, o);
            r.Concluded? && r.shares.Some? ==> Settlement.Total(r.shares.value) <= 10000 && Settlement.NoDebt(r.shares.value)
  {
    var f := FeedOf(events, o.rootPin);
    var root := FindPin(f.tasks, o.rootPin);
    if root.Some? && root.value.body.Task? && AmendFold.AllAmends(f.amends) && FoldOf(f, TermsOf(root.value), o).Folding? {
      ConclusionIsBounded(f, TermsOf(root.value), o);
    }
  }

  lemma ConclusionIsBounded(f: Feed, t: Terms, o: Options)
    requires AmendFold.AllAmends(f.amends) && FoldOf(f, t, o).Folding?
    requires Settlement.SIGMA_MIN <= t.sigma <= Settlement.SIGMA_MAX
    ensures var r := Concluding(f, t, o);
            r.shares.Some? ==> Settlement.Total(r.shares.value) <= 10000 && Settlement.NoDebt(r.shares.value)
  {
    var fold := FoldOf(f, t, o);
    var inTree, w := MembershipOf(f, t, fold), SecondPass(f, t, o, fold);
    SharesAreBounded(f, t, o, inTree, w, AggregationOf(f, o, fold, w), NodeSet(f, t, fold, w));
  }

  /** The entries the hash of a replay is taken over. */
  function HashedOf(events: seq<ChainEvent>, o: Options): seq<CanonicalJson.HashEntry> {
    var f := FeedOf(events, o.rootPin);
    var root := FindPin(f.tasks, o.rootPin);
    if root.Some? && root.value.body.Task? then HashEntries(f, TermsOf(root.value), o.rootPin, HASH_ORDER) else []
  }

  /** The hash bytes tell the scoped event sets apart: equal bytes mean the same
      entries, path by path and in the same order. */
  lemma EventSetTellsEventsApart(a: seq<ChainEvent>, b: seq<ChainEvent>, o: Options, p: Options)
    requires ReplayTask(a, o).Concluded? && ReplayTask(b, p).Concluded?
    requires ReplayTask(a, o).eventSet == ReplayTask(b, p).eventSet
    ensures HashedOf(a, o) == HashedOf(b, p)
  {
    EventSetIsCanonical(a, o);
    EventSetIsCanonical(b, p);
    CanonicalJson.EventSetBytesAreInjective(HashedOf(a, o), HashedOf(b, p));
  }

  lemma EventSetIsCanonical(events: seq<ChainEvent>, o: Options)
    requires ReplayTask(events, o).Concluded?
    ensures ReplayTask(events, o).eventSet == CanonicalJson.Canon(CanonicalJson.EntriesJson(HashedOf(events, o)))
  {
  }
}
