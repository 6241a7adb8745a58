/** The Agentpedia engine as functions on its state: registration, revisions,
  * the edit-war freeze, challenges, rulings and parameter votes, one event at a
  * time (internal/agentpedia/replay.go).
  *
  * Several entry keys may stand for one record: `at` maps keys to records, so a
  * slug transfer makes two keys share one, and every later change shows under
  * both.
  */
module Agentpedia {
  import opened ChainEvents
  import opened Sorting
  import CanonicalJson

  // ---- Events ----

  datatype Outcome =
    | Dismiss
    | RevertTo(rev: string)
    | Protect
    | Unprotect
    | Unfreeze
    | TransferSlug(fromEntry: string, toEntry: string)
    | ConfirmGoodfaith(editor: string)
    | WarnEditor(editor: string)
    | SlashHalf(editor: string)
    | SlashFull(editor: string)
    | BanEditor(editor: string)
    | Malformed

  datatype EditorAction =
    | RegChallenge
    | PocResponse(challengePin: string, responsePin: string)
    | Register(challengePin: string, stakeTxid: string, amountSat: real)
    | Endorse(registerPin: string)
    | Suspend(rulingPin: string)
    | Revoke(rulingPin: string)
    | UnknownAction

  datatype Edit =
    | Create
    | Change(basedOn: string, parentRev: string)
    | Revert(revertTo: string, vandalismFix: bool)
    | Redirect(redirectTo: string)
    | UnknownEdit

  datatype Body =
    | Genesis(params: map<string, real>, founders: seq<string>)
    | Amendment(proposalPin: string, params: map<string, real>)
    | Editing(editor: string, action: EditorAction)
    | ReviewBody(targetRev: string)
    | ChallengeBody(targetRev: string)
    | Propose(challengePin: string, seed: string, baselineRev: string, outcome: Outcome)
    | Vote(proposalPin: string, approve: bool)
    | UnknownRuling
    | ParamPropose
    | ParamVote(proposalPin: string, approve: bool)
    | UnknownParamKind
    | Rev(lang: string, slug: string, edit: Edit, contentHash: string, summary: string)
    | UnknownPath

  datatype Event = Event(pin: string, height: int, txIndex: int, sender: string, body: Body)

  /** Scenario tuning; `hash` stands for the hash that orders an arbiter draw. */
  datatype Options = Options(
    blocksPerHour: int, blocksPerDay: int,
    arbiterOverrides: map<string, seq<string>>, frozenArbiterOverrides: map<string, seq<string>>,
    editorsRep: map<string, real>, clusterAliases: map<string, string>, hash: string -> nat)

  function BlocksPerHour(o: Options): (n: int)
    ensures n > 0
  {
    if o.blocksPerHour <= 0 then 6 else o.blocksPerHour
  }

  function BlocksPerDay(o: Options): (n: int)
    ensures n > 0
  {
    if o.blocksPerDay <= 0 then 144 else o.blocksPerDay
  }

  // ---- State ----

  datatype Editor = Editor(
    founder: bool, registeredAt: Option<int>, registerH: int, endorsements: set<string>,
    reputation: real, validRevs: int, suspensionUntil: int, revoked: bool, banned: bool)

  const NewEditor := Editor(false, None, 0, {}, 0.0, 0, 0, false, false)

  /** A registration challenge and the register event that satisfied it. */
  datatype Registration = Registration(
    applicant: string, challenger: string, h: int, pocOk: bool,
    stakeOk: bool, registerH: int, registerT: int, registerPin: string)

  datatype Version = Version(
    contentHash: string, author: string, parentRev: string, basedOn: string, summary: string,
    entryKey: string, equivalentOf: string)

  datatype Contest = Contest(pin: string, expected: string, declared: string)

  datatype Pages = Pages(
    head: string, history: seq<string>, versions: map<string, Version>,
    disputed: set<string>, contests: seq<Contest>, redirect: string)

  datatype Status = Normal | Frozen | Protected

  datatype RevertWeight = RevertWeight(h: int, editor: string, weight: real, vandalismFix: bool)

  datatype Guard = Guard(
    status: Status, frozenAt: string, baselineRev: string, frozenArbiters: seq<string>, reverts: seq<RevertWeight>)

  datatype Record = Record(key: string, pages: Pages, guard: Guard)

  function NewRecord(key: string): Record {
    Record(key, Pages("", [], map[], {}, [], ""), Guard(Normal, "", "", [], []))
  }

  /** Keys, the records they stand for, and the slugs keys were moved to. */
  datatype Wiki = Wiki(at: map<string, string>, records: map<string, Record>, aliasOf: map<string, string>)

  datatype Dispute = Dispute(targetRev: string, challenger: string, entryKey: string)

  /** What a ruling proposal is about, fixed when it is made. */
  datatype Case = Case(
    pin: string, challengePin: string, outcome: Outcome, proposer: string, height: int, expiryH: int,
    arbiters: seq<string>, entryKey: string, baselineRev: string)

  datatype CaseState = Open | Effective | Voided

  /** The approve count is the number of `approves`. */
  datatype Proposal = Proposal(fixed: Case, state: CaseState, approves: set<string>, voters: set<string>)

  datatype ParamProposal = ParamProposal(effective: bool, approves: set<string>)

  datatype Review = Review(pin: string, reviewer: string)

  /** The rules in force; no parameters before genesis. */
  datatype Rules = Rules(params: Option<map<string, real>>, genesisHeight: int, bootstrapEndH: int, founders: seq<string>)

  datatype Registry = Registry(editors: map<string, Editor>, registrations: map<string, Registration>, reviews: seq<Review>)

  datatype Court = Court(challenges: map<string, Dispute>, proposals: map<string, Proposal>, motions: map<string, ParamProposal>)

  datatype Counts = Counts(perDay: map<(string, int), int>, perSlug: map<(string, int, string), int>)

  datatype Reason =
    | DuplicateGenesis | NoEffectiveProposal | NoGenesis | UnknownPathReason
    | Unregistered | T0NoRev | FrozenUnauthorized | ProtectedUnauthorized | RateGlobal | RateSlug
    | PocChallengeMismatch | PocWindowExceeded | PocResponseMissing
    | RegisterInvalid | StakeInsufficient
    | EndorserNotT2 | EndorseNoRegister | SelfEndorse | DuplicateEndorse
    | SuspendUnauthorized | RevokeUnauthorized | EditorActionUnknown
    | ReviewTargetUnresolvable | SelfReview | ChallengeTargetUnresolvable | SelfChallenge
    | RulingChallengeMissing | RulingSeedMismatch | BaselineRevMismatch | BaselineRevNotNull | RulingParamsMissing
    | VoteOnClosedProposal | DuplicateVote | RulingActionUnknown
    | ParamVoteOnClosed | ParamProposalKindUnknown
    | DuplicateCreate | EditWithoutEntry | RevertWithoutEntry | RevertEntryMismatch | RevertTargetUnresolvable
    | RevertHashMismatch | RedirectWithoutEntry | RedirectTargetMissing | RevTypeUnknown

  datatype Grave = Grave(pin: string, reason: Reason)

  datatype State = State(rules: Rules, registry: Registry, wiki: Wiki, court: Court, counts: Counts, graveyard: seq<Grave>)

  const Start := State(
    Rules(None, 0, 0, []), Registry(map[], map[], []), Wiki(map[], map[], map[]), Court(map[], map[], map[]),
    Counts(map[], map[]), [])

  function Bury(s: State, pin: string, reason: Reason): State {
    s.(graveyard := s.graveyard + [Grave(pin, reason)])
  }

  // ---- Rules, editors and tiers ----

  function Param(r: Rules, key: string, default: real): real {
    if r.params.Some? && key in r.params.value then r.params.value[key] else default
  }

  /** Conversion to an integer truncates toward zero. */
  function Truncate(x: real): int {
    if x >= 0.0 then x.Floor else -(-x).Floor
  }

  /** Integer division truncates toward zero. */
  function Quotient(a: int, b: int): int
    requires b > 0
  {
    if a >= 0 then a / b else -(-a / b)
  }

  function IntParam(r: Rules, key: string, default: real): int {
    Truncate(Param(r, key, default))
  }

  function EditorOf(g: Registry, id: string): Editor {
    if id in g.editors then g.editors[id] else NewEditor
  }

  function SetEditor(g: Registry, id: string, e: Editor): Registry {
    g.(editors := g.editors[id := e])
  }

  datatype Tier = Inactive | T0 | T0Plus | T1 | T2

  function TierOf(o: Options, r: Rules, g: Registry, id: string, h: int): Tier {
    if id !in g.editors then Inactive else
      var e := g.editors[id];
      if e.revoked || e.banned || e.registeredAt == None then Inactive
      else if e.suspensionUntil != 0 && h < e.suspensionUntil then Inactive
      else
        var age := (h - e.registeredAt.value) as real;
        var hours, days := age / BlocksPerHour(o) as real, age / BlocksPerDay(o) as real;
        if e.founder && h < r.bootstrapEndH then T2
        else if days >= Param(r, "t2MinDays", 14.0) && e.validRevs as real >= Param(r, "t2MinValidRevs", 100.0) then T2
        else if hours >= Param(r, "t0DurationHours", 72.0) then
          (if e.validRevs as real >= Param(r, "t1MinValidRevs", 10.0) then T1 else T0Plus)
        else T0
  }

  predicate Active(o: Options, r: Rules, g: Registry, id: string, h: int) {
    TierOf(o, r, g, id, h) != Inactive
  }

  function CountRoot(o: Options, id: string): string {
    if id in o.clusterAliases then o.clusterAliases[id] else id
  }

  // ---- Arbiters ----

  function Candidates(o: Options, r: Rules, g: Registry, h: int): set<string> {
    set id | id in g.editors && TierOf(o, r, g, id, h) == T2
  }

  function DrawnBefore(o: Options, seed: string): (string, string) -> bool {
    (a: string, b: string) =>
      if o.hash(seed + a) != o.hash(seed + b) then o.hash(seed + a) < o.hash(seed + b) else StringLess(a, b)
  }

  function FirstOf(s: seq<string>, n: int): seq<string> {
    if n <= 0 then [] else if n < |s| then s[..n] else s
  }

  ghost function ArbiterDraw(o: Options, seed: string, candidates: set<string>, n: int): seq<string> {
    FirstOf(StableSort(DrawnBefore(o, seed), CanonicalJson.SortedKeys(candidates)), n)
  }

  ghost function Snapshot(o: Options, r: Rules, g: Registry, pin: string, challengePin: string, h: int): seq<string> {
    if pin in o.arbiterOverrides then o.arbiterOverrides[pin]
    else ArbiterDraw(o, challengePin, Candidates(o, r, g, h), IntParam(r, "arbiterDrawN", 7.0))
  }

  // ---- Records ----

  function RecordAt(w: Wiki, key: string): Record {
    if key in w.at && w.at[key] in w.records then w.records[w.at[key]] else NewRecord(key)
  }

  /** Changes the record a key stands for. */
  function SetRecord(w: Wiki, key: string, r: Record): Wiki {
    if key in w.at then w.(records := w.records[w.at[key] := r]) else w
  }

  /** The record of a key, made if there is none. */
  function Touch(w: Wiki, key: string): Wiki {
    if key in w.at then w else w.(at := w.at[key := key], records := w.records[key := NewRecord(key)])
  }

  predicate Holds(w: Wiki, key: string, rev: string) {
    key in w.at && rev in RecordAt(w, key).pages.versions
  }

  ghost function Holders(w: Wiki, rev: string): set<string> {
    set key | key in w.at && Holds(w, key, rev)
  }

  /** The entry a revision belongs to: the key it was written under if that
    * still holds it, else the smallest key that does. */
  ghost function OwnerKey(w: Wiki, rev: string): string {
    var keys := Holders(w, rev);
    if rev == "" || keys == {} then "" else
      var k :| k in keys;
      var recorded := RecordAt(w, k).pages.versions[rev].entryKey;
      if recorded != "" && Holds(w, recorded, rev) then recorded
      else CanonicalJson.SortedKeys(keys)[0]
  }

  // ---- Expiry ----

  predicate Expires(p: Proposal, h: int) {
    p.state == Open && h >= p.fixed.expiryH
  }

  /** What an expiring proposal does to a frozen record. */
  function Thaw(r: Record, baselineRev: string): Record {
    if r.guard.status != Frozen then r
    else r.(guard := r.guard.(status := Normal),
            pages := if baselineRev != "" then r.pages.(head := baselineRev) else r.pages)
  }

  function CloseOne(w: Wiki, p: Proposal, h: int): Wiki {
    if !Expires(p, h) || p.fixed.entryKey == "" || p.fixed.entryKey !in w.at then w
    else SetRecord(w, p.fixed.entryKey, Thaw(RecordAt(w, p.fixed.entryKey), p.fixed.baselineRev))
  }

  function VoidOne(p: Proposal, h: int): Proposal {
    if Expires(p, h) then p.(state := Voided) else p
  }

  function VoidAll(ps: map<string, Proposal>, h: int): map<string, Proposal> {
    map pin | pin in ps :: VoidOne(ps[pin], h)
  }

  /** The records after the proposals in `order` are looked at one by one. */
  function CloseIn(order: seq<string>, ps: map<string, Proposal>, w: Wiki, h: int): Wiki {
    if order == [] then w else
      var pin := order[|order| - 1];
      var before := CloseIn(order[..|order| - 1], ps, w, h);
      if pin in ps then CloseOne(before, ps[pin], h) else before
  }

  /** One order to look at them in. */
  ghost function CloseExpired(s: State, h: int): State {
    s.(wiki := CloseIn(CanonicalJson.SortedKeys(s.court.proposals.Keys), s.court.proposals, s.wiki, h),
       court := s.court.(proposals := VoidAll(s.court.proposals, h)))
  }

  // ---- Rulings ----

  function Delta(outcome: Outcome): real {
    match outcome
    case ConfirmGoodfaith(_) => 1.0
    case WarnEditor(_) => -1.0
    case SlashHalf(_) => -2.0
    case SlashFull(_) => -5.0
    case BanEditor(_) => -5.0
    case _ => 0.0
  }

  function Judged(outcome: Outcome): string {
    match outcome
    case ConfirmGoodfaith(e) => e
    case WarnEditor(e) => e
    case SlashHalf(e) => e
    case SlashFull(e) => e
    case BanEditor(e) => e
    case _ => ""
  }

  function JudgeEditor(g: Registry, outcome: Outcome): Registry {
    var id := Judged(outcome);
    if id == "" then g else
      var e := EditorOf(g, id);
      SetEditor(g, id, e.(reputation := e.reputation + Delta(outcome), banned := e.banned || outcome.BanEditor?))
  }

  function AddPage(p: Pages, rev: string, v: Version): Pages {
    p.(head := rev, history := p.history + [rev], versions := p.versions[rev := v])
  }

  const NoVersion := Version("", "", "", "", "", "", "")

  function VersionAt(p: Pages, rev: string): Version {
    if rev in p.versions then p.versions[rev] else NoVersion
  }

  /** What a ruling does to the record it is about. */
  function JudgeRecord(r: Record, c: Case, challenges: map<string, Dispute>): Record {
    match c.outcome
    case Dismiss =>
      if c.challengePin in challenges
      then r.(pages := r.pages.(disputed := r.pages.disputed - {challenges[c.challengePin].targetRev}))
      else r
    case RevertTo(rev) =>
      var v := Version(VersionAt(r.pages, rev).contentHash, c.proposer, r.pages.head, "", "", c.entryKey, c.pin);
      r.(pages := AddPage(r.pages, c.pin + "::rev", v))
    case Protect => r.(guard := r.guard.(status := Protected))
    case Unprotect => r.(guard := r.guard.(status := Normal))
    case Unfreeze => if r.guard.status == Frozen then r.(guard := r.guard.(status := Normal)) else r
    case _ => r
  }

  function BareSlug(key: string): string {
    if key == "" then "" else if key[0] == ':' then key[1..] else BareSlug(key[1..])
  }

  function Transfer(w: Wiki, fromEntry: string, toEntry: string): Wiki {
    if fromEntry !in w.at then w
    else w.(at := w.at[toEntry := w.at[fromEntry]],
            aliasOf := if BareSlug(toEntry) != "" then w.aliasOf[fromEntry := BareSlug(toEntry)] else w.aliasOf)
  }

  function JudgeWiki(w: Wiki, c: Case, challenges: map<string, Dispute>): Wiki {
    if c.entryKey == "" then w
    else if c.outcome.TransferSlug? then Transfer(w, c.outcome.fromEntry, c.outcome.toEntry)
    else SetRecord(w, c.entryKey, JudgeRecord(RecordAt(w, c.entryKey), c, challenges))
  }

  function SetProposal(c: Court, pin: string, p: Proposal): Court {
    c.(proposals := c.proposals[pin := p])
  }

  function ApplyOutcome(s: State, pin: string, p: Proposal): State {
    s.(court := SetProposal(s.court, pin, p.(state := Effective)),
       wiki := JudgeWiki(s.wiki, p.fixed, s.court.challenges),
       registry := JudgeEditor(s.registry, p.fixed.outcome))
  }

  predicate OutcomeOk(r: Record, outcome: Outcome) {
    match outcome
    case RevertTo(rev) => rev != "" && rev in r.pages.versions
    case TransferSlug(fromEntry, toEntry) => fromEntry != "" && toEntry != ""
    case Malformed => false
    case Dismiss => true
    case Protect => true
    case Unprotect => true
    case Unfreeze => true
    case _ => Judged(outcome) != ""
  }

  ghost function ApplyPropose(o: Options, s: State, ev: Event, h: int): State
    requires ev.body.Propose?
  {
    var b := ev.body;
    if !Active(o, s.rules, s.registry, ev.sender, h) then Bury(s, ev.pin, Unregistered)
    else if b.challengePin !in s.court.challenges then Bury(s, ev.pin, RulingChallengeMissing)
    else if b.seed != b.challengePin then Bury(s, ev.pin, RulingSeedMismatch)
    else
      var key := s.court.challenges[b.challengePin].entryKey;
      var r := RecordAt(s.wiki, key);
      if r.guard.status == Frozen && (b.baselineRev == "" || b.baselineRev != r.guard.baselineRev)
      then Bury(s, ev.pin, BaselineRevMismatch)
      else if r.guard.status != Frozen && b.baselineRev != "" then Bury(s, ev.pin, BaselineRevNotNull)
      else if !OutcomeOk(r, b.outcome) then Bury(s, ev.pin, RulingParamsMissing)
      else
        var expiryH := h + IntParam(s.rules, "voteWindowHours", 48.0) * BlocksPerHour(o);
        var fixed := Case(ev.pin, b.challengePin, b.outcome, ev.sender, h, expiryH,
                          Snapshot(o, s.rules, s.registry, ev.pin, b.challengePin, h), key, b.baselineRev);
        s.(court := SetProposal(s.court, ev.pin, Proposal(fixed, Open, {}, {})))
  }

  function Ballot(p: Proposal, sender: string, approve: bool): Proposal {
    p.(voters := p.voters + {sender},
       approves := if approve && sender in p.fixed.arbiters then p.approves + {sender} else p.approves)
  }

  function Quorum(r: Rules): int {
    IntParam(r, "rulingQuorum", 5.0)
  }

  function ApplyVote(s: State, ev: Event, h: int): State
    requires ev.body.Vote?
  {
    var pin := ev.body.proposalPin;
    if pin !in s.court.proposals || s.court.proposals[pin].state != Open || h > s.court.proposals[pin].fixed.expiryH
    then Bury(s, ev.pin, VoteOnClosedProposal)
    else
      var p := s.court.proposals[pin];
      if ev.sender in p.voters then Bury(s, ev.pin, DuplicateVote)
      else
        var q := Ballot(p, ev.sender, ev.body.approve);
        if ev.body.approve && ev.sender in p.fixed.arbiters && |q.approves| >= Quorum(s.rules)
        then ApplyOutcome(s, pin, q)
        else s.(court := SetProposal(s.court, pin, q))
  }

  // ---- Revisions ----

  function Day(o: Options, r: Rules, h: int): int {
    Quotient(h - r.genesisHeight, BlocksPerDay(o))
  }

  function DayCount(c: Counts, k: (string, int)): int {
    if k in c.perDay then c.perDay[k] else 0
  }

  function SlugCount(c: Counts, k: (string, int, string)): int {
    if k in c.perSlug then c.perSlug[k] else 0
  }

  function RevGate(o: Options, s: State, sender: string, r: Record, h: int): Option<Reason> {
    var tier := TierOf(o, s.rules, s.registry, sender, h);
    var root, day := CountRoot(o, sender), Day(o, s.rules, h);
    if tier == Inactive then Some(Unregistered)
    else if tier == T0 then Some(T0NoRev)
    else if r.guard.status == Frozen && sender !in r.guard.frozenArbiters then Some(FrozenUnauthorized)
    else if r.guard.status == Protected
            && !(tier == T2 && EditorOf(s.registry, sender).reputation >= Param(s.rules, "thetaProtect", 0.0))
    then Some(ProtectedUnauthorized)
    else if DayCount(s.counts, (root, day)) + 1 > IntParam(s.rules, "rateGlobalDaily", 20.0) then Some(RateGlobal)
    else if SlugCount(s.counts, (root, day, r.key)) + 1 > IntParam(s.rules, "ratePerSlugDaily", 10.0) then Some(RateSlug)
    else None
  }

  function CountRev(o: Options, s: State, sender: string, key: string, h: int): State {
    var root, day := CountRoot(o, sender), Day(o, s.rules, h);
    var c, e := s.counts, EditorOf(s.registry, sender);
    s.(counts := Counts(c.perDay[(root, day) := DayCount(c, (root, day)) + 1],
                        c.perSlug[(root, day, key) := SlugCount(c, (root, day, key)) + 1]),
       registry := SetEditor(s.registry, sender, e.(validRevs := e.validRevs + 1)))
  }

  /** A repeated vandalism fix by the same editor weighs full again. */
  function WeightOf(reverts: seq<RevertWeight>, root: string, vandalismFix: bool): real {
    if vandalismFix && !(exists i :: 0 <= i < |reverts| && reverts[i].editor == root && reverts[i].vandalismFix)
    then 0.5 else 1.0
  }

  function Recent(after: int): RevertWeight -> bool {
    (w: RevertWeight) => w.h > after
  }

  function TotalWeight(ws: seq<RevertWeight>): real {
    if ws == [] then 0.0 else TotalWeight(ws[..|ws| - 1]) + ws[|ws| - 1].weight
  }

  /** Books a revert and freezes a normal record that was reverted too much; the
    * revert itself is counted by then. */
  ghost function War(o: Options, s: State, ev: Event, h: int, key: string, head: string, g: Guard): Guard
    requires ev.body.Rev? && ev.body.edit.Revert?
  {
    var root, vf := CountRoot(o, ev.sender), ev.body.edit.vandalismFix;
    var window := IntParam(s.rules, "revertWarWindowHours", 6.0) * BlocksPerHour(o);
    var booked := Select(Recent(h - window), g.reverts) + [RevertWeight(h, root, WeightOf(g.reverts, root, vf), vf)];
    if g.status == Normal && TotalWeight(booked) >= Param(s.rules, "revertWarThreshold", 3.0) then
      var arbiters := if key in o.frozenArbiterOverrides then o.frozenArbiterOverrides[key]
        else ArbiterDraw(o, ev.pin, Candidates(o, s.rules, s.registry, h), IntParam(s.rules, "arbiterDrawN", 7.0));
      Guard(Frozen, ev.pin, head, arbiters, booked)
    else g.(reverts := booked)
  }

  datatype Revised = Accepted(record: Record) | Refused(reason: Reason)

  function KeyOfRev(b: Body): string
    requires b.Rev?
  {
    b.lang + ":" + b.slug
  }

  function CreatePage(r: Record, ev: Event, key: string): Revised
    requires ev.body.Rev?
  {
    if r.pages.head != "" then Refused(DuplicateCreate)
    else
      var v := Version(ev.body.contentHash, ev.sender, "", "", ev.body.summary, key, "");
      Accepted(r.(pages := AddPage(r.pages, ev.pin, v)))
  }

  function ChangePage(r: Record, ev: Event, key: string): Revised
    requires ev.body.Rev? && ev.body.edit.Change?
  {
    if r.pages.head == "" then Refused(EditWithoutEntry)
    else
      var e, head := ev.body.edit, r.pages.head;
      var contests := if e.basedOn != "" && e.basedOn != head
        then r.pages.contests + [Contest(ev.pin, head, e.basedOn)] else r.pages.contests;
      var v := Version(ev.body.contentHash, ev.sender, e.parentRev, e.basedOn, ev.body.summary, key, "");
      Accepted(r.(pages := AddPage(r.pages.(contests := contests), ev.pin, v)))
  }

  ghost function RevertPage(o: Options, s: State, r: Record, ev: Event, h: int, key: string): Revised
    requires ev.body.Rev? && ev.body.edit.Revert?
  {
    var rev, p := ev.body.edit.revertTo, r.pages;
    if p.head == "" then Refused(RevertWithoutEntry)
    else if rev !in p.versions then
      Refused(if exists k :: k in s.wiki.at && Holds(s.wiki, k, rev) then RevertEntryMismatch else RevertTargetUnresolvable)
    else if p.versions[rev].entryKey != key then Refused(RevertEntryMismatch)
    else if ev.body.contentHash != p.versions[rev].contentHash then Refused(RevertHashMismatch)
    else
      var v := Version(p.versions[rev].contentHash, ev.sender, p.head, "", "", key, ev.pin);
      Accepted(r.(pages := AddPage(p, ev.pin + "::eq", v), guard := War(o, CountRev(o, s, ev.sender, r.key, h), ev, h, key, p.head, r.guard)))
  }

  function RedirectPage(s: State, r: Record, ev: Event): Revised
    requires ev.body.Rev? && ev.body.edit.Redirect?
  {
    var target := ev.body.lang + ":" + ev.body.edit.redirectTo;
    if r.pages.head == "" then Refused(RedirectWithoutEntry)
    else if target !in s.wiki.at || RecordAt(s.wiki, target).pages.head == "" then Refused(RedirectTargetMissing)
    else
      Accepted(r.(pages := r.pages.(head := ev.pin, history := r.pages.history + [ev.pin],
                                    redirect := ev.body.edit.redirectTo)))
  }

  ghost function Revise(o: Options, s: State, r: Record, ev: Event, h: int, key: string): Revised
    requires ev.body.Rev?
  {
    match ev.body.edit
    case Create => CreatePage(r, ev, key)
    case Change(_, _) => ChangePage(r, ev, key)
    case Revert(_, _) => RevertPage(o, s, r, ev, h, key)
    case Redirect(_) => RedirectPage(s, r, ev)
    case UnknownEdit => Refused(RevTypeUnknown)
  }

  ghost function ApplyRev(o: Options, s0: State, ev: Event, h: int): State
    requires ev.body.Rev?
  {
    var key := KeyOfRev(ev.body);
    var s := s0.(wiki := Touch(s0.wiki, key));
    var r := RecordAt(s.wiki, key);
    match RevGate(o, s, ev.sender, r, h)
    case Some(reason) => Bury(s, ev.pin, reason)
    case None =>
      match Revise(o, s, r, ev, h, key)
      case Refused(reason) => Bury(s, ev.pin, reason)
      case Accepted(revised) => CountRev(o, s.(wiki := SetRecord(s.wiki, key, revised)), ev.sender, r.key, h)
  }

  // ---- Registration ----

  /** Earlier registers first, then the smaller register pin. */
  predicate RegisteredBefore(a: Registration, b: Registration) {
    if a.registerH != b.registerH then a.registerH < b.registerH
    else if a.registerT != b.registerT then a.registerT < b.registerT
    else StringLess(a.registerPin, b.registerPin)
  }

  ghost function Eligible(regs: map<string, Registration>, applicant: string): set<string> {
    set k | k in regs && regs[k].applicant == applicant && regs[k].stakeOk
  }

  /** The register an endorsement is for: the one it names, else the earliest. */
  ghost predicate IsEndorsed(regs: map<string, Registration>, applicant: string, declared: string, k: string) {
    k in Eligible(regs, applicant)
    && if declared != "" && exists j :: j in Eligible(regs, applicant) && regs[j].registerPin == declared
       then regs[k].registerPin == declared
       else forall j :: j in Eligible(regs, applicant) ==> !RegisteredBefore(regs[j], regs[k])
  }

  lemma {:induction false} EarliestExists(regs: map<string, Registration>, ks: set<string>) returns (k: string)
    requires ks != {} && forall j :: j in ks ==> j in regs
    ensures k in ks && forall j :: j in ks ==> !RegisteredBefore(regs[j], regs[k])
    decreases ks
  {
    k :| k in ks;
    StringLessStrict(regs[k].registerPin, regs[k].registerPin);
    if ks != {k} {
      var best := EarliestExists(regs, ks - {k});
      if !RegisteredBefore(regs[k], regs[best]) {
        k := best;
      } else {
        forall j | j in ks - {k} ensures !RegisteredBefore(regs[j], regs[k]) {
          if RegisteredBefore(regs[j], regs[k]) {
            RegisteredBeforeAlso(regs[j], regs[k], regs[best]);
          }
        }
      }
    }
  }

  lemma RegisteredBeforeAlso(a: Registration, b: Registration, c: Registration)
    requires RegisteredBefore(a, b) && RegisteredBefore(b, c)
    ensures RegisteredBefore(a, c)
  {
    if StringLess(a.registerPin, b.registerPin) && StringLess(b.registerPin, c.registerPin) {
      StringLessTransitive(a.registerPin, b.registerPin, c.registerPin);
    }
  }

  ghost function Endorsed(regs: map<string, Registration>, applicant: string, declared: string): Option<Registration> {
    if exists k :: IsEndorsed(regs, applicant, declared, k) then
      var k :| IsEndorsed(regs, applicant, declared, k);
      Some(regs[k])
    else None
  }

  /** An endorsement finds a register exactly when its applicant has one. */
  lemma EndorsedWhenRegistered(regs: map<string, Registration>, applicant: string, declared: string)
    ensures Endorsed(regs, applicant, declared) == None <==> Eligible(regs, applicant) == {}
  {
    var ks := Eligible(regs, applicant);
    if ks != {} {
      var k := EarliestExists(regs, ks);
      if j :| j in ks && declared != "" && regs[j].registerPin == declared {
        assert IsEndorsed(regs, applicant, declared, j);
      } else {
        assert IsEndorsed(regs, applicant, declared, k);
      }
    }
  }

  function EnsureEditor(s: State, id: string): State {
    s.(registry := SetEditor(s.registry, id, EditorOf(s.registry, id)))
  }

  function UpdateEditor(s: State, id: string, e: Editor): State {
    s.(registry := SetEditor(s.registry, id, e))
  }

  function SetRegistration(s: State, pin: string, rc: Registration): State {
    s.(registry := s.registry.(registrations := s.registry.registrations[pin := rc]))
  }

  function ApplyPoc(o: Options, s: State, ev: Event, h: int, challengePin: string, responsePin: string): State {
    var regs := s.registry.registrations;
    if challengePin !in regs || regs[challengePin].applicant != ev.sender then Bury(s, ev.pin, PocChallengeMismatch)
    else if h - regs[challengePin].h > BlocksPerHour(o) then Bury(s, ev.pin, PocWindowExceeded)
    else if Review(responsePin, ev.sender) !in s.registry.reviews then Bury(s, ev.pin, PocResponseMissing)
    else SetRegistration(s, challengePin, regs[challengePin].(pocOk := true))
  }

  /** An absent stake has no transaction. */
  function ApplyRegister(s: State, ev: Event, h: int, challengePin: string, stakeTxid: string, amount: real): State {
    var regs := s.registry.registrations;
    if challengePin !in regs || regs[challengePin].applicant != ev.sender || !regs[challengePin].pocOk
    then Bury(s, ev.pin, RegisterInvalid)
    else if stakeTxid == "" || amount < Param(s.rules, "stakeAmountSat", 1.0) then Bury(s, ev.pin, StakeInsufficient)
    else
      var rc := regs[challengePin].(stakeOk := true, registerH := h, registerT := ev.txIndex, registerPin := ev.pin);
      UpdateEditor(SetRegistration(s, challengePin, rc), ev.sender, EditorOf(s.registry, ev.sender).(registerH := h))
  }

  ghost function ApplyEndorse(o: Options, s: State, ev: Event, h: int, applicant: string, declared: string): State {
    var target := Endorsed(s.registry.registrations, applicant, declared);
    var e := EditorOf(s.registry, applicant);
    if TierOf(o, s.rules, s.registry, ev.sender, h) != T2 then Bury(s, ev.pin, EndorserNotT2)
    else if target == None then Bury(s, ev.pin, EndorseNoRegister)
    else if ev.sender == applicant then Bury(s, ev.pin, SelfEndorse)
    else if ev.sender in e.endorsements then Bury(s, ev.pin, DuplicateEndorse)
    else
      var threshold := if h < s.rules.bootstrapEndH then 4 else 2;
      var endorsed := e.(endorsements := e.endorsements + {ev.sender});
      UpdateEditor(s, applicant,
        if |endorsed.endorsements| >= threshold && e.registeredAt == None
        then endorsed.(registeredAt := Some(target.value.registerH)) else endorsed)
  }

  predicate MayEnforce(o: Options, s: State, sender: string, rulingPin: string, h: int) {
    rulingPin in s.court.proposals && s.court.proposals[rulingPin].state == Effective
    && TierOf(o, s.rules, s.registry, sender, h) == T2
  }

  ghost function ApplyEditor(o: Options, s0: State, ev: Event, h: int): State
    requires ev.body.Editing?
  {
    var applicant := ev.body.editor;
    var s := EnsureEditor(s0, applicant);
    match ev.body.action
    case RegChallenge =>
      if !Active(o, s.rules, s.registry, ev.sender, h) then Bury(s, ev.pin, Unregistered)
      else SetRegistration(s, ev.pin, Registration(applicant, ev.sender, h, false, false, 0, 0, ""))
    case PocResponse(challengePin, responsePin) => ApplyPoc(o, s, ev, h, challengePin, responsePin)
    case Register(challengePin, txid, amount) => ApplyRegister(s, ev, h, challengePin, txid, amount)
    case Endorse(declared) => ApplyEndorse(o, s, ev, h, applicant, declared)
    case Suspend(rulingPin) =>
      if !MayEnforce(o, s, ev.sender, rulingPin, h) then Bury(s, ev.pin, SuspendUnauthorized)
      else
        var until := h + IntParam(s.rules, "arbiterSuspensionDays", 30.0) * BlocksPerDay(o);
        UpdateEditor(s, applicant, EditorOf(s.registry, applicant).(suspensionUntil := until))
    case Revoke(rulingPin) =>
      if !MayEnforce(o, s, ev.sender, rulingPin, h) then Bury(s, ev.pin, RevokeUnauthorized)
      else UpdateEditor(s, applicant, EditorOf(s.registry, applicant).(revoked := true))
    case UnknownAction => Bury(s, ev.pin, EditorActionUnknown)
  }

  // ---- Reviews, challenges, parameters ----

  ghost function ApplyReview(s: State, ev: Event): State
    requires ev.body.ReviewBody?
  {
    var rev := ev.body.targetRev;
    var key := OwnerKey(s.wiki, rev);
    if key == "" then Bury(s, ev.pin, ReviewTargetUnresolvable)
    else if VersionAt(RecordAt(s.wiki, key).pages, rev).author == ev.sender then Bury(s, ev.pin, SelfReview)
    else s.(registry := s.registry.(reviews := s.registry.reviews + [Review(ev.pin, ev.sender)]))
  }

  function MarkDisputed(r: Record, rev: string): Record {
    r.(pages := r.pages.(disputed := r.pages.disputed + {rev}))
  }

  ghost function ApplyChallenge(o: Options, s: State, ev: Event): State
    requires ev.body.ChallengeBody?
  {
    var rev := ev.body.targetRev;
    var key := OwnerKey(s.wiki, rev);
    if key == "" then Bury(s, ev.pin, ChallengeTargetUnresolvable)
    else if !Active(o, s.rules, s.registry, ev.sender, ev.height) then Bury(s, ev.pin, Unregistered)
    else if VersionAt(RecordAt(s.wiki, key).pages, rev).author == ev.sender then Bury(s, ev.pin, SelfChallenge)
    else
      s.(wiki := SetRecord(s.wiki, key, MarkDisputed(RecordAt(s.wiki, key), rev)),
         court := s.court.(challenges := s.court.challenges[ev.pin := Dispute(rev, ev.sender, key)]))
  }

  function SetMotion(s: State, pin: string, m: ParamProposal): State {
    s.(court := s.court.(motions := s.court.motions[pin := m]))
  }

  function ApplyParamVote(o: Options, s: State, ev: Event, h: int): State
    requires ev.body.ParamVote?
  {
    var pin := ev.body.proposalPin;
    if pin !in s.court.motions || s.court.motions[pin].effective then Bury(s, ev.pin, ParamVoteOnClosed)
    else
      var m := s.court.motions[pin];
      var counts := ev.body.approve && TierOf(o, s.rules, s.registry, ev.sender, h) == T2;
      var approves := if counts then m.approves + {ev.sender} else m.approves;
      var need := Quotient(IntParam(s.rules, "arbiterPoolK", 21.0) * 2, 3) + 1;
      SetMotion(s, pin, ParamProposal(|approves| >= need, approves))
  }

  // ---- Genesis and one event ----

  function Founded(editors: map<string, Editor>, founders: seq<string>, h: int): map<string, Editor> {
    if founders == [] then editors else
      var id := founders[|founders| - 1];
      var before := Founded(editors, founders[..|founders| - 1], h);
      var e := if id in before then before[id] else NewEditor;
      before[id := e.(founder := true, registeredAt := Some(h))]
  }

  function Rated(editors: map<string, Editor>, reps: map<string, real>): map<string, Editor> {
    map id | id in editors.Keys + reps.Keys ::
      var e := if id in editors then editors[id] else NewEditor;
      if id in reps then e.(reputation := reps[id]) else e
  }

  function ApplyGenesis(o: Options, s: State, ev: Event): State
    requires ev.body.Genesis?
  {
    if s.rules.params.Some? then Bury(s, ev.pin, DuplicateGenesis)
    else
      var h := ev.height;
      var rules := Rules(Some(ev.body.params), h, 0, ev.body.founders);
      var end := h + IntParam(rules, "bootstrapWindowDays", 30.0) * BlocksPerDay(o);
      s.(rules := rules.(bootstrapEndH := end),
         registry := s.registry.(editors := Rated(Founded(s.registry.editors, ev.body.founders, h), o.editorsRep)))
  }

  function ApplyAmendment(s: State, ev: Event): State
    requires ev.body.Amendment?
  {
    var pin := ev.body.proposalPin;
    if pin !in s.court.motions || !s.court.motions[pin].effective || s.rules.params == None
    then Bury(s, ev.pin, NoEffectiveProposal)
    else s.(rules := s.rules.(params := Some(s.rules.params.value + ev.body.params)))
  }

  ghost function Dispatch(o: Options, s: State, ev: Event): State {
    var h := ev.height;
    if ev.body.Genesis? then ApplyGenesis(o, s, ev)
    else if ev.body.Amendment? then ApplyAmendment(s, ev)
    else if s.rules.params == None then Bury(s, ev.pin, NoGenesis)
    else
      match ev.body
      case Editing(_, _) => ApplyEditor(o, s, ev, h)
      case ReviewBody(_) => ApplyReview(s, ev)
      case ChallengeBody(_) => ApplyChallenge(o, s, ev)
      case Propose(_, _, _, _) => ApplyPropose(o, s, ev, h)
      case Vote(_, _) => ApplyVote(s, ev, h)
      case UnknownRuling => Bury(s, ev.pin, RulingActionUnknown)
      case ParamPropose =>
        if Active(o, s.rules, s.registry, ev.sender, h) then SetMotion(s, ev.pin, ParamProposal(false, {}))
        else Bury(s, ev.pin, Unregistered)
      case ParamVote(_, _) => ApplyParamVote(o, s, ev, h)
      case UnknownParamKind => Bury(s, ev.pin, ParamProposalKindUnknown)
      case Rev(_, _, _, _, _) => ApplyRev(o, s, ev, h)
      case _ => Bury(s, ev.pin, UnknownPathReason)
  }

  /** One event: expired proposals close first. */
  ghost function Step(o: Options, s: State, ev: Event): State {
    Dispatch(o, CloseExpired(s, ev.height), ev)
  }

  ghost function Run(o: Options, events: seq<Event>): State {
    if events == [] then Start else Step(o, Run(o, events[..|events| - 1]), events[|events| - 1])
  }
}
