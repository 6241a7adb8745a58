/** Three runs of at most eight events: one after which the order of closing shows,
  * one after which an entry's head carries a hash that no one wrote, and one that
  * the order of pulling decides.
  *
  * All their events are at height 0, where the founders are seasoned editors and
  * no proposal expires yet.
  */
module AgentpediaRuns {
  import opened ChainEvents
  import opened Sorting
  import opened Agentpedia
  import CanonicalJson
  import Rulings = AgentpediaRulings
  import Entries = AgentpediaEntries
  import Order = AgentpediaOrder

  const Tuning := Options(6, 144, map["p1" := ["f"], "p2" := ["f"]], map[], map[], map[], (s: string) => 0)
  const Params: map<string, real> := map["rulingQuorum" := 1.0, "revertWarThreshold" := 1.0]
  const Opening := Event("g0", 0, 0, "f", Genesis(Params, ["f", "g"]))
  const Blank := Wiki(map[], map[], map[])
  const Idle := Court(map[], map[], map[])
  const InForce := Rules(Some(Params), 0, 4320, ["f", "g"])

  // ---- What stays so at height 0 ----

  predicate Founder(g: Registry, id: string) {
    id in g.editors && g.editors[id].founder && g.editors[id].registeredAt == Some(0)
    && g.editors[id].suspensionUntil == 0 && !g.editors[id].revoked && !g.editors[id].banned
  }

  /** The founder `f` has made at most `n` revisions, and nothing expires yet. */
  ghost predicate Early(s: State, n: int) {
    && s.rules == InForce && Founder(s.registry, "f") && Founder(s.registry, "g")
    && DayCount(s.counts, ("f", 0)) <= n && (forall key :: SlugCount(s.counts, ("f", 0, key)) <= n)
    && forall pin :: pin in s.court.proposals ==> s.court.proposals[pin].fixed.expiryH == 288
  }

  lemma Settings()
    ensures IntParam(InForce, "rateGlobalDaily", 20.0) == 20 && IntParam(InForce, "ratePerSlugDaily", 10.0) == 10
    ensures IntParam(InForce, "voteWindowHours", 48.0) == 48 && IntParam(InForce, "revertWarWindowHours", 6.0) == 6
    ensures Quorum(InForce) == 1 && Param(InForce, "revertWarThreshold", 3.0) == 1.0
  {
  }

  lemma FoundersAreSeasoned(s: State, n: int, id: string)
    requires Early(s, n) && (id == "f" || id == "g")
    ensures TierOf(Tuning, s.rules, s.registry, id, 0) == T2
  {
  }

  lemma {:induction false} NothingCloses(order: seq<string>, ps: map<string, Proposal>, w: Wiki, h: int)
    requires forall pin :: pin in ps ==> !Expires(ps[pin], h)
    ensures CloseIn(order, ps, w, h) == w
  {
    if order != [] {
      NothingCloses(order[..|order| - 1], ps, w, h);
    }
  }

  lemma NothingExpires(s: State, n: int)
    requires Early(s, n)
    ensures CloseExpired(s, 0) == s
  {
    NothingCloses(CanonicalJson.SortedKeys(s.court.proposals.Keys), s.court.proposals, s.wiki, 0);
    assert VoidAll(s.court.proposals, 0) == s.court.proposals;
  }

  // ---- One event each ----

  lemma NothingToClose()
    ensures CloseExpired(Start, 0) == Start
  {
    NothingCloses(CanonicalJson.SortedKeys({}), map[], Start.wiki, 0);
    assert Start.court.proposals.Keys == {} && VoidAll(map[], 0) == map[];
  }

  lemma TwoFounded()
    ensures Founded(map[], ["f", "g"], 0) == map["f" := NewEditor.(founder := true, registeredAt := Some(0)),
                                                 "g" := NewEditor.(founder := true, registeredAt := Some(0))]
  {
    assert ["f", "g"][..1] == ["f"] && ["f"][..0] == [];
    assert Founded(map[], ["f"], 0) == map["f" := NewEditor.(founder := true, registeredAt := Some(0))];
  }

  lemma Opened()
    ensures var s := Step(Tuning, Start, Opening);
      Early(s, 0) && s.wiki == Blank && s.court == Idle
  {
    NothingToClose();
    TwoFounded();
  }

  lemma Counted(s: State, n: int, key: string)
    requires Early(s, n)
    ensures var t := CountRev(Tuning, s, "f", key, 0);
      Early(t, n + 1) && t.wiki == s.wiki && t.court == s.court
  {
  }

  lemma GatesOpen(s: State, n: int, r: Record)
    requires Early(s, n) && n < 9 && r.guard.status == Normal
    ensures RevGate(Tuning, s, "f", r, 0) == None
  {
    Settings();
    FoundersAreSeasoned(s, n, "f");
  }

  lemma Applied(s: State, ev: Event, key: string, w: Wiki, q: Record)
    requires ev.body.Rev? && KeyOfRev(ev.body) == key && Touch(s.wiki, key) == w && ev.sender == "f"
    requires RevGate(Tuning, s.(wiki := w), "f", RecordAt(w, key), 0) == None
    requires Revise(Tuning, s.(wiki := w), RecordAt(w, key), ev, 0, key) == Accepted(q)
    ensures ApplyRev(Tuning, s, ev, 0) ==
      CountRev(Tuning, s.(wiki := SetRecord(w, key, q)), "f", RecordAt(w, key).key, 0)
  {
    assert s.(wiki := w).(wiki := SetRecord(w, key, q)) == s.(wiki := SetRecord(w, key, q));
  }

  lemma RevStep(s: State, n: int, ev: Event, key: string, w: Wiki, q: Record)
    requires ev.body.Rev? && KeyOfRev(ev.body) == key && ev.sender == "f" && ev.height == 0
    requires Early(s, n) && n < 9 && Touch(s.wiki, key) == w && RecordAt(w, key).guard.status == Normal
    requires Revise(Tuning, s.(wiki := w), RecordAt(w, key), ev, 0, key) == Accepted(q)
    ensures var t := Step(Tuning, s, ev);
      Early(t, n + 1) && t.wiki == SetRecord(w, key, q) && t.court == s.court
  {
    NothingExpires(s, n);
    GatesOpen(s.(wiki := w), n, RecordAt(w, key));
    Applied(s, ev, key, w, q);
    Entries.DispatchIs(Tuning, s, ev);
    Counted(s.(wiki := SetRecord(w, key, q)), n, RecordAt(w, key).key);
  }

  lemma ChallengeStep(s: State, n: int, ev: Event, key: string)
    requires Early(s, n) && ev.height == 0 && ev.sender == "g" && ev.body.ChallengeBody?
    requires OwnerKey(s.wiki, ev.body.targetRev) == key != ""
    requires VersionAt(RecordAt(s.wiki, key).pages, ev.body.targetRev).author == "f"
    ensures var t := Step(Tuning, s, ev); var rev := ev.body.targetRev;
      Early(t, n) && t.wiki == SetRecord(s.wiki, key, MarkDisputed(RecordAt(s.wiki, key), rev))
      && t.court == s.court.(challenges := s.court.challenges[ev.pin := Dispute(rev, "g", key)])
  {
    NothingExpires(s, n);
    FoundersAreSeasoned(s, n, "g");
  }

  function Proposed(ev: Event, key: string): Proposal
    requires ev.body.Propose?
  {
    Proposal(Case(ev.pin, ev.body.challengePin, ev.body.outcome, "f", 0, 288, ["f"], key, ev.body.baselineRev), Open, {}, {})
  }

  lemma Proposes(s: State, n: int, ev: Event, key: string)
    requires Early(s, n) && ev.height == 0 && ev.sender == "f" && ev.body.Propose? && ev.pin in {"p1", "p2"}
    requires ev.body.challengePin in s.court.challenges && s.court.challenges[ev.body.challengePin].entryKey == key
    requires ev.body.seed == ev.body.challengePin
    requires var r := RecordAt(s.wiki, key);
      OutcomeOk(r, ev.body.outcome)
      && ev.body.baselineRev == (if r.guard.status == Frozen then r.guard.baselineRev else "")
      && (r.guard.status == Frozen ==> r.guard.baselineRev != "")
    ensures ApplyPropose(Tuning, s, ev, 0) == s.(court := SetProposal(s.court, ev.pin, Proposed(ev, key)))
  {
    FoundersAreSeasoned(s, n, "f");
    Settings();
  }

  lemma ProposeStep(s: State, n: int, ev: Event, key: string)
    requires Early(s, n) && ev.height == 0 && ev.sender == "f" && ev.body.Propose? && ev.pin in {"p1", "p2"}
    requires ev.body.challengePin in s.court.challenges && s.court.challenges[ev.body.challengePin].entryKey == key
    requires ev.body.seed == ev.body.challengePin
    requires var r := RecordAt(s.wiki, key);
      OutcomeOk(r, ev.body.outcome)
      && ev.body.baselineRev == (if r.guard.status == Frozen then r.guard.baselineRev else "")
      && (r.guard.status == Frozen ==> r.guard.baselineRev != "")
    ensures var t := Step(Tuning, s, ev);
      Early(t, n) && t.wiki == s.wiki && t.court == SetProposal(s.court, ev.pin, Proposed(ev, key))
  {
    NothingExpires(s, n);
    Entries.DispatchIs(Tuning, s, ev);
    Proposes(s, n, ev, key);
  }

  lemma VoteStep(s: State, n: int, ev: Event, propose: Event, key: string)
    requires Early(s, n) && ev.height == 0 && ev.sender == "f" && ev.body == Vote(propose.pin, true)
    requires propose.body.Propose? && propose.pin in s.court.proposals
    requires s.court.proposals[propose.pin] == Proposed(propose, key)
    requires Judged(propose.body.outcome) == ""
    ensures var t := Step(Tuning, s, ev);
      Early(t, n) && t.wiki == JudgeWiki(s.wiki, Proposed(propose, key).fixed, s.court.challenges)
      && t.court == SetProposal(s.court, propose.pin, Ballot(Proposed(propose, key), "f", true).(state := Effective))
  {
    NothingExpires(s, n);
    Settings();
    var q := Ballot(Proposed(propose, key), "f", true);
    assert q.approves == {"f"};
  }

  /** The record a first create leaves. */
  function Created(ev: Event, key: string): Record
    requires ev.body.Rev?
  {
    var r := NewRecord(key);
    r.(pages := AddPage(r.pages, ev.pin, Version(ev.body.contentHash, ev.sender, "", "", ev.body.summary, key, "")))
  }

  function Shelved(w: Wiki, key: string, r: Record): Wiki {
    w.(at := w.at[key := key], records := w.records[key := r])
  }

  lemma CreateStep(s: State, n: int, ev: Event, key: string)
    requires ev.body.Rev? && ev.body.edit.Create? && KeyOfRev(ev.body) == key && ev.sender == "f" && ev.height == 0
    requires Early(s, n) && n < 9 && key !in s.wiki.at
    ensures var t := Step(Tuning, s, ev);
      Early(t, n + 1) && t.wiki == Shelved(s.wiki, key, Created(ev, key)) && t.court == s.court
  {
    var w := Touch(s.wiki, key);
    assert RecordAt(w, key) == NewRecord(key);
    RevStep(s, n, ev, key, w, Created(ev, key));
    assert w.records[key := Created(ev, key)] == s.wiki.records[key := Created(ev, key)];
  }

  ghost predicate Is(s: State, revs: int, w: Wiki, c: Court) {
    Early(s, revs) && s.wiki == w && s.court == c
  }

  // ---- The order of closing shows ----

  const A1 := Event("a1", 0, 1, "f", Rev("en", "a", Create, "h1", ""))
  const A2 := Event("a2", 0, 2, "f", Rev("en", "a", Change("", ""), "h2", ""))
  const D1 := Event("d1", 0, 3, "g", ChallengeBody("a1"))
  const Early1 := Event("p1", 0, 4, "f", Propose("d1", "d1", "", Dismiss))
  const R1 := Event("r1", 0, 5, "f", Rev("en", "a", Revert("a1", false), "h1", ""))
  const Late2 := Event("p2", 0, 6, "f", Propose("d1", "d1", "a2", Dismiss))

  /** A page is written, changed and challenged, a ruling is proposed; a revert
    * then freezes the page and a second ruling is proposed. */
  const WarRun := [Opening, A1, A2, D1, Early1, R1, Late2]

  predicate IsWarRun(run: seq<Event>) {
    && |run| == 7 && run[0] == Opening && run[1] == A1 && run[2] == A2 && run[3] == D1 && run[4] == Early1 && run[5] == R1
    && run[6] == Late2
  }

  /** The wiki has the one entry "en:a". */
  function Only(r: Record): Wiki {
    Wiki(map["en:a" := "en:a"], map["en:a" := r], map[])
  }

  const Written := Created(A1, "en:a")
  const Changed := Written.(pages := AddPage(Written.pages, "a2", Version("h2", "f", "", "", "", "en:a", "")))
  const Disputed := MarkDisputed(Changed, "a1")
  const Challenged := Court(map["d1" := Dispute("a1", "g", "en:a")], map[], map[])

  ghost predicate At(run: seq<Event>, n: nat, revs: int, w: Wiki, c: Court)
    requires n <= |run|
  {
    Is(Run(Tuning, run[..n]), revs, w, c)
  }

  lemma KeysOfRuns()
    ensures KeyOfRev(A1.body) == KeyOfRev(A2.body) == KeyOfRev(R1.body) == "en:a"
  {
  }

  lemma ThenOpened(run: seq<Event>)
    requires run != [] && run[0] == Opening
    ensures At(run, 1, 0, Blank, Idle)
  {
    assert run[..0] == [];
    Rulings.RunStep(Tuning, run, 0);
    Opened();
  }

  lemma Writing(s: State)
    requires Is(s, 0, Blank, Idle)
    ensures Is(Step(Tuning, s, A1), 1, Only(Written), Idle)
  {
    KeysOfRuns();
    CreateStep(s, 0, A1, "en:a");
    assert Shelved(Blank, "en:a", Written) == Only(Written);
  }

  lemma FirstWritten(run: seq<Event>)
    requires |run| > 1 && run[0] == Opening && run[1] == A1
    ensures At(run, 2, 1, Only(Written), Idle)
  {
    ThenOpened(run);
    Rulings.RunStep(Tuning, run, 1);
    Writing(Run(Tuning, run[..1]));
  }

  lemma Changing(s: State)
    requires Is(s, 1, Only(Written), Idle)
    ensures Is(Step(Tuning, s, A2), 2, Only(Changed), Idle)
  {
    KeysOfRuns();
    RevStep(s, 1, A2, "en:a", Only(Written), Changed);
    assert SetRecord(Only(Written), "en:a", Changed) == Only(Changed);
  }

  lemma ThenChanged(run: seq<Event>)
    requires IsWarRun(run)
    ensures At(run, 3, 2, Only(Changed), Idle)
  {
    FirstWritten(run);
    Rulings.RunStep(Tuning, run, 2);
    Changing(Run(Tuning, run[..2]));
  }

  lemma OnlyOwner(w: Wiki, rev: string, key: string)
    requires rev != "" && key != "" && Holds(w, key, rev) && RecordAt(w, key).pages.versions[rev].entryKey == key
    requires forall k :: Holds(w, k, rev) ==> k == key
    ensures OwnerKey(w, rev) == key
  {
    assert key in Holders(w, rev);
  }

  lemma Challenging(s: State)
    requires Is(s, 2, Only(Changed), Idle)
    ensures Is(Step(Tuning, s, D1), 2, Only(Disputed), Challenged)
  {
    OnlyOwner(s.wiki, "a1", "en:a");
    ChallengeStep(s, 2, D1, "en:a");
    assert SetRecord(Only(Changed), "en:a", Disputed) == Only(Disputed);
  }

  lemma ThenChallenged(run: seq<Event>)
    requires IsWarRun(run)
    ensures At(run, 4, 2, Only(Disputed), Challenged)
  {
    ThenChanged(run);
    Rulings.RunStep(Tuning, run, 3);
    Challenging(Run(Tuning, run[..3]));
  }

  const OneOpen := SetProposal(Challenged, "p1", Proposed(Early1, "en:a"))
  const BothOpen := SetProposal(OneOpen, "p2", Proposed(Late2, "en:a"))

  lemma ProposingEarly(s: State)
    requires Is(s, 2, Only(Disputed), Challenged)
    ensures Is(Step(Tuning, s, Early1), 2, Only(Disputed), OneOpen)
  {
    ProposeStep(s, 2, Early1, "en:a");
  }

  lemma ThenProposed(run: seq<Event>)
    requires IsWarRun(run)
    ensures At(run, 5, 2, Only(Disputed), OneOpen)
  {
    ThenChallenged(run);
    Rulings.RunStep(Tuning, run, 4);
    ProposingEarly(Run(Tuning, run[..4]));
  }

  /** One revert is enough to freeze here. */
  lemma WarFreezes(s: State, head: string)
    requires s.rules == InForce
    ensures var g := War(Tuning, s, R1, 0, "en:a", head, Guard(Normal, "", "", [], []));
      g.status == Frozen && g.baselineRev == head
  {
    Settings();
    var booked: seq<RevertWeight> := [RevertWeight(0, "f", 1.0, false)];
    assert booked[..0] == [];
    assert TotalWeight(booked) == 1.0;
    var none: seq<RevertWeight> := [];
    assert none + booked == booked;
  }

  ghost predicate FrozenPage(r: Record) {
    r.key == "en:a" && r.guard.status == Frozen && r.guard.baselineRev == "a2"
    && r.pages.head == "r1::eq" && r.pages.history == ["a1", "a2", "r1::eq"]
  }

  lemma RevertOf(s: State) returns (r: Record)
    requires s.rules == InForce && s.wiki == Only(Disputed)
    ensures FrozenPage(r) && Revise(Tuning, s, Disputed, R1, 0, "en:a") == Accepted(r)
  {
    assert Disputed.pages.versions["a1"] == Version("h1", "f", "", "", "", "en:a", "");
    r := RevertPage(Tuning, s, Disputed, R1, 0, "en:a").record;
    WarFreezes(CountRev(Tuning, s, "f", "en:a", 0), "a2");
  }

  lemma Reverting(s: State) returns (r: Record)
    requires Is(s, 2, Only(Disputed), OneOpen)
    ensures FrozenPage(r) && Is(Step(Tuning, s, R1), 3, Only(r), OneOpen)
  {
    KeysOfRuns();
    r := RevertOf(s);
    assert s.(wiki := Only(Disputed)) == s;
    RevStep(s, 2, R1, "en:a", Only(Disputed), r);
    assert SetRecord(Only(Disputed), "en:a", r) == Only(r);
  }

  lemma ThenReverted(run: seq<Event>) returns (r: Record)
    requires IsWarRun(run)
    ensures FrozenPage(r) && At(run, 6, 3, Only(r), OneOpen)
  {
    ThenProposed(run);
    Rulings.RunStep(Tuning, run, 5);
    r := Reverting(Run(Tuning, run[..5]));
  }

  lemma ProposingLate(s: State, r: Record)
    requires FrozenPage(r) && Is(s, 3, Only(r), OneOpen)
    ensures Is(Step(Tuning, s, Late2), 3, Only(r), BothOpen)
  {
    ProposeStep(s, 3, Late2, "en:a");
  }

  lemma ThenProposedAgain(run: seq<Event>) returns (r: Record)
    requires IsWarRun(run)
    ensures FrozenPage(r) && At(run, 7, 3, Only(r), BothOpen)
  {
    r := ThenReverted(run);
    Rulings.RunStep(Tuning, run, 6);
    ProposingLate(Run(Tuning, run[..6]), r);
  }

  lemma ClosingTwo(r: Record, ps: map<string, Proposal>)
    requires FrozenPage(r) && ps == map["p1" := Proposed(Early1, "en:a"), "p2" := Proposed(Late2, "en:a")]
    ensures RecordAt(CloseIn(["p1", "p2"], ps, Only(r), 288), "en:a").pages.head == "r1::eq"
    ensures RecordAt(CloseIn(["p2", "p1"], ps, Only(r), 288), "en:a").pages.head == "a2"
  {
    assert ["p1", "p2"][..1] == ["p1"] && ["p2", "p1"][..1] == ["p2"];
    assert ["p1"][..0] == [] && ["p2"][..0] == [];
    assert CloseIn([], ps, Only(r), 288) == Only(r);
    assert CloseIn(["p1"], ps, Only(r), 288) == CloseOne(Only(r), ps["p1"], 288);
    assert CloseIn(["p2"], ps, Only(r), 288) == CloseOne(Only(r), ps["p2"], 288);
  }

  /** Whatever happens next at height 288 or later closes both proposals. Seen in
    * one order they leave the page at the revert, in the other at the change the
    * revert undid. */
  lemma ClosingOrderMatters()
    ensures Order.ChainPins(WarRun)
    ensures var s := Run(Tuning, WarRun);
      && Order.Lists(["p1", "p2"], s.court.proposals) && Order.Lists(["p2", "p1"], s.court.proposals)
      && RecordAt(s.wiki, "en:a").pages.history == ["a1", "a2", "r1::eq"]
      && RecordAt(CloseIn(["p1", "p2"], s.court.proposals, s.wiki, 288), "en:a").pages.head == "r1::eq"
      && RecordAt(CloseIn(["p2", "p1"], s.court.proposals, s.wiki, 288), "en:a").pages.head == "a2"
  {
    var run := WarRun;
    var r := ThenProposedAgain(run);
    assert run[..7] == run;
    WarPins();
    ShortPins(WarRun);
    TwoOpen(Run(Tuning, run), r);
  }

  lemma ShortPinsAreApart(a: string, b: string)
    requires |a| == |b| == 2 && a != b
    ensures Order.Apart(a, b)
  {
    assert |a + "::eq"| == |b + "::eq"| == 6 && |a + "::rev"| == |b + "::rev"| == 7;
  }

  lemma ShortPins(run: seq<Event>)
    requires Rulings.DistinctPins(run) && forall i :: 0 <= i < |run| ==> |run[i].pin| == 2
    ensures Order.ChainPins(run)
  {
    forall i, j | 0 <= i < j < |run|
      ensures Order.Apart(run[i].pin, run[j].pin)
    {
      ShortPinsAreApart(run[i].pin, run[j].pin);
    }
  }

  lemma WarPins()
    ensures Rulings.DistinctPins(WarRun) && forall i :: 0 <= i < |WarRun| ==> |WarRun[i].pin| == 2
  {
  }

  lemma TwoOpen(s: State, r: Record)
    requires FrozenPage(r)
    requires Is(s, 3, Only(r), BothOpen)
    ensures Order.Lists(["p1", "p2"], s.court.proposals) && Order.Lists(["p2", "p1"], s.court.proposals)
    ensures RecordAt(s.wiki, "en:a").pages.history == ["a1", "a2", "r1::eq"]
    ensures RecordAt(CloseIn(["p1", "p2"], s.court.proposals, s.wiki, 288), "en:a").pages.head == "r1::eq"
    ensures RecordAt(CloseIn(["p2", "p1"], s.court.proposals, s.wiki, 288), "en:a").pages.head == "a2"
  {
    assert s.court.proposals == map["p1" := Proposed(Early1, "en:a"), "p2" := Proposed(Late2, "en:a")];
    ClosingTwo(r, s.court.proposals);
  }

  // ---- A head that no one wrote ----

  const B1 := Event("b1", 0, 2, "f", Rev("en", "b", Create, "h2", ""))
  const ToFirst := Event("p1", 0, 4, "f", Propose("d1", "d1", "", RevertTo("a1")))
  const ToOther := Event("p2", 0, 5, "f", Propose("d1", "d1", "", TransferSlug("en:b", "en:a")))
  const V2 := Event("v2", 0, 6, "f", Vote("p2", true))
  const V1 := Event("v1", 0, 7, "f", Vote("p1", true))

  /** Two pages are written, the first is challenged, and two rulings about it are
    * proposed and voted into effect: its key is moved to the second page, then
    * it is reverted. */
  const MoveRun := [Opening, A1, B1, D1, ToFirst, ToOther, V2, V1]

  predicate IsMoveRun(run: seq<Event>) {
    && |run| == 8 && run[0] == Opening && run[1] == A1 && run[2] == B1 && run[3] == D1 && run[4] == ToFirst && run[5] == ToOther
    && run[6] == V2 && run[7] == V1
  }

  const Second := Created(B1, "en:b")
  const Marked := MarkDisputed(Written, "a1")

  function Both(a: Record, b: Record): Wiki {
    Wiki(map["en:a" := "en:a", "en:b" := "en:b"], map["en:a" := a, "en:b" := b], map[])
  }

  /** Both keys stand for the second record. */
  function Moved(b: Record): Wiki {
    Wiki(map["en:a" := "en:b", "en:b" := "en:b"], map["en:a" := Marked, "en:b" := b], map["en:b" := "a"])
  }

  lemma WritingSecond(s: State)
    requires Is(s, 1, Only(Written), Idle)
    ensures Is(Step(Tuning, s, B1), 2, Both(Written, Second), Idle)
  {
    assert KeyOfRev(B1.body) == "en:b";
    CreateStep(s, 1, B1, "en:b");
    assert Shelved(Only(Written), "en:b", Second) == Both(Written, Second);
  }

  lemma SecondWritten(run: seq<Event>)
    requires IsMoveRun(run)
    ensures At(run, 3, 2, Both(Written, Second), Idle)
  {
    FirstWritten(run);
    Rulings.RunStep(Tuning, run, 2);
    WritingSecond(Run(Tuning, run[..2]));
  }

  lemma MarkingFirst(s: State)
    requires Is(s, 2, Both(Written, Second), Idle)
    ensures Is(Step(Tuning, s, D1), 2, Both(Marked, Second), Challenged)
  {
    OnlyOwner(s.wiki, "a1", "en:a");
    ChallengeStep(s, 2, D1, "en:a");
    assert SetRecord(Both(Written, Second), "en:a", Marked) == Both(Marked, Second);
  }

  lemma FirstMarked(run: seq<Event>)
    requires IsMoveRun(run)
    ensures At(run, 4, 2, Both(Marked, Second), Challenged)
  {
    SecondWritten(run);
    Rulings.RunStep(Tuning, run, 3);
    MarkingFirst(Run(Tuning, run[..3]));
  }

  const OneCase := SetProposal(Challenged, "p1", Proposed(ToFirst, "en:a"))
  const TwoCases := SetProposal(OneCase, "p2", Proposed(ToOther, "en:a"))

  lemma ProposingRevert(s: State)
    requires Is(s, 2, Both(Marked, Second), Challenged)
    ensures Is(Step(Tuning, s, ToFirst), 2, Both(Marked, Second), OneCase)
  {
    ProposeStep(s, 2, ToFirst, "en:a");
  }

  lemma FirstProposed(run: seq<Event>)
    requires IsMoveRun(run)
    ensures At(run, 5, 2, Both(Marked, Second), OneCase)
  {
    FirstMarked(run);
    Rulings.RunStep(Tuning, run, 4);
    ProposingRevert(Run(Tuning, run[..4]));
  }

  lemma Proposing(s: State)
    requires Is(s, 2, Both(Marked, Second), OneCase)
    ensures Is(Step(Tuning, s, ToOther), 2, Both(Marked, Second), TwoCases)
  {
    ProposeStep(s, 2, ToOther, "en:a");
  }

  lemma SecondProposed(run: seq<Event>)
    requires IsMoveRun(run)
    ensures At(run, 6, 2, Both(Marked, Second), TwoCases)
  {
    FirstProposed(run);
    Rulings.RunStep(Tuning, run, 5);
    Proposing(Run(Tuning, run[..5]));
  }

  /** The key is moved and the first ruling is still open. */
  ghost predicate Astray(s: State) {
    Is(s, 2, Moved(Second), s.court) && "p1" in s.court.proposals && s.court.proposals["p1"] == Proposed(ToFirst, "en:a")
  }

  lemma Moving(s: State)
    requires Is(s, 2, Both(Marked, Second), TwoCases)
    ensures Astray(Step(Tuning, s, V2))
  {
    VoteStep(s, 2, V2, ToOther, "en:a");
    KeyMoves(Second);
  }

  lemma KeyMoves(b: Record)
    ensures Transfer(Both(Marked, b), "en:b", "en:a") == Moved(b)
  {
    assert "en:a"[1..] == "n:a" && "n:a"[1..] == ":a" && ":a"[1..] == "a";
  }

  lemma Reverted(s: State)
    requires Astray(s)
    ensures Misplaced(Step(Tuning, s, V1).wiki)
  {
    VoteStep(s, 2, V1, ToFirst, "en:a");
    RevertsOther(s.court.challenges);
  }

  lemma RevertsOther(challenges: map<string, Dispute>)
    ensures Misplaced(JudgeWiki(Moved(Second), Proposed(ToFirst, "en:a").fixed, challenges))
  {
  }

  predicate Misplaced(w: Wiki) {
    w.at == map["en:a" := "en:b", "en:b" := "en:b"] && Unwritten(RecordAt(w, "en:b"))
  }

  /** The page's head is the ruling's revision, with an empty hash. */
  predicate Unwritten(r: Record) {
    r.key == "en:b" && r.pages.head == "p1::rev" && "p1::rev" in r.pages.versions
    && r.pages.versions["p1::rev"].contentHash == "" && r.pages.history == ["b1", "p1::rev"]
  }

  lemma KeyMoved(run: seq<Event>)
    requires IsMoveRun(run)
    ensures Astray(Run(Tuning, run[..7]))
  {
    SecondProposed(run);
    Rulings.RunStep(Tuning, run, 6);
    Moving(Run(Tuning, run[..6]));
  }

  lemma BothVoted(run: seq<Event>)
    requires IsMoveRun(run)
    ensures Misplaced(Run(Tuning, run).wiki)
  {
    KeyMoved(run);
    Rulings.RunStep(Tuning, run, 7);
    Reverted(Run(Tuning, run[..7]));
    assert run[..8] == run;
  }

  /** A ruling about one page, in effect after that page's key was moved, ends up
    * in the other: its head is then a revision with the empty hash, which no
    * create or edit of the run carried. The other page still stands under its
    * own key. */
  lemma MovedKeyMisdirectsRuling()
    ensures Order.ChainPins(MoveRun)
    ensures var w := Run(Tuning, MoveRun).wiki; var p := RecordAt(w, "en:b").pages;
      && "en:b" in w.at && w.at["en:b"] == "en:b" == RecordAt(w, "en:b").key
      && p.head == "p1::rev" && p.head in p.versions && p.versions[p.head].contentHash == ""
      && (forall key :: !Entries.WrittenBy(MoveRun, key, ""))
      && !Entries.VersionsOk(p, "en:b", MoveRun)
  {
    BothVoted(MoveRun);
    MovePins();
    ShortPins(MoveRun);
    NoOneWroteNothing();
    Misdirected(RecordAt(Run(Tuning, MoveRun).wiki, "en:b"));
  }

  lemma MovePins()
    ensures Rulings.DistinctPins(MoveRun) && forall i :: 0 <= i < |MoveRun| ==> |MoveRun[i].pin| == 2
  {
  }

  lemma NoOneWroteNothing()
    ensures forall key :: !Entries.WrittenBy(MoveRun, key, "")
  {
  }

  lemma Misdirected(r: Record)
    requires Unwritten(r) && forall key :: !Entries.WrittenBy(MoveRun, key, "")
    ensures !Entries.VersionsOk(r.pages, "en:b", MoveRun)
  {
  }

  // ---- The order of pulling shows ----

  /** Another create of the page, at the place of the first. */
  const Twin := Event("a2", 0, 1, "f", Rev("en", "a", Create, "h2", ""))

  predicate CreatesPage(ev: Event) {
    ev.body.Rev? && ev.body.edit.Create? && KeyOfRev(ev.body) == "en:a" && ev.sender == "f" && ev.height == 0
  }

  predicate TwoCreates(run: seq<Event>) {
    && |run| == 3 && run[0] == Opening && CreatesPage(run[1]) && CreatesPage(run[2])
    && run[1].txIndex == run[2].txIndex == 1
  }

  lemma Refusing(s: State, r: Record, ev: Event)
    requires Is(s, 1, Only(r), Idle) && CreatesPage(ev)
    requires r.guard.status == Normal && r.pages.head != ""
    ensures Step(Tuning, s, ev) == Bury(s, ev.pin, DuplicateCreate)
  {
    NothingExpires(s, 1);
    Entries.DispatchIs(Tuning, s, ev);
    GatesOpen(s, 1, r);
    assert s.(wiki := Touch(s.wiki, "en:a")) == s;
  }

  lemma Creating(s: State, ev: Event)
    requires Is(s, 0, Blank, Idle) && CreatesPage(ev)
    ensures Is(Step(Tuning, s, ev), 1, Only(Created(ev, "en:a")), Idle)
  {
    CreateStep(s, 0, ev, "en:a");
    assert Shelved(Blank, "en:a", Created(ev, "en:a")) == Only(Created(ev, "en:a"));
  }

  lemma ThenCreated(run: seq<Event>)
    requires TwoCreates(run)
    ensures At(run, 2, 1, Only(Created(run[1], "en:a")), Idle)
  {
    ThenOpened(run);
    Rulings.RunStep(Tuning, run, 1);
    Creating(Run(Tuning, run[..1]), run[1]);
  }

  lemma ThenRefused(run: seq<Event>)
    requires TwoCreates(run) && run[1].pin != ""
    ensures Run(Tuning, run).wiki == Only(Created(run[1], "en:a")) && Run(Tuning, run).court == Idle
  {
    ThenCreated(run);
    Rulings.RunStep(Tuning, run, 2);
    Refusing(Run(Tuning, run[..2]), Created(run[1], "en:a"), run[2]);
    assert run[..3] == run;
  }

  lemma AlreadyInOrder(run: seq<Event>)
    requires TwoCreates(run)
    ensures Order.Stream(run) == run
  {
    SelectAll(Order.Confirmed, run);
    SortedStays(Order.ByChain, run);
  }

  lemma FirstCreateStands(run: seq<Event>)
    requires TwoCreates(run) && run[1].pin != ""
    ensures RecordAt(Order.Replayed(Tuning, run).wiki, "en:a").pages.head == run[1].pin
  {
    AlreadyInOrder(run);
    ThenRefused(run);
    var s := Run(Tuning, run);
    NothingCloses(CanonicalJson.SortedKeys(s.court.proposals.Keys), s.court.proposals, s.wiki, Order.LastHeight(run) + 1);
  }

  lemma TwoOrders(a: seq<Event>, b: seq<Event>)
    requires a == [Opening, A1, Twin] && b == [Opening, Twin, A1]
    ensures TwoCreates(a) && TwoCreates(b) && multiset(a) == multiset(b) && Rulings.DistinctPins(a)
  {
    KeysOfRuns();
    assert KeyOfRev(Twin.body) == "en:a";
  }

  /** Three events of which two create one page at one place, as two outputs of one
    * transaction do: whichever is pulled first stands and the other is refused. */
  lemma PullOrderMatters(a: seq<Event>, b: seq<Event>)
    requires a == [Opening, A1, Twin] && b == [Opening, Twin, A1]
    ensures multiset(a) == multiset(b) && Rulings.DistinctPins(a)
    ensures RecordAt(Order.Replayed(Tuning, a).wiki, "en:a").pages.head == "a1"
    ensures RecordAt(Order.Replayed(Tuning, b).wiki, "en:a").pages.head == "a2"
  {
    TwoOrders(a, b);
    FirstCreateStands(a);
    FirstCreateStands(b);
  }
}
