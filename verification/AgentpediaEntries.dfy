/** What a run keeps of its entries exactly when no slug transfer moves a key:
  * each key stands for its own record, whose head, history and versions stay
  * together.
  */
module AgentpediaEntries {
  import opened ChainEvents
  import opened Sorting
  import opened Agentpedia
  import CanonicalJson
  import Rulings = AgentpediaRulings

  // ---- What is kept ----

  /** Some create or edit of the entry `key` carried this hash. */
  ghost predicate WrittenBy(past: seq<Event>, key: string, hash: string) {
    exists i :: 0 <= i < |past| && Writes(past[i], key, hash)
  }

  predicate Writes(ev: Event, key: string, hash: string) {
    ev.body.Rev? && (ev.body.edit.Create? || ev.body.edit.Change?) && KeyOfRev(ev.body) == key
    && ev.body.contentHash == hash
  }

  ghost predicate VersionsOk(p: Pages, key: string, past: seq<Event>) {
    forall rev :: rev in p.versions ==>
      rev in p.history && p.versions[rev].entryKey == key && WrittenBy(past, key, p.versions[rev].contentHash)
  }

  /** The head is empty exactly when the history is, and is in it otherwise. */
  predicate HeadOk(p: Pages) {
    (p.head == "" <==> p.history == []) && (p.head != "" ==> p.head in p.history)
  }

  ghost predicate RecordOk(r: Record, key: string, past: seq<Event>) {
    r.key == key && HeadOk(r.pages) && VersionsOk(r.pages, key, past)
    && (r.guard.baselineRev != "" ==> r.guard.baselineRev in r.pages.history)
  }

  /** Every key stands for its own record. */
  ghost predicate WikiOk(w: Wiki, past: seq<Event>) {
    forall key :: key in w.at ==> w.at[key] == key && key in w.records && RecordOk(w.records[key], key, past)
  }

  /** What a proposal relies on in the record it is about. */
  predicate CaseOk(c: Case, w: Wiki) {
    c.entryKey in w.at
    && (c.baselineRev != "" ==> c.baselineRev in RecordAt(w, c.entryKey).pages.history)
    && (c.outcome.RevertTo? ==> c.outcome.rev in RecordAt(w, c.entryKey).pages.versions)
  }

  ghost predicate CourtFits(c: Court, w: Wiki) {
    (forall pin :: pin in c.proposals ==> CaseOk(c.proposals[pin].fixed, w))
    && forall pin :: pin in c.challenges ==> c.challenges[pin].entryKey in w.at
  }

  ghost predicate Inv(s: State, past: seq<Event>) {
    WikiOk(s.wiki, past) && CourtFits(s.court, s.wiki)
  }

  /** Nothing leaves a record's history or versions. */
  ghost predicate Grows(r: Record, q: Record) {
    (forall rev :: rev in r.pages.history ==> rev in q.pages.history)
    && forall rev :: rev in r.pages.versions ==> rev in q.pages.versions
  }

  ghost predicate WikiGrows(w: Wiki, v: Wiki) {
    forall key :: key in w.at ==> key in v.at && Grows(RecordAt(w, key), RecordAt(v, key))
  }

  lemma FitsLater(c: Court, w: Wiki, v: Wiki)
    requires CourtFits(c, w) && WikiGrows(w, v)
    ensures CourtFits(c, v)
  {
    forall pin | pin in c.proposals ensures CaseOk(c.proposals[pin].fixed, v) {
      assert CaseOk(c.proposals[pin].fixed, w);
    }
  }

  lemma OkLater(w: Wiki, past: seq<Event>, ev: Event)
    requires WikiOk(w, past)
    ensures WikiOk(w, past + [ev])
  {
    forall key | key in w.at ensures RecordOk(w.records[key], key, past + [ev]) {
      RecordOkLater(w.records[key], key, past, ev);
    }
  }

  lemma RecordOkLater(r: Record, key: string, past: seq<Event>, ev: Event)
    requires RecordOk(r, key, past)
    ensures RecordOk(r, key, past + [ev])
  {
    forall rev | rev in r.pages.versions ensures WrittenBy(past + [ev], key, r.pages.versions[rev].contentHash) {
      WrittenLater(past, key, r.pages.versions[rev].contentHash, ev);
    }
  }

  lemma WrittenLater(past: seq<Event>, key: string, hash: string, ev: Event)
    requires WrittenBy(past, key, hash)
    ensures WrittenBy(past + [ev], key, hash)
  {
    var i :| 0 <= i < |past| && Writes(past[i], key, hash);
    assert (past + [ev])[i] == past[i];
  }

  // ---- One record ----

  lemma SetRecordOk(w: Wiki, key: string, r: Record, past: seq<Event>)
    requires WikiOk(w, past) && key in w.at && RecordOk(r, key, past) && Grows(RecordAt(w, key), r)
    ensures WikiOk(SetRecord(w, key, r), past) && WikiGrows(w, SetRecord(w, key, r))
  {
  }

  lemma TouchOk(w: Wiki, key: string, past: seq<Event>)
    requires WikiOk(w, past)
    ensures WikiOk(Touch(w, key), past) && WikiGrows(w, Touch(w, key)) && key in Touch(w, key).at
  {
  }

  lemma ThawOk(r: Record, key: string, baselineRev: string, past: seq<Event>)
    requires RecordOk(r, key, past) && (baselineRev != "" ==> baselineRev in r.pages.history)
    ensures RecordOk(Thaw(r, baselineRev), key, past) && Grows(r, Thaw(r, baselineRev))
  {
  }

  lemma AddPageOk(p: Pages, rev: string, v: Version, key: string, past: seq<Event>)
    requires HeadOk(p) && VersionsOk(p, key, past) && rev != ""
    requires v.entryKey == key && WrittenBy(past, key, v.contentHash)
    ensures HeadOk(AddPage(p, rev, v)) && VersionsOk(AddPage(p, rev, v), key, past)
    ensures forall x :: x in p.history ==> x in AddPage(p, rev, v).history
    ensures forall x :: x in p.versions ==> x in AddPage(p, rev, v).versions
  {
  }

  lemma JudgedOk(r: Record, c: Case, challenges: map<string, Dispute>, past: seq<Event>)
    requires RecordOk(r, c.entryKey, past)
    requires c.outcome.RevertTo? ==> c.outcome.rev in r.pages.versions
    ensures RecordOk(JudgeRecord(r, c, challenges), c.entryKey, past) && Grows(r, JudgeRecord(r, c, challenges))
  {
    if c.outcome.RevertTo? {
      var v := Version(VersionAt(r.pages, c.outcome.rev).contentHash, c.proposer, r.pages.head, "", "", c.entryKey, c.pin);
      AddPageOk(r.pages, c.pin + "::rev", v, c.entryKey, past);
    }
  }

  // ---- Closing ----

  lemma CloseOneOk(w: Wiki, p: Proposal, h: int, past: seq<Event>)
    requires WikiOk(w, past) && CaseOk(p.fixed, w)
    ensures WikiOk(CloseOne(w, p, h), past) && WikiGrows(w, CloseOne(w, p, h))
  {
    var key := p.fixed.entryKey;
    ThawOk(RecordAt(w, key), key, p.fixed.baselineRev, past);
    SetRecordOk(w, key, Thaw(RecordAt(w, key), p.fixed.baselineRev), past);
  }

  lemma {:induction false} CloseInOk(order: seq<string>, c: Court, w: Wiki, h: int, past: seq<Event>)
    requires WikiOk(w, past) && CourtFits(c, w)
    ensures WikiOk(CloseIn(order, c.proposals, w, h), past) && WikiGrows(w, CloseIn(order, c.proposals, w, h))
  {
    if order != [] {
      var pin, before := order[|order| - 1], CloseIn(order[..|order| - 1], c.proposals, w, h);
      CloseInOk(order[..|order| - 1], c, w, h, past);
      if pin in c.proposals {
        NextCloseOk(pin, c, w, before, h, past);
      }
    }
  }

  lemma NextCloseOk(pin: string, c: Court, w: Wiki, before: Wiki, h: int, past: seq<Event>)
    requires CourtFits(c, w) && WikiOk(before, past) && WikiGrows(w, before) && pin in c.proposals
    ensures var v := CloseOne(before, c.proposals[pin], h); WikiOk(v, past) && WikiGrows(w, v)
  {
    FitsLater(c, w, before);
    CloseOneOk(before, c.proposals[pin], h, past);
  }

  lemma ClosingKeepsInv(s: State, h: int, past: seq<Event>)
    requires Inv(s, past)
    ensures Inv(CloseExpired(s, h), past)
  {
    var t := CloseExpired(s, h);
    CloseInOk(CanonicalJson.SortedKeys(s.court.proposals.Keys), s.court, s.wiki, h, past);
    FitsLater(s.court, s.wiki, t.wiki);
    forall pin | pin in t.court.proposals ensures CaseOk(t.court.proposals[pin].fixed, t.wiki) {
      assert CaseOk(s.court.proposals[pin].fixed, t.wiki);
    }
  }

  // ---- Rulings ----

  lemma ProposeKeepsInv(o: Options, s: State, ev: Event, past: seq<Event>)
    requires Inv(s, past) && ev.body.Propose?
    ensures Inv(ApplyPropose(o, s, ev, ev.height), past)
  {
    var b := ev.body;
    if b.challengePin in s.court.challenges {
      var key := s.court.challenges[b.challengePin].entryKey;
      assert RecordOk(RecordAt(s.wiki, key), key, past);
    }
  }

  /** A ruling that makes a key stand for a record it did not stand for. */
  predicate Moves(w: Wiki, c: Case) {
    c.outcome.TransferSlug? && c.entryKey != "" && MovesKey(w, c.outcome.fromEntry, c.outcome.toEntry)
  }

  predicate MovesKey(w: Wiki, fromEntry: string, toEntry: string) {
    fromEntry in w.at && (toEntry !in w.at || w.at[toEntry] != w.at[fromEntry])
  }

  lemma JudgedWikiOk(w: Wiki, c: Case, challenges: map<string, Dispute>, past: seq<Event>)
    requires WikiOk(w, past) && CaseOk(c, w) && !Moves(w, c)
    ensures WikiOk(JudgeWiki(w, c, challenges), past) && WikiGrows(w, JudgeWiki(w, c, challenges))
  {
    if c.outcome.TransferSlug? {
      var v := JudgeWiki(w, c, challenges);
      assert v.at == w.at && v.records == w.records;
    } else {
      JudgedOk(RecordAt(w, c.entryKey), c, challenges, past);
      SetRecordOk(w, c.entryKey, JudgeRecord(RecordAt(w, c.entryKey), c, challenges), past);
    }
  }

  lemma OutcomeKeepsInv(s: State, pin: string, p: Proposal, past: seq<Event>)
    requires Inv(s, past) && CaseOk(p.fixed, s.wiki) && !Moves(s.wiki, p.fixed)
    ensures Inv(ApplyOutcome(s, pin, p), past)
  {
    var w := JudgeWiki(s.wiki, p.fixed, s.court.challenges);
    JudgedWikiOk(s.wiki, p.fixed, s.court.challenges, past);
    var c := SetProposal(s.court, pin, p.(state := Effective));
    assert CourtFits(c, s.wiki);
    FitsLater(c, s.wiki, w);
  }

  /** The vote puts a ruling into effect that moves a key. */
  predicate MovedBy(s: State, t: State, ev: Event) {
    && ev.body.Vote? && ev.body.proposalPin in s.court.proposals && ev.body.proposalPin in t.court.proposals
    && s.court.proposals[ev.body.proposalPin].state == Open
    && t.court.proposals[ev.body.proposalPin].state == Effective
    && Moves(s.wiki, s.court.proposals[ev.body.proposalPin].fixed)
  }

  lemma VoteKeepsInv(s: State, ev: Event, past: seq<Event>)
    requires Inv(s, past) && ev.body.Vote? && !MovedBy(s, ApplyVote(s, ev, ev.height), ev)
    ensures Inv(ApplyVote(s, ev, ev.height), past)
  {
    var pin := ev.body.proposalPin;
    if pin in s.court.proposals {
      var q := Ballot(s.court.proposals[pin], ev.sender, ev.body.approve);
      assert CaseOk(s.court.proposals[pin].fixed, s.wiki);
      if ApplyVote(s, ev, ev.height) == ApplyOutcome(s, pin, q) {
        assert ApplyOutcome(s, pin, q).court.proposals[pin].state == Effective;
        OutcomeKeepsInv(s, pin, q, past);
      }
    }
  }

  // ---- Revisions ----

  lemma WritesNow(past: seq<Event>, ev: Event)
    requires ev.body.Rev? && (ev.body.edit.Create? || ev.body.edit.Change?)
    ensures WrittenBy(past + [ev], KeyOfRev(ev.body), ev.body.contentHash)
  {
    assert (past + [ev])[|past|] == ev;
  }

  /** An accepted revision leaves a sound record that has lost nothing. */
  lemma RevisedOk(o: Options, s: State, r: Record, ev: Event, h: int, past: seq<Event>)
    requires ev.body.Rev? && ev.pin != "" && RecordOk(r, KeyOfRev(ev.body), past + [ev])
    ensures var key := KeyOfRev(ev.body); var revised := Revise(o, s, r, ev, h, key);
      revised.Accepted? ==> RecordOk(revised.record, key, past + [ev]) && Grows(r, revised.record)
  {
    var key := KeyOfRev(ev.body);
    match ev.body.edit
    case Create =>
      WritesNow(past, ev);
      CreatedOk(r, ev, key, past + [ev]);
    case Change(_, _) =>
      WritesNow(past, ev);
      ChangedOk(r, ev, key, past + [ev]);
    case Revert(_, _) => RevertedOk(o, s, r, ev, h, key, past + [ev]);
    case Redirect(_) => RedirectedOk(s, r, ev, key, past + [ev]);
    case UnknownEdit =>
  }

  lemma CreatedOk(r: Record, ev: Event, key: string, past: seq<Event>)
    requires ev.body.Rev? && ev.pin != "" && RecordOk(r, key, past) && WrittenBy(past, key, ev.body.contentHash)
    ensures var revised := CreatePage(r, ev, key);
      revised.Accepted? ==> RecordOk(revised.record, key, past) && Grows(r, revised.record)
  {
    AddPageOk(r.pages, ev.pin, Version(ev.body.contentHash, ev.sender, "", "", ev.body.summary, key, ""), key, past);
  }

  lemma ChangedOk(r: Record, ev: Event, key: string, past: seq<Event>)
    requires ev.body.Rev? && ev.body.edit.Change? && ev.pin != ""
    requires RecordOk(r, key, past) && WrittenBy(past, key, ev.body.contentHash)
    ensures var revised := ChangePage(r, ev, key);
      revised.Accepted? ==> RecordOk(revised.record, key, past) && Grows(r, revised.record)
  {
    var revised := ChangePage(r, ev, key);
    if revised.Accepted? {
      var e := ev.body.edit;
      var v := Version(ev.body.contentHash, ev.sender, e.parentRev, e.basedOn, ev.body.summary, key, "");
      var p := r.pages.(contests := revised.record.pages.contests);
      AddPageOk(p, ev.pin, v, key, past);
      assert revised.record.pages == AddPage(p, ev.pin, v);
    }
  }

  lemma WarKeepsBaseline(o: Options, s: State, ev: Event, h: int, key: string, head: string, g: Guard)
    requires ev.body.Rev? && ev.body.edit.Revert?
    ensures var war := War(o, s, ev, h, key, head, g); war.baselineRev == g.baselineRev || war.baselineRev == head
  {
  }

  lemma RevertedOk(o: Options, s: State, r: Record, ev: Event, h: int, key: string, past: seq<Event>)
    requires ev.body.Rev? && ev.body.edit.Revert? && RecordOk(r, key, past)
    ensures var revised := RevertPage(o, s, r, ev, h, key);
      revised.Accepted? ==> RecordOk(revised.record, key, past) && Grows(r, revised.record)
  {
    var revised, p := RevertPage(o, s, r, ev, h, key), r.pages;
    if revised.Accepted? {
      var v := Version(p.versions[ev.body.edit.revertTo].contentHash, ev.sender, p.head, "", "", key, ev.pin);
      AddPageOk(p, ev.pin + "::eq", v, key, past);
      WarKeepsBaseline(o, CountRev(o, s, ev.sender, r.key, h), ev, h, key, p.head, r.guard);
      assert revised.record.pages == AddPage(p, ev.pin + "::eq", v);
    }
  }

  lemma RedirectedOk(s: State, r: Record, ev: Event, key: string, past: seq<Event>)
    requires ev.body.Rev? && ev.body.edit.Redirect? && ev.pin != "" && RecordOk(r, key, past)
    ensures var revised := RedirectPage(s, r, ev);
      revised.Accepted? ==> RecordOk(revised.record, key, past) && Grows(r, revised.record)
  {
  }

  lemma RevKeepsInv(o: Options, s: State, ev: Event, past: seq<Event>)
    requires Inv(s, past) && ev.body.Rev? && ev.pin != ""
    ensures Inv(ApplyRev(o, s, ev, ev.height), past + [ev])
  {
    var key := KeyOfRev(ev.body);
    var t := s.(wiki := Touch(s.wiki, key));
    TouchOk(s.wiki, key, past);
    FitsLater(s.court, s.wiki, t.wiki);
    OkLater(t.wiki, past, ev);
    var r := RecordAt(t.wiki, key);
    RevisedOk(o, t, r, ev, ev.height, past);
    var revised := Revise(o, t, r, ev, ev.height, key);
    if revised.Accepted? {
      SetRecordOk(t.wiki, key, revised.record, past + [ev]);
      FitsLater(s.court, t.wiki, SetRecord(t.wiki, key, revised.record));
    }
    RevWiki(o, s, ev);
  }

  /** What a revision does to the wiki. */
  lemma RevWiki(o: Options, s: State, ev: Event)
    requires ev.body.Rev?
    ensures var key := KeyOfRev(ev.body); var t := s.(wiki := Touch(s.wiki, key));
      var revised := Revise(o, t, RecordAt(t.wiki, key), ev, ev.height, key);
      var u := ApplyRev(o, s, ev, ev.height);
      u.court == s.court
      && (u.wiki == t.wiki || (revised.Accepted? && u.wiki == SetRecord(t.wiki, key, revised.record)))
  {
  }

  // ---- Challenges ----

  lemma OwnerIsAKey(w: Wiki, rev: string)
    ensures OwnerKey(w, rev) != "" ==> Holds(w, OwnerKey(w, rev), rev)
  {
    var keys := Holders(w, rev);
    if rev != "" && keys != {} {
      var sorted := CanonicalJson.SortedKeys(keys);
      var k :| k in keys;
      assert k in sorted;
      assert sorted[0] in sorted;
    }
  }

  lemma MarkedOk(r: Record, key: string, rev: string, past: seq<Event>)
    requires RecordOk(r, key, past)
    ensures RecordOk(MarkDisputed(r, rev), key, past) && Grows(r, MarkDisputed(r, rev))
  {
  }

  lemma NewChallengeFits(c: Court, w: Wiki, pin: string, d: Dispute)
    requires CourtFits(c, w) && d.entryKey in w.at
    ensures CourtFits(c.(challenges := c.challenges[pin := d]), w)
  {
  }

  lemma MarkKeepsInv(s: State, key: string, rev: string, past: seq<Event>)
    requires Inv(s, past) && key in s.wiki.at
    ensures var w := SetRecord(s.wiki, key, MarkDisputed(RecordAt(s.wiki, key), rev));
      WikiOk(w, past) && CourtFits(s.court, w) && key in w.at
  {
    var r := RecordAt(s.wiki, key);
    MarkedOk(r, key, rev, past);
    SetRecordOk(s.wiki, key, MarkDisputed(r, rev), past);
    FitsLater(s.court, s.wiki, SetRecord(s.wiki, key, MarkDisputed(r, rev)));
  }

  /** What a challenge does, if anything. */
  lemma Challenged(o: Options, s: State, ev: Event)
    requires ev.body.ChallengeBody?
    ensures var key := OwnerKey(s.wiki, ev.body.targetRev); var t := ApplyChallenge(o, s, ev);
      (t.wiki == s.wiki && t.court == s.court)
      || (key != ""
          && t.wiki == SetRecord(s.wiki, key, MarkDisputed(RecordAt(s.wiki, key), ev.body.targetRev))
          && t.court == s.court.(challenges :=
               s.court.challenges[ev.pin := Dispute(ev.body.targetRev, ev.sender, key)]))
  {
  }

  lemma ChallengeKeepsInv(o: Options, s: State, ev: Event, past: seq<Event>)
    requires Inv(s, past) && ev.body.ChallengeBody?
    ensures Inv(ApplyChallenge(o, s, ev), past)
  {
    var rev := ev.body.targetRev;
    var key := OwnerKey(s.wiki, rev);
    OwnerIsAKey(s.wiki, rev);
    Challenged(o, s, ev);
    if key != "" {
      MarkKeepsInv(s, key, rev, past);
      NewChallengeFits(s.court, SetRecord(s.wiki, key, MarkDisputed(RecordAt(s.wiki, key), rev)), ev.pin,
                       Dispute(rev, ev.sender, key));
    }
  }

  // ---- One event and whole runs ----

  lemma OthersKeepWiki(o: Options, s: State, ev: Event)
    requires !ev.body.Propose? && !ev.body.Vote? && !ev.body.Rev? && !ev.body.ChallengeBody?
    ensures Dispatch(o, s, ev).wiki == s.wiki
    ensures Dispatch(o, s, ev).court.proposals == s.court.proposals
    ensures Dispatch(o, s, ev).court.challenges == s.court.challenges
  {
    if ev.body.Editing? {
      EditorKeepsWiki(o, s, ev, ev.height);
    }
  }

  lemma EditorKeepsWiki(o: Options, s: State, ev: Event, h: int)
    requires ev.body.Editing?
    ensures ApplyEditor(o, s, ev, h).wiki == s.wiki && ApplyEditor(o, s, ev, h).court == s.court
  {
  }

  lemma InvLater(s: State, past: seq<Event>, ev: Event)
    requires Inv(s, past)
    ensures Inv(s, past + [ev])
  {
    OkLater(s.wiki, past, ev);
  }

  lemma DispatchKeepsInv(o: Options, s: State, ev: Event, past: seq<Event>)
    requires Inv(s, past) && ev.pin != "" && !MovedBy(s, Dispatch(o, s, ev), ev)
    ensures Inv(Dispatch(o, s, ev), past + [ev])
  {
    InvLater(s, past, ev);
    if !ev.body.Propose? && !ev.body.Vote? && !ev.body.Rev? && !ev.body.ChallengeBody? {
      OthersKeepWiki(o, s, ev);
    } else if s.rules.params.Some? {
      DispatchIs(o, s, ev);
      if ev.body.Propose? {
        ProposeKeepsInv(o, s, ev, past);
        InvLater(ApplyPropose(o, s, ev, ev.height), past, ev);
      } else if ev.body.Vote? {
        VoteKeepsInv(s, ev, past);
        InvLater(ApplyVote(s, ev, ev.height), past, ev);
      } else if ev.body.Rev? {
        RevKeepsInv(o, s, ev, past);
      } else {
        ChallengeKeepsInv(o, s, ev, past);
        InvLater(ApplyChallenge(o, s, ev), past, ev);
      }
    }
  }

  lemma DispatchIs(o: Options, s: State, ev: Event)
    requires s.rules.params.Some?
    ensures ev.body.Propose? ==> Dispatch(o, s, ev) == ApplyPropose(o, s, ev, ev.height)
    ensures ev.body.Vote? ==> Dispatch(o, s, ev) == ApplyVote(s, ev, ev.height)
    ensures ev.body.Rev? ==> Dispatch(o, s, ev) == ApplyRev(o, s, ev, ev.height)
    ensures ev.body.ChallengeBody? ==> Dispatch(o, s, ev) == ApplyChallenge(o, s, ev)
  {
  }

  /** After expired proposals are closed, the event moves a key. */
  ghost predicate MovesAKey(o: Options, s: State, ev: Event) {
    MovedBy(CloseExpired(s, ev.height), Step(o, s, ev), ev)
  }

  lemma StepKeepsInv(o: Options, s: State, ev: Event, past: seq<Event>)
    requires Inv(s, past) && ev.pin != "" && !MovesAKey(o, s, ev)
    ensures Inv(Step(o, s, ev), past + [ev])
  {
    ClosingKeepsInv(s, ev.height, past);
    DispatchKeepsInv(o, CloseExpired(s, ev.height), ev, past);
  }

  ghost function After(o: Options, events: seq<Event>, n: nat): State
    requires n <= |events|
  {
    Run(o, events[..n])
  }

  /** The `n`-th event of the run moves a key. */
  ghost predicate MovesAt(o: Options, events: seq<Event>, n: nat) {
    n < |events| && MovesAKey(o, After(o, events, n), events[n])
  }

  /** No event of the run moves a key. */
  ghost predicate NoMoves(o: Options, events: seq<Event>) {
    forall n: nat :: !MovesAt(o, events, n)
  }

  lemma NextKeepsInv(o: Options, events: seq<Event>, n: nat)
    requires n < |events| && events[n].pin != "" && !MovesAt(o, events, n)
    requires Inv(After(o, events, n), events[..n])
    ensures Inv(After(o, events, n + 1), events[..n + 1])
  {
    Rulings.RunStep(o, events, n);
    StepKeepsInv(o, After(o, events, n), events[n], events[..n]);
    assert events[..n + 1] == events[..n] + [events[n]];
  }

  lemma {:induction false} RunKeepsInv(o: Options, events: seq<Event>, n: nat)
    requires n <= |events| && NoMoves(o, events)
    requires forall i :: 0 <= i < |events| ==> events[i].pin != ""
    ensures Inv(After(o, events, n), events[..n])
  {
    if n > 0 {
      RunKeepsInv(o, events, n - 1);
      NextKeepsInv(o, events, n - 1);
    }
  }

  /** Every key stands for its own record, whose head is empty exactly when its
    * history is, and is otherwise in it; so are all its versions and the
    * baseline of its last freeze; and every version carries the hash of some
    * create or edit of the same entry. */
  ghost predicate Together(w: Wiki, past: seq<Event>) {
    forall key :: key in w.at ==> RecordOk(RecordAt(w, key), key, past)
  }

  lemma EntriesHoldTogether(o: Options, events: seq<Event>, h: int)
    requires NoMoves(o, events) && forall i :: 0 <= i < |events| ==> events[i].pin != ""
    ensures Together(CloseExpired(Run(o, events), h).wiki, events)
  {
    assert events[..|events|] == events;
    RunKeepsInv(o, events, |events|);
    ClosingKeepsInv(Run(o, events), h, events);
  }

  // ---- A moved key is never set right ----

  /** Keys stand for records that are there, under their own names. */
  ghost predicate Keyed(w: Wiki) {
    (forall key :: key in w.at ==> w.at[key] in w.records) && forall id :: id in w.records ==> w.records[id].key == id
  }

  /** Some key stands for another entry's record. */
  ghost predicate Displaced(w: Wiki) {
    exists key :: key in w.at && w.at[key] != key
  }

  /** What stays so from one wiki to a later one. */
  ghost predicate Goes(w: Wiki, v: Wiki) {
    (Keyed(w) ==> Keyed(v)) && (Displaced(w) ==> Displaced(v))
  }

  lemma SetKeyed(w: Wiki, key: string, r: Record)
    requires r.key == RecordAt(w, key).key
    ensures Goes(w, SetRecord(w, key, r)) && SetRecord(w, key, r).at == w.at
  {
    var v := SetRecord(w, key, r);
    assert Displaced(w) ==> Displaced(v);
  }

  lemma TouchKeyed(w: Wiki, key: string)
    ensures Goes(w, Touch(w, key))
  {
    if k :| k in w.at && w.at[k] != k {
      assert k in Touch(w, key).at && Touch(w, key).at[k] != k;
    }
  }

  lemma TransferKeyed(w: Wiki, fromEntry: string, toEntry: string)
    requires Keyed(w)
    ensures Goes(w, Transfer(w, fromEntry, toEntry))
    ensures MovesKey(w, fromEntry, toEntry) ==> Displaced(Transfer(w, fromEntry, toEntry))
  {
    var v := Transfer(w, fromEntry, toEntry);
    if fromEntry in w.at && fromEntry != toEntry {
      assert v.at[toEntry] != toEntry || v.at[fromEntry] != fromEntry;
    }
    if k :| k in w.at && w.at[k] != k && k != toEntry {
      assert v.at[k] != k;
    }
  }

  lemma JudgingGoes(w: Wiki, c: Case, challenges: map<string, Dispute>)
    requires Keyed(w)
    ensures Goes(w, JudgeWiki(w, c, challenges)) && (Moves(w, c) ==> Displaced(JudgeWiki(w, c, challenges)))
  {
    if c.outcome.TransferSlug? {
      TransferKeyed(w, c.outcome.fromEntry, c.outcome.toEntry);
    } else {
      var r := RecordAt(w, c.entryKey);
      assert JudgeRecord(r, c, challenges).key == r.key;
      SetKeyed(w, c.entryKey, JudgeRecord(r, c, challenges));
    }
  }

  lemma {:induction false} ClosingGoes(order: seq<string>, ps: map<string, Proposal>, w: Wiki, h: int)
    ensures Goes(w, CloseIn(order, ps, w, h)) && CloseIn(order, ps, w, h).at == w.at
  {
    if order != [] {
      var pin, before := order[|order| - 1], CloseIn(order[..|order| - 1], ps, w, h);
      ClosingGoes(order[..|order| - 1], ps, w, h);
      if pin in ps {
        var key := ps[pin].fixed.entryKey;
        SetKeyed(before, key, Thaw(RecordAt(before, key), ps[pin].fixed.baselineRev));
      }
    }
  }

  lemma VoteGoes(s: State, ev: Event)
    requires ev.body.Vote? && Keyed(s.wiki)
    ensures Goes(s.wiki, ApplyVote(s, ev, ev.height).wiki)
    ensures MovedBy(s, ApplyVote(s, ev, ev.height), ev) ==> Displaced(ApplyVote(s, ev, ev.height).wiki)
  {
    if ev.body.proposalPin in s.court.proposals {
      JudgingGoes(s.wiki, s.court.proposals[ev.body.proposalPin].fixed, s.court.challenges);
    }
    VoteIs(s, ev);
  }

  /** A vote changes the wiki by the ruling it puts into effect, or not at all. */
  lemma VoteIs(s: State, ev: Event)
    requires ev.body.Vote?
    ensures var t := ApplyVote(s, ev, ev.height); var pin := ev.body.proposalPin;
      if pin in s.court.proposals && pin in t.court.proposals
         && s.court.proposals[pin].state == Open && t.court.proposals[pin].state == Effective
      then t.wiki == JudgeWiki(s.wiki, s.court.proposals[pin].fixed, s.court.challenges)
      else t.wiki == s.wiki
  {
  }

  lemma RevisedKey(o: Options, s: State, r: Record, ev: Event, h: int, key: string)
    requires ev.body.Rev?
    ensures Revise(o, s, r, ev, h, key).Accepted? ==> Revise(o, s, r, ev, h, key).record.key == r.key
  {
  }

  lemma RevGoes(o: Options, s: State, ev: Event)
    requires ev.body.Rev?
    ensures Goes(s.wiki, ApplyRev(o, s, ev, ev.height).wiki)
  {
    var key := KeyOfRev(ev.body);
    var t := s.(wiki := Touch(s.wiki, key));
    TouchKeyed(s.wiki, key);
    RevWiki(o, s, ev);
    RevisedKey(o, t, RecordAt(t.wiki, key), ev, ev.height, key);
    var revised := Revise(o, t, RecordAt(t.wiki, key), ev, ev.height, key);
    if revised.Accepted? {
      SetKeyed(t.wiki, key, revised.record);
    }
  }

  lemma ChallengeGoes(o: Options, s: State, ev: Event)
    requires ev.body.ChallengeBody?
    ensures Goes(s.wiki, ApplyChallenge(o, s, ev).wiki)
  {
    var key := OwnerKey(s.wiki, ev.body.targetRev);
    Challenged(o, s, ev);
    SetKeyed(s.wiki, key, MarkDisputed(RecordAt(s.wiki, key), ev.body.targetRev));
  }

  lemma TooEarly(o: Options, s: State, ev: Event)
    requires s.rules.params == None && !ev.body.Genesis?
    ensures Dispatch(o, s, ev).wiki == s.wiki && Dispatch(o, s, ev).court == s.court
  {
  }

  lemma DispatchGoes(o: Options, s: State, ev: Event)
    requires Keyed(s.wiki)
    ensures Goes(s.wiki, Dispatch(o, s, ev).wiki)
    ensures MovedBy(s, Dispatch(o, s, ev), ev) ==> Displaced(Dispatch(o, s, ev).wiki)
  {
    if !ev.body.Propose? && !ev.body.Vote? && !ev.body.Rev? && !ev.body.ChallengeBody? {
      OthersKeepWiki(o, s, ev);
    } else if s.rules.params == None {
      TooEarly(o, s, ev);
    } else {
      DispatchIs(o, s, ev);
      if ev.body.Vote? {
        VoteGoes(s, ev);
      } else if ev.body.Rev? {
        RevGoes(o, s, ev);
      } else if ev.body.ChallengeBody? {
        ChallengeGoes(o, s, ev);
      }
    }
  }

  lemma StepGoes(o: Options, s: State, ev: Event)
    requires Keyed(s.wiki)
    ensures Goes(s.wiki, Step(o, s, ev).wiki)
    ensures MovesAKey(o, s, ev) ==> Displaced(Step(o, s, ev).wiki)
  {
    ClosingGoes(CanonicalJson.SortedKeys(s.court.proposals.Keys), s.court.proposals, s.wiki, ev.height);
    DispatchGoes(o, CloseExpired(s, ev.height), ev);
  }

  lemma NextGoes(o: Options, events: seq<Event>, n: nat)
    requires n < |events| && Keyed(After(o, events, n).wiki)
    ensures Goes(After(o, events, n).wiki, After(o, events, n + 1).wiki)
    ensures MovesAt(o, events, n) ==> Displaced(After(o, events, n + 1).wiki)
  {
    Rulings.RunStep(o, events, n);
    StepGoes(o, After(o, events, n), events[n]);
  }

  lemma {:induction false} RunKeepsKeyed(o: Options, events: seq<Event>, n: nat)
    requires n <= |events|
    ensures Keyed(After(o, events, n).wiki)
  {
    if n > 0 {
      RunKeepsKeyed(o, events, n - 1);
      NextGoes(o, events, n - 1);
    }
  }

  ghost predicate DisplacedAt(o: Options, events: seq<Event>, n: nat) {
    n <= |events| && Displaced(After(o, events, n).wiki)
  }

  lemma MovedDisplaces(o: Options, events: seq<Event>, n: nat)
    requires MovesAt(o, events, n)
    ensures DisplacedAt(o, events, n + 1)
  {
    RunKeepsKeyed(o, events, n);
    NextGoes(o, events, n);
  }

  lemma StaysDisplaced(o: Options, events: seq<Event>, n: nat)
    requires n < |events| && DisplacedAt(o, events, n)
    ensures DisplacedAt(o, events, n + 1)
  {
    RunKeepsKeyed(o, events, n);
    NextGoes(o, events, n);
  }

  /** Once some key stands for another entry's record, some key does for good. */
  lemma {:induction false} DisplacedForGood(o: Options, events: seq<Event>, m: nat, n: nat)
    requires m <= n <= |events| && DisplacedAt(o, events, m)
    ensures DisplacedAt(o, events, n)
  {
    if m < n {
      DisplacedForGood(o, events, m, n - 1);
      StaysDisplaced(o, events, n - 1);
    }
  }

  /** Some key of a displaced wiki shows another entry's record. */
  lemma DisplacedIsNotTogether(w: Wiki, past: seq<Event>)
    requires Keyed(w) && Displaced(w)
    ensures !Together(w, past)
  {
    var key :| key in w.at && w.at[key] != key;
    assert RecordAt(w, key).key == w.at[key];
  }

  /** Entries hold together after a run, and the closing that ends it, exactly when
    * no vote of the run put a transfer into effect whose source is an entry that
    * the target key did not already stand for. */
  lemma TogetherIffNoMoves(o: Options, events: seq<Event>, h: int)
    requires forall i :: 0 <= i < |events| ==> events[i].pin != ""
    ensures Together(CloseExpired(Run(o, events), h).wiki, events) <==> NoMoves(o, events)
  {
    if NoMoves(o, events) {
      EntriesHoldTogether(o, events, h);
    } else {
      var s := Run(o, events);
      assert events[..|events|] == events;
      var m: nat :| MovesAt(o, events, m);
      MovedDisplaces(o, events, m);
      DisplacedForGood(o, events, m + 1, |events|);
      RunKeepsKeyed(o, events, |events|);
      ClosingGoes(CanonicalJson.SortedKeys(s.court.proposals.Keys), s.court.proposals, s.wiki, h);
      DisplacedIsNotTogether(CloseExpired(s, h).wiki, events);
    }
  }
}
