/** What a moved key can break in the pages themselves: their heads, histories,
  * baselines and content hashes, whatever key they show under. Two kinds of
  * ruling break them, and nothing else does.
  */
module AgentpediaPages {
  import opened ChainEvents
  import opened Agentpedia
  import CanonicalJson
  import Rulings = AgentpediaRulings
  import Entries = AgentpediaEntries
  import Order = AgentpediaOrder

  // ---- Pages in order ----

  /** Some create or edit carried this hash. */
  ghost predicate Written(past: seq<Event>, hash: string) {
    exists i :: 0 <= i < |past| && Carries(past[i], hash)
  }

  predicate Carries(ev: Event, hash: string) {
    ev.body.Rev? && (ev.body.edit.Create? || ev.body.edit.Change?) && ev.body.contentHash == hash
  }

  ghost predicate VersionsWritten(p: Pages, past: seq<Event>) {
    forall rev :: rev in p.versions ==> rev in p.history && Written(past, p.versions[rev].contentHash)
  }

  ghost predicate PageOk(r: Record, past: seq<Event>) {
    Entries.HeadOk(r.pages) && VersionsWritten(r.pages, past)
    && (r.guard.baselineRev != "" ==> r.guard.baselineRev in r.pages.history)
  }

  ghost predicate PagesOk(w: Wiki, past: seq<Event>) {
    forall id :: id in w.records ==> PageOk(w.records[id], past)
  }

  lemma WrittenLater(past: seq<Event>, hash: string, ev: Event)
    requires Written(past, hash)
    ensures Written(past + [ev], hash)
  {
    var i :| 0 <= i < |past| && Carries(past[i], hash);
    assert (past + [ev])[i] == past[i];
  }

  lemma OkLater(w: Wiki, past: seq<Event>, ev: Event)
    requires PagesOk(w, past)
    ensures PagesOk(w, past + [ev])
  {
    forall id, rev | id in w.records && rev in w.records[id].pages.versions
      ensures Written(past + [ev], w.records[id].pages.versions[rev].contentHash)
    {
      WrittenLater(past, w.records[id].pages.versions[rev].contentHash, ev);
    }
  }

  lemma AddPageOk(p: Pages, rev: string, v: Version, past: seq<Event>)
    requires Entries.HeadOk(p) && VersionsWritten(p, past) && rev != "" && Written(past, v.contentHash)
    ensures Entries.HeadOk(AddPage(p, rev, v)) && VersionsWritten(AddPage(p, rev, v), past)
    ensures forall x :: x in p.history ==> x in AddPage(p, rev, v).history
  {
  }

  // ---- Revisions and challenges ----

  lemma WritesNow(past: seq<Event>, ev: Event)
    requires ev.body.Rev? && (ev.body.edit.Create? || ev.body.edit.Change?)
    ensures Written(past + [ev], ev.body.contentHash)
  {
    assert (past + [ev])[|past|] == ev;
  }

  lemma ChangedOk(r: Record, ev: Event, key: string, past: seq<Event>)
    requires ev.body.Rev? && ev.body.edit.Change? && ev.pin != ""
    requires PageOk(r, past) && Written(past, ev.body.contentHash)
    ensures ChangePage(r, ev, key).Accepted? ==> PageOk(ChangePage(r, ev, key).record, past)
  {
    var revised := ChangePage(r, ev, key);
    if revised.Accepted? {
      var e := ev.body.edit;
      var v := Version(ev.body.contentHash, ev.sender, e.parentRev, e.basedOn, ev.body.summary, key, "");
      var p := r.pages.(contests := revised.record.pages.contests);
      AddPageOk(p, ev.pin, v, past);
      assert revised.record.pages == AddPage(p, ev.pin, v);
    }
  }

  lemma RevertedOk(o: Options, s: State, r: Record, ev: Event, h: int, key: string, past: seq<Event>)
    requires ev.body.Rev? && ev.body.edit.Revert? && PageOk(r, past)
    ensures var revised := RevertPage(o, s, r, ev, h, key); revised.Accepted? ==> PageOk(revised.record, past)
  {
    var revised, p := RevertPage(o, s, r, ev, h, key), r.pages;
    if revised.Accepted? {
      var v := Version(p.versions[ev.body.edit.revertTo].contentHash, ev.sender, p.head, "", "", key, ev.pin);
      AddPageOk(p, ev.pin + "::eq", v, past);
      Entries.WarKeepsBaseline(o, CountRev(o, s, ev.sender, r.key, h), ev, h, key, p.head, r.guard);
      assert revised.record.pages == AddPage(p, ev.pin + "::eq", v);
    }
  }

  lemma RedirectedOk(s: State, r: Record, ev: Event, past: seq<Event>)
    requires ev.body.Rev? && ev.body.edit.Redirect? && ev.pin != "" && PageOk(r, past)
    ensures RedirectPage(s, r, ev).Accepted? ==> PageOk(RedirectPage(s, r, ev).record, past)
  {
  }

  lemma RevisedOk(o: Options, s: State, r: Record, ev: Event, h: int, past: seq<Event>)
    requires ev.body.Rev? && ev.pin != "" && PageOk(r, past + [ev])
    ensures var key := KeyOfRev(ev.body); var revised := Revise(o, s, r, ev, h, key);
      revised.Accepted? ==> PageOk(revised.record, past + [ev])
  {
    var key := KeyOfRev(ev.body);
    match ev.body.edit
    case Create =>
      WritesNow(past, ev);
      AddPageOk(r.pages, ev.pin, Version(ev.body.contentHash, ev.sender, "", "", ev.body.summary, key, ""), past + [ev]);
    case Change(_, _) =>
      WritesNow(past, ev);
      ChangedOk(r, ev, key, past + [ev]);
    case Revert(_, _) => RevertedOk(o, s, r, ev, h, key, past + [ev]);
    case Redirect(_) => RedirectedOk(s, r, ev, past + [ev]);
    case UnknownEdit =>
  }

  lemma SetOk(w: Wiki, key: string, r: Record, past: seq<Event>)
    requires PagesOk(w, past) && PageOk(r, past)
    ensures PagesOk(SetRecord(w, key, r), past)
  {
  }

  lemma RecordAtOk(w: Wiki, key: string, past: seq<Event>)
    requires PagesOk(w, past)
    ensures PageOk(RecordAt(w, key), past)
  {
  }

  lemma RevKeepsPages(o: Options, s: State, ev: Event, past: seq<Event>)
    requires PagesOk(s.wiki, past) && ev.body.Rev? && ev.pin != ""
    ensures PagesOk(ApplyRev(o, s, ev, ev.height).wiki, past + [ev])
  {
    var key := KeyOfRev(ev.body);
    var t := s.(wiki := Touch(s.wiki, key));
    OkLater(s.wiki, past, ev);
    assert PagesOk(t.wiki, past + [ev]);
    RecordAtOk(t.wiki, key, past + [ev]);
    RevisedOk(o, t, RecordAt(t.wiki, key), ev, ev.height, past);
    var revised := Revise(o, t, RecordAt(t.wiki, key), ev, ev.height, key);
    if revised.Accepted? {
      SetOk(t.wiki, key, revised.record, past + [ev]);
    }
    Entries.RevWiki(o, s, ev);
  }

  lemma ChallengeKeepsPages(o: Options, s: State, ev: Event, past: seq<Event>)
    requires PagesOk(s.wiki, past) && ev.body.ChallengeBody?
    ensures PagesOk(ApplyChallenge(o, s, ev).wiki, past)
  {
    var key := OwnerKey(s.wiki, ev.body.targetRev);
    RecordAtOk(s.wiki, key, past);
    SetOk(s.wiki, key, MarkDisputed(RecordAt(s.wiki, key), ev.body.targetRev), past);
    Entries.Challenged(o, s, ev);
  }

  // ---- Rulings ----

  /** The ruling reverts the page its key stands for to a revision that page does not
    * have, and no create or edit carried the empty hash that the revert then shows. */
  ghost predicate ForeignRevert(w: Wiki, c: Case, past: seq<Event>) {
    c.outcome.RevertTo? && c.entryKey != "" && c.entryKey in w.at
    && c.outcome.rev !in RecordAt(w, c.entryKey).pages.versions && !Written(past, "")
  }

  lemma JudgedOk(r: Record, c: Case, challenges: map<string, Dispute>, past: seq<Event>)
    requires PageOk(r, past)
    ensures PageOk(JudgeRecord(r, c, challenges), past)
      <==> !(c.outcome.RevertTo? && c.outcome.rev !in r.pages.versions && !Written(past, ""))
  {
    if c.outcome.RevertTo? {
      var v := Version(VersionAt(r.pages, c.outcome.rev).contentHash, c.proposer, r.pages.head, "", "", c.entryKey, c.pin);
      if Written(past, v.contentHash) {
        AddPageOk(r.pages, c.pin + "::rev", v, past);
      } else {
        assert AddPage(r.pages, c.pin + "::rev", v).versions[c.pin + "::rev"] == v;
      }
    }
  }

  lemma JudgedWikiOk(w: Wiki, c: Case, challenges: map<string, Dispute>, past: seq<Event>)
    requires PagesOk(w, past) && Entries.Keyed(w)
    ensures PagesOk(JudgeWiki(w, c, challenges), past) <==> !ForeignRevert(w, c, past)
  {
    if c.entryKey != "" && c.entryKey in w.at && !c.outcome.TransferSlug? {
      var r := RecordAt(w, c.entryKey);
      JudgedOk(r, c, challenges, past);
      assert JudgeWiki(w, c, challenges).records[w.at[c.entryKey]] == JudgeRecord(r, c, challenges);
    }
  }

  /** The vote puts such a ruling into effect. */
  ghost predicate Misreverts(s: State, t: State, ev: Event, past: seq<Event>) {
    && ev.body.Vote? && ev.body.proposalPin in s.court.proposals && ev.body.proposalPin in t.court.proposals
    && s.court.proposals[ev.body.proposalPin].state == Open
    && t.court.proposals[ev.body.proposalPin].state == Effective
    && ForeignRevert(s.wiki, s.court.proposals[ev.body.proposalPin].fixed, past)
  }

  lemma VoteKeepsPages(s: State, ev: Event, past: seq<Event>)
    requires PagesOk(s.wiki, past) && Entries.Keyed(s.wiki) && ev.body.Vote?
    ensures PagesOk(ApplyVote(s, ev, ev.height).wiki, past) <==> !Misreverts(s, ApplyVote(s, ev, ev.height), ev, past)
  {
    Entries.VoteIs(s, ev);
    if ev.body.proposalPin in s.court.proposals {
      JudgedWikiOk(s.wiki, s.court.proposals[ev.body.proposalPin].fixed, s.court.challenges, past);
    }
  }

  lemma NoNewHash(w: Wiki, past: seq<Event>, ev: Event)
    requires !ev.body.Rev?
    ensures PagesOk(w, past + [ev]) <==> PagesOk(w, past)
  {
    forall hash: string
      ensures Written(past + [ev], hash) <==> Written(past, hash)
    {
      if Written(past + [ev], hash) {
        var i :| 0 <= i < |past + [ev]| && Carries((past + [ev])[i], hash);
        assert past[i] == (past + [ev])[i];
      } else if Written(past, hash) {
        WrittenLater(past, hash, ev);
      }
    }
  }

  lemma DispatchKeepsPages(o: Options, s: State, ev: Event, past: seq<Event>)
    requires PagesOk(s.wiki, past) && Entries.Keyed(s.wiki) && ev.pin != ""
    ensures PagesOk(Dispatch(o, s, ev).wiki, past + [ev]) <==> !Misreverts(s, Dispatch(o, s, ev), ev, past)
  {
    OkLater(s.wiki, past, ev);
    if !ev.body.Propose? && !ev.body.Vote? && !ev.body.Rev? && !ev.body.ChallengeBody? {
      Entries.OthersKeepWiki(o, s, ev);
    } else if s.rules.params == None {
      Entries.TooEarly(o, s, ev);
    } else {
      Entries.DispatchIs(o, s, ev);
      if ev.body.Vote? {
        VoteKeepsPages(s, ev, past);
        NoNewHash(ApplyVote(s, ev, ev.height).wiki, past, ev);
      } else if ev.body.Rev? {
        RevKeepsPages(o, s, ev, past);
      } else if ev.body.ChallengeBody? {
        ChallengeKeepsPages(o, s, ev, past);
        OkLater(ApplyChallenge(o, s, ev).wiki, past, ev);
      }
    }
  }

  // ---- Closing ----

  /** An expiring proposal gives a frozen page a head that is not in its history. */
  ghost predicate ForeignThaw(ps: map<string, Proposal>, w: Wiki, h: int) {
    exists pin, id :: id in w.records && Order.Hits(ps, w, h, pin, id) && Strays(w.records[id], ps[pin].fixed.baselineRev)
  }

  predicate Strays(r: Record, baselineRev: string) {
    r.guard.status == Frozen && baselineRev != "" && baselineRev !in r.pages.history
  }

  lemma ThawedOk(r: Record, baselineRev: string, past: seq<Event>)
    requires PageOk(r, past)
    ensures PageOk(Thaw(r, baselineRev), past) <==> !Strays(r, baselineRev)
  {
  }

  lemma ClosingKeepsPages(s: State, h: int, past: seq<Event>)
    requires PagesOk(s.wiki, past) && Order.Anchored(s.wiki) && Order.Calm(s.court.proposals, s.wiki, h)
    ensures PagesOk(CloseExpired(s, h).wiki, past) <==> !ForeignThaw(s.court.proposals, s.wiki, h)
  {
    var ps, w, order := s.court.proposals, s.wiki, CanonicalJson.SortedKeys(s.court.proposals.Keys);
    Order.SortedKeysList(ps, {});
    Order.CloseInIs(order, ps, w, h);
    ClosedPages(order, ps, w, h, CloseExpired(s, h).wiki, past);
  }

  ghost predicate StraysFrom(ps: map<string, Proposal>, w: Wiki, h: int, id: string)
    requires id in w.records
  {
    exists pin :: Order.Hits(ps, w, h, pin, id) && Strays(w.records[id], ps[pin].fixed.baselineRev)
  }

  lemma ClosedPage(order: seq<string>, ps: map<string, Proposal>, w: Wiki, h: int, id: string, q: Record, past: seq<Event>)
    requires id in w.records && PageOk(w.records[id], past) && Order.Lists(order, ps) && Order.ClosedAs(order, ps, w, h, id, q)
    ensures PageOk(q, past) <==> !StraysFrom(ps, w, h, id)
  {
    if pin :| Order.Hits(ps, w, h, pin, id) {
      assert pin in order;
      forall other | Order.Hits(ps, w, h, other, id)
        ensures PageOk(q, past) <==> !Strays(w.records[id], ps[other].fixed.baselineRev)
      {
        assert other in order;
        ThawedOk(w.records[id], ps[other].fixed.baselineRev, past);
      }
    }
  }

  lemma ClosedPages(order: seq<string>, ps: map<string, Proposal>, w: Wiki, h: int, v: Wiki, past: seq<Event>)
    requires PagesOk(w, past) && Order.Lists(order, ps) && Order.ClosedWiki(order, ps, w, h, v)
    ensures PagesOk(v, past) <==> !ForeignThaw(ps, w, h)
  {
    forall id | id in w.records
      ensures PageOk(v.records[id], past) <==> !StraysFrom(ps, w, h, id)
    {
      ClosedPage(order, ps, w, h, id, v.records[id], past);
    }
    ForeignIsSome(ps, w, h);
  }

  lemma ForeignIsSome(ps: map<string, Proposal>, w: Wiki, h: int)
    ensures ForeignThaw(ps, w, h) <==> exists id :: id in w.records && StraysFrom(ps, w, h, id)
  {
  }

  // ---- Whole runs ----

  ghost predicate PagesOkAt(o: Options, events: seq<Event>, n: nat)
    requires n <= |events|
  {
    PagesOk(Entries.After(o, events, n).wiki, events[..n])
  }

  ghost function ClosedAt(o: Options, events: seq<Event>, n: nat): State
    requires n < |events|
  {
    CloseExpired(Entries.After(o, events, n), events[n].height)
  }

  ghost predicate ClosedOkAt(o: Options, events: seq<Event>, n: nat)
    requires n < |events|
  {
    PagesOk(ClosedAt(o, events, n).wiki, events[..n])
  }

  /** Closing before the `n`-th event thaws a page to a head it does not have. */
  ghost predicate StraysAt(o: Options, events: seq<Event>, n: nat)
    requires n < |events|
  {
    var s := Entries.After(o, events, n);
    ForeignThaw(s.court.proposals, s.wiki, events[n].height)
  }

  /** The `n`-th event votes a revert into effect to a revision its page does not have. */
  ghost predicate MisrevertsAt(o: Options, events: seq<Event>, n: nat)
    requires n < |events|
  {
    Misreverts(ClosedAt(o, events, n), Entries.After(o, events, n + 1), events[n], events[..n])
  }

  ghost predicate CalmAt(o: Options, events: seq<Event>, n: nat)
    requires n < |events|
  {
    var s := Entries.After(o, events, n);
    Order.Calm(s.court.proposals, s.wiki, events[n].height)
  }

  lemma ClosingAt(o: Options, events: seq<Event>, n: nat)
    requires n < |events| && PagesOkAt(o, events, n) && CalmAt(o, events, n)
    ensures ClosedOkAt(o, events, n) <==> !StraysAt(o, events, n)
  {
    Entries.RunKeepsKeyed(o, events, n);
    ClosingKeepsPages(Entries.After(o, events, n), events[n].height, events[..n]);
  }

  lemma ClosedIsKeyed(o: Options, events: seq<Event>, n: nat)
    requires n < |events|
    ensures Entries.Keyed(ClosedAt(o, events, n).wiki)
  {
    Entries.RunKeepsKeyed(o, events, n);
    var s := Entries.After(o, events, n);
    Entries.ClosingGoes(CanonicalJson.SortedKeys(s.court.proposals.Keys), s.court.proposals, s.wiki, events[n].height);
  }

  lemma AfterIs(o: Options, events: seq<Event>, n: nat)
    requires n < |events|
    ensures Entries.After(o, events, n + 1) == Dispatch(o, ClosedAt(o, events, n), events[n])
  {
    Rulings.RunStep(o, events, n);
  }

  lemma DispatchAt(o: Options, events: seq<Event>, n: nat)
    requires n < |events| && ClosedOkAt(o, events, n) && events[n].pin != ""
    ensures PagesOkAt(o, events, n + 1) <==> !MisrevertsAt(o, events, n)
  {
    ClosedIsKeyed(o, events, n);
    AfterIs(o, events, n);
    DispatchKeepsPages(o, ClosedAt(o, events, n), events[n], events[..n]);
    assert events[..n + 1] == events[..n] + [events[n]];
  }

  lemma {:induction false} PagesOkUpTo(o: Options, events: seq<Event>, n: nat)
    requires n <= |events|
    requires forall i :: 0 <= i < |events| ==> events[i].pin != "" && CalmAt(o, events, i)
    requires forall i :: 0 <= i < n ==> !StraysAt(o, events, i) && !MisrevertsAt(o, events, i)
    ensures PagesOkAt(o, events, n)
  {
    if n > 0 {
      PagesOkUpTo(o, events, n - 1);
      ClosingAt(o, events, n - 1);
      DispatchAt(o, events, n - 1);
    } else {
      assert events[..0] == [];
    }
  }

  /** Over a run in which the order of closing cannot show, transfers included, every
    * page's head, history, baseline and hashes stay together at each closing and
    * after each event exactly when no closing thaws a page to a head it does not
    * have and no revert to a revision its page does not have takes effect. */
  lemma PagesHoldIff(o: Options, events: seq<Event>)
    requires forall i :: 0 <= i < |events| ==> events[i].pin != "" && CalmAt(o, events, i)
    ensures (forall n :: 0 <= n < |events| ==> ClosedOkAt(o, events, n) && PagesOkAt(o, events, n + 1))
      <==> (forall n :: 0 <= n < |events| ==> !StraysAt(o, events, n) && !MisrevertsAt(o, events, n))
  {
    if forall n :: 0 <= n < |events| ==> !StraysAt(o, events, n) && !MisrevertsAt(o, events, n) {
      forall n | 0 <= n < |events|
        ensures ClosedOkAt(o, events, n) && PagesOkAt(o, events, n + 1)
      {
        PagesOkUpTo(o, events, n);
        ClosingAt(o, events, n);
        DispatchAt(o, events, n);
      }
    }
    if forall n :: 0 <= n < |events| ==> ClosedOkAt(o, events, n) && PagesOkAt(o, events, n + 1) {
      forall n | 0 <= n < |events|
        ensures !StraysAt(o, events, n) && !MisrevertsAt(o, events, n)
      {
        if n == 0 {
          PagesOkUpTo(o, events, 0);
        } else {
          assert ClosedOkAt(o, events, n - 1) && PagesOkAt(o, events, n - 1 + 1);
        }
        ClosingAt(o, events, n);
        DispatchAt(o, events, n);
      }
    }
  }

  lemma SoundNeverStrays(s: State, h: int, past: seq<Event>)
    requires Entries.Inv(s, past)
    ensures !ForeignThaw(s.court.proposals, s.wiki, h)
  {
    forall pin, id | id in s.wiki.records && Order.Hits(s.court.proposals, s.wiki, h, pin, id)
      ensures !Strays(s.wiki.records[id], s.court.proposals[pin].fixed.baselineRev)
    {
      assert Entries.CaseOk(s.court.proposals[pin].fixed, s.wiki);
    }
  }

  lemma SoundNeverMisreverts(s: State, t: State, ev: Event, past: seq<Event>)
    requires Entries.Inv(s, past)
    ensures !Misreverts(s, t, ev, past)
  {
    if ev.body.Vote? && ev.body.proposalPin in s.court.proposals {
      assert Entries.CaseOk(s.court.proposals[ev.body.proposalPin].fixed, s.wiki);
    }
  }

  /** Both take a moved key: in a run that moves none neither happens. */
  lemma OnlyMovedKeysStray(o: Options, events: seq<Event>, n: nat)
    requires n < |events| && Entries.NoMoves(o, events)
    requires forall i :: 0 <= i < |events| ==> events[i].pin != ""
    ensures !StraysAt(o, events, n) && !MisrevertsAt(o, events, n)
  {
    var s := Entries.After(o, events, n);
    Entries.RunKeepsInv(o, events, n);
    SoundNeverStrays(s, events[n].height, events[..n]);
    Entries.ClosingKeepsInv(s, events[n].height, events[..n]);
    SoundNeverMisreverts(ClosedAt(o, events, n), Entries.After(o, events, n + 1), events[n], events[..n]);
  }
}
