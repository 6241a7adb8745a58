/** Where the engine ranges over maps, and over which runs that cannot be seen:
  * expiring proposals, the owner of a revision, the register an endorsement is
  * for. Then the order in which batches of events arrive.
  */
module AgentpediaOrder {
  import opened ChainEvents
  import opened Sorting
  import opened Agentpedia
  import CanonicalJson
  import Rulings = AgentpediaRulings
  import Entries = AgentpediaEntries

  // ---- Closing in any order ----

  /** Every key stands for a record that is there. */
  ghost predicate Anchored(w: Wiki) {
    forall key :: key in w.at ==> w.at[key] in w.records
  }

  /** The expiring proposal `pin` is about the record `id`. */
  predicate Hits(ps: map<string, Proposal>, w: Wiki, h: int, pin: string, id: string) {
    pin in ps && Expires(ps[pin], h) && ps[pin].fixed.entryKey != ""
    && ps[pin].fixed.entryKey in w.at && w.at[ps[pin].fixed.entryKey] == id
  }

  /** The head an expiring proposal gives a frozen record. */
  function HeadAfter(r: Record, baselineRev: string): string {
    if baselineRev != "" then baselineRev else r.pages.head
  }

  /** Proposals that expire at once on one frozen record agree on its head. */
  ghost predicate Calm(ps: map<string, Proposal>, w: Wiki, h: int) {
    forall id, p, q :: id in w.records && Hits(ps, w, h, p, id) && Hits(ps, w, h, q, id) && w.records[id].guard.status == Frozen ==>
      HeadAfter(w.records[id], ps[p].fixed.baselineRev) == HeadAfter(w.records[id], ps[q].fixed.baselineRev)
  }

  lemma ThawedAlike(r: Record, a: string, b: string)
    ensures Thaw(r, a) == Thaw(r, b) <==> r.guard.status != Frozen || HeadAfter(r, a) == HeadAfter(r, b)
    ensures r.guard.status == Frozen ==> Thaw(r, a).pages.head == HeadAfter(r, a)
  {
  }

  /** `q` is what closing the proposals in `order` makes of the record `id`. */
  ghost predicate ClosedAs(order: seq<string>, ps: map<string, Proposal>, w: Wiki, h: int, id: string, q: Record)
    requires id in w.records
  {
    (forall pin :: pin in order && Hits(ps, w, h, pin, id) ==> q == Thaw(w.records[id], ps[pin].fixed.baselineRev))
    && ((forall pin :: pin in order ==> !Hits(ps, w, h, pin, id)) ==> q == w.records[id])
  }

  lemma ThawTwice(r: Record, baselineRev: string)
    ensures Thaw(Thaw(r, baselineRev), baselineRev) == Thaw(r, baselineRev)
  {
  }

  lemma ClosedOneMore(order: seq<string>, pin: string, ps: map<string, Proposal>, w: Wiki, h: int, id: string, r: Record)
    requires id in w.records && Calm(ps, w, h) && ClosedAs(order, ps, w, h, id, r)
    ensures Hits(ps, w, h, pin, id) ==> ClosedAs(order + [pin], ps, w, h, id, Thaw(r, ps[pin].fixed.baselineRev))
    ensures !Hits(ps, w, h, pin, id) ==> ClosedAs(order + [pin], ps, w, h, id, r)
  {
    if Hits(ps, w, h, pin, id) {
      if other :| other in order && Hits(ps, w, h, other, id) {
        ThawedAlike(w.records[id], ps[other].fixed.baselineRev, ps[pin].fixed.baselineRev);
        ThawTwice(w.records[id], ps[pin].fixed.baselineRev);
      }
    }
  }

  ghost predicate ClosedWiki(order: seq<string>, ps: map<string, Proposal>, w: Wiki, h: int, v: Wiki) {
    v.at == w.at && v.aliasOf == w.aliasOf && v.records.Keys == w.records.Keys
    && forall id :: id in w.records ==> ClosedAs(order, ps, w, h, id, v.records[id])
  }

  /** In a calm state, each record comes out as any of its expiring proposals
    * makes it, whatever the order. */
  lemma {:induction false} CloseInIs(order: seq<string>, ps: map<string, Proposal>, w: Wiki, h: int)
    requires Anchored(w) && Calm(ps, w, h)
    ensures ClosedWiki(order, ps, w, h, CloseIn(order, ps, w, h))
  {
    if order != [] {
      var n := |order| - 1;
      CloseInIs(order[..n], ps, w, h);
      NextClosedWiki(order[..n], order[n], ps, w, CloseIn(order[..n], ps, w, h), h);
      assert order == order[..n] + [order[n]];
    }
  }

  lemma NextClosedWiki(front: seq<string>, pin: string, ps: map<string, Proposal>, w: Wiki, before: Wiki, h: int)
    requires Anchored(w) && Calm(ps, w, h) && ClosedWiki(front, ps, w, h, before)
    ensures ClosedWiki(front + [pin], ps, w, h, if pin in ps then CloseOne(before, ps[pin], h) else before)
  {
    var v := if pin in ps then CloseOne(before, ps[pin], h) else before;
    forall id | id in w.records ensures ClosedAs(front + [pin], ps, w, h, id, v.records[id]) {
      NextClosedAs(front, pin, ps, w, before, h, id);
    }
    ClosedKeys(pin, ps, w, before, h);
  }

  lemma ClosedKeys(pin: string, ps: map<string, Proposal>, w: Wiki, before: Wiki, h: int)
    requires before.at == w.at && before.aliasOf == w.aliasOf && before.records.Keys == w.records.Keys && Anchored(w)
    ensures var v := if pin in ps then CloseOne(before, ps[pin], h) else before;
      v.at == w.at && v.aliasOf == w.aliasOf && v.records.Keys == w.records.Keys
  {
  }

  lemma NextClosedAs(front: seq<string>, pin: string, ps: map<string, Proposal>, w: Wiki, before: Wiki, h: int, id: string)
    requires Anchored(w) && Calm(ps, w, h) && id in w.records
    requires before.at == w.at && before.records.Keys == w.records.Keys && ClosedAs(front, ps, w, h, id, before.records[id])
    ensures var v := if pin in ps then CloseOne(before, ps[pin], h) else before;
      id in v.records && ClosedAs(front + [pin], ps, w, h, id, v.records[id])
  {
    ClosedOneMore(front, pin, ps, w, h, id, before.records[id]);
    ClosedRecord(pin, ps, w, before, h, id);
  }

  lemma ClosedRecord(pin: string, ps: map<string, Proposal>, w: Wiki, before: Wiki, h: int, id: string)
    requires before.at == w.at && before.records.Keys == w.records.Keys && Anchored(w) && id in w.records
    ensures var v := if pin in ps then CloseOne(before, ps[pin], h) else before;
      v.records.Keys == w.records.Keys
      && v.records[id] == if Hits(ps, w, h, pin, id) then Thaw(before.records[id], ps[pin].fixed.baselineRev)
                          else before.records[id]
  {
  }

  /** `order` goes through the proposals, each of them once. */
  ghost predicate Lists(order: seq<string>, ps: map<string, Proposal>) {
    (forall pin :: pin in order <==> pin in ps) && forall i, j :: 0 <= i < j < |order| ==> order[i] != order[j]
  }

  lemma SortedKeysList(ps: map<string, Proposal>, pins: set<string>)
    ensures var s := CanonicalJson.SortedKeys(pins);
      (forall pin :: pin in s <==> pin in pins) && forall i, j :: 0 <= i < j < |s| ==> s[i] != s[j]
    ensures Lists(CanonicalJson.SortedKeys(ps.Keys), ps)
  {
    forall s: seq<string>, i, j | CanonicalJson.Increasing(s) && 0 <= i < j < |s|
      ensures s[i] != s[j]
    {
      StringLessStrict(s[i], s[j]);
    }
  }

  /** Ranging over the proposals in any two orders leaves the same wiki. */
  lemma ClosingOrderDoesNotMatter(a: seq<string>, b: seq<string>, ps: map<string, Proposal>, w: Wiki, h: int)
    requires Anchored(w) && Calm(ps, w, h) && Lists(a, ps) && Lists(b, ps)
    ensures CloseIn(a, ps, w, h) == CloseIn(b, ps, w, h)
  {
    CloseInIs(a, ps, w, h);
    CloseInIs(b, ps, w, h);
    SameWikis(a, b, ps, w, h, CloseIn(a, ps, w, h), CloseIn(b, ps, w, h));
  }

  lemma SameWikis(a: seq<string>, b: seq<string>, ps: map<string, Proposal>, w: Wiki, h: int, x: Wiki, y: Wiki)
    requires Lists(a, ps) && Lists(b, ps)
    requires ClosedWiki(a, ps, w, h, x) && ClosedWiki(b, ps, w, h, y)
    ensures x == y
  {
    forall id | id in w.records ensures x.records[id] == y.records[id] {
      SameClosing(a, b, ps, w, h, id, x.records[id], y.records[id]);
    }
    assert x.records == y.records;
  }

  lemma SameClosing(a: seq<string>, b: seq<string>, ps: map<string, Proposal>, w: Wiki, h: int, id: string,
                    x: Record, y: Record)
    requires id in w.records && Lists(a, ps) && Lists(b, ps)
    requires ClosedAs(a, ps, w, h, id, x) && ClosedAs(b, ps, w, h, id, y)
    ensures x == y
  {
    if pin :| Hits(ps, w, h, pin, id) {
      assert pin in a && pin in b;
    }
  }

  /** A frozen record comes out as the first proposal that hits it makes it. */
  lemma {:induction false} FirstHitDecides(p: string, rest: seq<string>, ps: map<string, Proposal>, w: Wiki, h: int, id: string)
    requires Anchored(w) && id in w.records && w.records[id].guard.status == Frozen && Hits(ps, w, h, p, id)
    ensures var v := CloseIn([p] + rest, ps, w, h);
      v.at == w.at && v.records.Keys == w.records.Keys && v.records[id] == Thaw(w.records[id], ps[p].fixed.baselineRev)
  {
    if rest == [] {
      assert [p] + rest == [p] && [p][..0] == [];
      assert CloseIn([], ps, w, h) == w;
      ClosedRecord(p, ps, w, w, h, id);
    } else {
      var n := |rest| - 1;
      FirstHitDecides(p, rest[..n], ps, w, h, id);
      assert ([p] + rest)[..n + 1] == [p] + rest[..n] && ([p] + rest)[n + 1] == rest[n];
      ClosedRecord(rest[n], ps, w, CloseIn([p] + rest[..n], ps, w, h), h, id);
    }
  }

  lemma StartingWith(p: string, ps: map<string, Proposal>) returns (rest: seq<string>)
    requires p in ps
    ensures Lists([p] + rest, ps)
  {
    rest := CanonicalJson.SortedKeys(ps.Keys - {p});
    SortedKeysList(ps, ps.Keys - {p});
    assert forall pin :: pin in [p] + rest <==> pin == p || pin in rest;
  }

  /** Ranging over the proposals in two orders can leave different wikis. */
  ghost predicate OrderShows(ps: map<string, Proposal>, w: Wiki, h: int) {
    exists a, b :: Lists(a, ps) && Lists(b, ps) && CloseIn(a, ps, w, h) != CloseIn(b, ps, w, h)
  }

  lemma DifferentFirstsShow(ps: map<string, Proposal>, w: Wiki, h: int, id: string, p: string, q: string)
    requires Anchored(w) && id in w.records && w.records[id].guard.status == Frozen
    requires Hits(ps, w, h, p, id) && Hits(ps, w, h, q, id)
    requires HeadAfter(w.records[id], ps[p].fixed.baselineRev) != HeadAfter(w.records[id], ps[q].fixed.baselineRev)
    ensures OrderShows(ps, w, h)
  {
    var afterP := StartingWith(p, ps);
    var afterQ := StartingWith(q, ps);
    FirstHitDecides(p, afterP, ps, w, h, id);
    FirstHitDecides(q, afterQ, ps, w, h, id);
    ThawedAlike(w.records[id], ps[p].fixed.baselineRev, ps[q].fixed.baselineRev);
  }

  /** The order of closing cannot show exactly in a calm state. */
  lemma CalmIffOrderHidden(ps: map<string, Proposal>, w: Wiki, h: int)
    requires Anchored(w)
    ensures Calm(ps, w, h) <==> !OrderShows(ps, w, h)
  {
    if Calm(ps, w, h) {
      forall a, b | Lists(a, ps) && Lists(b, ps) ensures CloseIn(a, ps, w, h) == CloseIn(b, ps, w, h) {
        ClosingOrderDoesNotMatter(a, b, ps, w, h);
      }
    } else {
      var id, p, q :| id in w.records && Hits(ps, w, h, p, id) && Hits(ps, w, h, q, id) && w.records[id].guard.status == Frozen
        && HeadAfter(w.records[id], ps[p].fixed.baselineRev) != HeadAfter(w.records[id], ps[q].fixed.baselineRev);
      DifferentFirstsShow(ps, w, h, id, p, q);
    }
  }

  // ---- One owner per revision ----

  /** Neither pin is the other, nor the other with the suffix of a revision that
    * the engine derives from it. */
  predicate Apart(a: string, b: string) {
    a != b && a != b + "::eq" && a != b + "::rev" && b != a + "::eq" && b != a + "::rev"
  }

  /** The pins of a run. Those of a chain end in 'i' and an output's index, so that
    * distinct ones are always this far apart. */
  ghost predicate ChainPins(events: seq<Event>) {
    forall i, j :: 0 <= i < j < |events| ==> Apart(events[i].pin, events[j].pin)
  }

  lemma SuffixesDiffer(a: string, b: string)
    ensures a + "::eq" != b + "::rev" && a != a + "::eq" && a != a + "::rev"
    ensures a + "::eq" == b + "::eq" ==> a == b
    ensures a + "::rev" == b + "::rev" ==> a == b
  {
    assert (a + "::eq")[|a| + 3] == 'q' && (b + "::rev")[|b| + 4] == 'v';
    assert |a + "::eq"| == |a| + 4 && |b + "::rev"| == |b| + 5;
    assert (a + "::eq")[..|a|] == a && (b + "::eq")[..|b|] == b;
    assert (a + "::rev")[..|a|] == a && (b + "::rev")[..|b|] == b;
  }

  /** Where a revision id comes from: an event, or a ruling in effect. */
  ghost predicate Origin(x: string, past: seq<Event>, ps: map<string, Proposal>) {
    (exists i :: 0 <= i < |past| && (x == past[i].pin || x == past[i].pin + "::eq"))
    || exists pin :: pin in ps && ps[pin].state == Effective && x == pin + "::rev"
  }

  predicate Has(w: Wiki, id: string, x: string) {
    id in w.records && x in w.records[id].pages.versions
  }

  ghost predicate Traced(w: Wiki, past: seq<Event>, ps: map<string, Proposal>) {
    forall id, x :: Has(w, id, x) ==> Origin(x, past, ps)
  }

  /** No revision is in two records. */
  ghost predicate Disjoint(w: Wiki) {
    forall id, other, x :: Has(w, id, x) && Has(w, other, x) ==> id == other
  }

  /** At most the revision `x` is new in `v`, in the record `id`. */
  ghost predicate Gains(w: Wiki, v: Wiki, id: string, x: string) {
    forall other, y :: Has(v, other, y) ==> Has(w, other, y) || (other == id && y == x)
  }

  ghost predicate GainsNothing(w: Wiki, v: Wiki) {
    forall id, x :: Has(v, id, x) ==> Has(w, id, x)
  }

  ghost predicate PinsFrom(ps: map<string, Proposal>, past: seq<Event>) {
    forall pin :: pin in ps ==> ps[pin].fixed.pin == pin && exists i :: 0 <= i < |past| && past[i].pin == pin
  }

  ghost predicate Owned(s: State, past: seq<Event>) {
    Anchored(s.wiki) && Disjoint(s.wiki) && Traced(s.wiki, past, s.court.proposals) && PinsFrom(s.court.proposals, past)
  }

  lemma OriginLater(x: string, past: seq<Event>, ev: Event, ps: map<string, Proposal>, qs: map<string, Proposal>)
    requires Origin(x, past, ps)
    requires forall pin :: pin in ps && ps[pin].state == Effective ==> pin in qs && qs[pin].state == Effective
    ensures Origin(x, past + [ev], qs)
  {
    if i :| 0 <= i < |past| && (x == past[i].pin || x == past[i].pin + "::eq") {
      assert (past + [ev])[i] == past[i];
    }
  }

  /** Neither the pin of a new event nor its revert is a revision yet. */
  lemma NewPinIsFresh(w: Wiki, past: seq<Event>, ps: map<string, Proposal>, pin: string, id: string)
    requires Traced(w, past, ps) && NewPin(past, pin) && PinsFrom(ps, past)
    ensures !Has(w, id, pin) && !Has(w, id, pin + "::eq")
  {
    SuffixesDiffer(pin, pin);
    forall i | 0 <= i < |past|
      ensures pin != past[i].pin + "::eq" && pin + "::eq" != past[i].pin + "::eq"
      ensures pin + "::eq" != past[i].pin
    {
      assert Apart(past[i].pin, pin);
      SuffixesDiffer(past[i].pin, pin);
    }
    forall u | u in ps ensures pin != u + "::rev" && pin + "::eq" != u + "::rev" {
      var i :| 0 <= i < |past| && past[i].pin == u;
      assert Apart(past[i].pin, pin);
      SuffixesDiffer(pin, u);
    }
  }

  /** The revision an open ruling would add is not there yet. */
  lemma OpenRulingIsFresh(w: Wiki, past: seq<Event>, ps: map<string, Proposal>, pin: string, id: string)
    requires Traced(w, past, ps) && ChainPins(past) && PinsFrom(ps, past) && pin in ps && ps[pin].state == Open
    ensures !Has(w, id, pin + "::rev")
  {
    var k :| 0 <= k < |past| && past[k].pin == pin;
    SuffixesDiffer(pin, pin);
    forall i | 0 <= i < |past| ensures pin + "::rev" != past[i].pin && pin + "::rev" != past[i].pin + "::eq" {
      assert i < k ==> Apart(past[i].pin, past[k].pin);
      assert k < i ==> Apart(past[k].pin, past[i].pin);
      SuffixesDiffer(past[i].pin, pin);
    }
    forall u | u in ps && ps[u].state == Effective ensures pin + "::rev" != u + "::rev" {
      SuffixesDiffer(pin, u);
    }
  }

  lemma GainedIsDisjoint(w: Wiki, v: Wiki, id: string, x: string)
    requires Disjoint(w) && Gains(w, v, id, x) && forall other :: !Has(w, other, x)
    ensures Disjoint(v)
  {
  }

  lemma {:induction false} ClosingGainsNothing(order: seq<string>, ps: map<string, Proposal>, w: Wiki, h: int)
    requires Anchored(w)
    ensures var v := CloseIn(order, ps, w, h); GainsNothing(w, v) && Anchored(v) && v.at == w.at
  {
    if order != [] {
      ClosingGainsNothing(order[..|order| - 1], ps, w, h);
    }
  }

  lemma JudgingGains(w: Wiki, c: Case, challenges: map<string, Dispute>)
    requires Anchored(w)
    ensures var v := JudgeWiki(w, c, challenges);
      Anchored(v) && (if c.entryKey in w.at then Gains(w, v, w.at[c.entryKey], c.pin + "::rev") else GainsNothing(w, v))
  {
  }

  lemma RevisingGains(o: Options, s: State, r: Record, ev: Event, h: int, key: string)
    requires ev.body.Rev?
    ensures var revised := Revise(o, s, r, ev, h, key);
      revised.Accepted? ==> forall y :: y in revised.record.pages.versions ==>
        y in r.pages.versions || y == (if ev.body.edit.Revert? then ev.pin + "::eq" else ev.pin)
  {
  }

  ghost predicate NewPin(past: seq<Event>, pin: string) {
    ChainPins(past) && forall i :: 0 <= i < |past| ==> Apart(past[i].pin, pin)
  }

  /** Every ruling in effect in `ps` still is in `qs`. */
  ghost predicate StillEffective(ps: map<string, Proposal>, qs: map<string, Proposal>) {
    forall pin :: pin in ps && ps[pin].state == Effective ==> pin in qs && qs[pin].state == Effective
  }

  /** A change that brings at most one revision, a fresh one. */
  lemma OwnedAfter(s: State, t: State, past: seq<Event>, ev: Event, id: string, x: string)
    requires Owned(s, past) && Anchored(t.wiki) && Gains(s.wiki, t.wiki, id, x)
    requires forall other :: !Has(s.wiki, other, x)
    requires Origin(x, past + [ev], t.court.proposals)
    requires StillEffective(s.court.proposals, t.court.proposals) && PinsFrom(t.court.proposals, past + [ev])
    ensures Owned(t, past + [ev])
  {
    GainedIsDisjoint(s.wiki, t.wiki, id, x);
    forall other, y | Has(t.wiki, other, y) ensures Origin(y, past + [ev], t.court.proposals) {
      if Has(s.wiki, other, y) {
        OriginLater(y, past, ev, s.court.proposals, t.court.proposals);
      }
    }
  }

  lemma OwnedWithoutGain(s: State, t: State, past: seq<Event>, ev: Event)
    requires Owned(s, past) && Anchored(t.wiki) && GainsNothing(s.wiki, t.wiki)
    requires StillEffective(s.court.proposals, t.court.proposals) && PinsFrom(t.court.proposals, past + [ev])
    ensures Owned(t, past + [ev])
  {
    forall other, y | Has(t.wiki, other, y) ensures Origin(y, past + [ev], t.court.proposals) {
      OriginLater(y, past, ev, s.court.proposals, t.court.proposals);
    }
  }

  lemma PinsLater(ps: map<string, Proposal>, past: seq<Event>, ev: Event)
    requires PinsFrom(ps, past)
    ensures PinsFrom(ps, past + [ev])
  {
    forall pin | pin in ps ensures exists i :: 0 <= i < |past + [ev]| && (past + [ev])[i].pin == pin {
      var i :| 0 <= i < |past| && past[i].pin == pin;
      assert (past + [ev])[i].pin == pin;
    }
  }

  lemma ClosingKeepsOwned(s: State, h: int, past: seq<Event>)
    requires Owned(s, past)
    ensures Owned(CloseExpired(s, h), past)
  {
    var t := CloseExpired(s, h);
    ClosingGainsNothing(CanonicalJson.SortedKeys(s.court.proposals.Keys), s.court.proposals, s.wiki, h);
    forall id, x | Has(t.wiki, id, x) ensures Origin(x, past, t.court.proposals) {
      var ps, qs := s.court.proposals, t.court.proposals;
      if pin :| pin in ps && ps[pin].state == Effective && x == pin + "::rev" {
        assert qs[pin].state == Effective;
      }
    }
  }

  lemma VoteKeepsOwned(s: State, ev: Event, past: seq<Event>)
    requires Owned(s, past) && NewPin(past, ev.pin) && ev.body.Vote?
    ensures Owned(ApplyVote(s, ev, ev.height), past + [ev])
  {
    var t := ApplyVote(s, ev, ev.height);
    PinsLater(s.court.proposals, past, ev);
    VoteKeepsPins(s, ev, past + [ev]);
    if t.wiki == s.wiki {
      OwnedWithoutGain(s, t, past, ev);
    } else {
      VoteJudges(s, ev);
      RulingKeepsOwned(s, t, ev.body.proposalPin, past, ev);
    }
  }

  lemma VoteKeepsPins(s: State, ev: Event, past: seq<Event>)
    requires ev.body.Vote? && PinsFrom(s.court.proposals, past)
    ensures var t := ApplyVote(s, ev, ev.height);
      StillEffective(s.court.proposals, t.court.proposals) && PinsFrom(t.court.proposals, past)
  {
    var ps, pin := s.court.proposals, ev.body.proposalPin;
    if pin in ps {
      var q := Ballot(ps[pin], ev.sender, ev.body.approve);
      SetKeepsPins(ps, pin, q, past);
      SetKeepsPins(ps, pin, q.(state := Effective), past);
    }
  }

  lemma SetKeepsPins(ps: map<string, Proposal>, pin: string, q: Proposal, past: seq<Event>)
    requires PinsFrom(ps, past) && pin in ps && q.fixed.pin == pin
    ensures PinsFrom(ps[pin := q], past)
    ensures ps[pin].state == Open || q.state == Effective ==> StillEffective(ps, ps[pin := q])
  {
  }

  lemma RulingKeepsOwned(s: State, t: State, pin: string, past: seq<Event>, ev: Event)
    requires Owned(s, past) && NewPin(past, ev.pin)
    requires pin in s.court.proposals && s.court.proposals[pin].state == Open
    requires pin in t.court.proposals && t.court.proposals[pin].state == Effective
    requires t.wiki == JudgeWiki(s.wiki, s.court.proposals[pin].fixed, s.court.challenges)
    requires StillEffective(s.court.proposals, t.court.proposals) && PinsFrom(t.court.proposals, past + [ev])
    ensures Owned(t, past + [ev])
  {
    var p := s.court.proposals[pin];
    JudgingGains(s.wiki, p.fixed, s.court.challenges);
    forall id ensures !Has(s.wiki, id, pin + "::rev") {
      OpenRulingIsFresh(s.wiki, past, s.court.proposals, pin, id);
    }
    if p.fixed.entryKey in s.wiki.at {
      OwnedAfter(s, t, past, ev, s.wiki.at[p.fixed.entryKey], pin + "::rev");
    } else {
      OwnedWithoutGain(s, t, past, ev);
    }
  }

  /** A vote changes the wiki only by the ruling it puts into effect. */
  lemma VoteJudges(s: State, ev: Event)
    requires ev.body.Vote?
    ensures var t := ApplyVote(s, ev, ev.height); var pin := ev.body.proposalPin;
      (pin in s.court.proposals ==> pin in t.court.proposals && t.court.proposals[pin].fixed == s.court.proposals[pin].fixed)
      && (t.wiki != s.wiki ==>
            pin in s.court.proposals && s.court.proposals[pin].state == Open && t.court.proposals[pin].state == Effective
            && t.wiki == JudgeWiki(s.wiki, s.court.proposals[pin].fixed, s.court.challenges))
  {
  }

  lemma ProposeKeepsOwned(o: Options, s: State, ev: Event, past: seq<Event>)
    requires Owned(s, past) && NewPin(past, ev.pin) && ev.body.Propose?
    ensures Owned(ApplyPropose(o, s, ev, ev.height), past + [ev])
  {
    var t := ApplyPropose(o, s, ev, ev.height);
    PinsLater(s.court.proposals, past, ev);
    assert (past + [ev])[|past|].pin == ev.pin;
    ProposeKeepsEffective(o, s, ev, past);
    OwnedWithoutGain(s, t, past, ev);
  }

  lemma ProposeKeepsEffective(o: Options, s: State, ev: Event, past: seq<Event>)
    requires PinsFrom(s.court.proposals, past) && PinsFrom(s.court.proposals, past + [ev])
    requires NewPin(past, ev.pin) && ev.body.Propose?
    ensures var t := ApplyPropose(o, s, ev, ev.height);
      t.wiki == s.wiki && StillEffective(s.court.proposals, t.court.proposals) && PinsFrom(t.court.proposals, past + [ev])
  {
    var t := ApplyPropose(o, s, ev, ev.height);
    ProposeAdds(o, s, ev);
    assert (past + [ev])[|past|].pin == ev.pin;
    assert ev.pin !in s.court.proposals;
    forall pin | pin in t.court.proposals
      ensures t.court.proposals[pin].fixed.pin == pin
      ensures exists i :: 0 <= i < |past + [ev]| && (past + [ev])[i].pin == pin
    {
      assert pin != ev.pin ==> pin in s.court.proposals;
    }
  }

  lemma ProposeAdds(o: Options, s: State, ev: Event)
    requires ev.body.Propose?
    ensures var t := ApplyPropose(o, s, ev, ev.height); var ps := t.court.proposals;
      t.wiki == s.wiki
      && (ps == s.court.proposals
          || (ev.pin in ps && ps == s.court.proposals[ev.pin := ps[ev.pin]] && ps[ev.pin].fixed.pin == ev.pin))
  {
  }

  lemma ChallengeKeepsOwned(o: Options, s: State, ev: Event, past: seq<Event>)
    requires Owned(s, past) && ev.body.ChallengeBody?
    ensures Owned(ApplyChallenge(o, s, ev), past + [ev])
  {
    PinsLater(s.court.proposals, past, ev);
    OwnedWithoutGain(s, ApplyChallenge(o, s, ev), past, ev);
  }

  lemma RevKeepsOwned(o: Options, s: State, ev: Event, past: seq<Event>)
    requires Owned(s, past) && NewPin(past, ev.pin) && ev.body.Rev?
    ensures Owned(ApplyRev(o, s, ev, ev.height), past + [ev])
  {
    var key, u := KeyOfRev(ev.body), ApplyRev(o, s, ev, ev.height);
    var t := s.(wiki := Touch(s.wiki, key));
    var r := RecordAt(t.wiki, key);
    PinsLater(s.court.proposals, past, ev);
    Entries.RevWiki(o, s, ev);
    RevisingGains(o, t, r, ev, ev.height, key);
    var x := if ev.body.edit.Revert? then ev.pin + "::eq" else ev.pin;
    assert (past + [ev])[|past|].pin == ev.pin;
    forall id ensures !Has(s.wiki, id, x) {
      NewPinIsFresh(s.wiki, past, s.court.proposals, ev.pin, id);
    }
    assert Gains(s.wiki, u.wiki, t.wiki.at[key], x);
    OwnedAfter(s, u, past, ev, t.wiki.at[key], x);
  }

  lemma DispatchKeepsOwned(o: Options, s: State, ev: Event, past: seq<Event>)
    requires Owned(s, past) && NewPin(past, ev.pin)
    ensures Owned(Dispatch(o, s, ev), past + [ev])
  {
    if ev.body.Propose? || ev.body.Vote? || ev.body.Rev? || ev.body.ChallengeBody? {
      if s.rules.params.Some? {
        Entries.DispatchIs(o, s, ev);
        if ev.body.Propose? {
          ProposeKeepsOwned(o, s, ev, past);
        } else if ev.body.Vote? {
          VoteKeepsOwned(s, ev, past);
        } else if ev.body.Rev? {
          RevKeepsOwned(o, s, ev, past);
        } else {
          ChallengeKeepsOwned(o, s, ev, past);
        }
      } else {
        Entries.TooEarly(o, s, ev);
        PinsLater(s.court.proposals, past, ev);
        OwnedWithoutGain(s, Dispatch(o, s, ev), past, ev);
      }
    } else {
      Entries.OthersKeepWiki(o, s, ev);
      PinsLater(s.court.proposals, past, ev);
      OwnedWithoutGain(s, Dispatch(o, s, ev), past, ev);
    }
  }

  lemma {:induction false} RunKeepsOwned(o: Options, events: seq<Event>, n: nat)
    requires ChainPins(events) && n <= |events|
    ensures Owned(Run(o, events[..n]), events[..n])
  {
    if n > 0 {
      var m := n - 1;
      RunKeepsOwned(o, events, m);
      NextKeepsOwned(o, events, m);
    }
  }

  lemma NextKeepsOwned(o: Options, events: seq<Event>, n: nat)
    requires ChainPins(events) && n < |events| && Owned(Run(o, events[..n]), events[..n])
    ensures Owned(Run(o, events[..n + 1]), events[..n + 1])
  {
    assert events[..n + 1] == events[..n] + [events[n]];
    PinIsNew(events, n);
    OwnedAfterOne(o, events[..n], events[n]);
  }

  lemma PinIsNew(events: seq<Event>, n: nat)
    requires ChainPins(events) && n < |events|
    ensures NewPin(events[..n], events[n].pin)
  {
  }

  lemma OwnedAfterOne(o: Options, past: seq<Event>, ev: Event)
    requires Owned(Run(o, past), past) && NewPin(past, ev.pin)
    ensures Owned(Run(o, past + [ev]), past + [ev])
  {
    assert (past + [ev])[..|past|] == past;
    StepKeepsOwned(o, Run(o, past), ev, past);
  }

  lemma StepKeepsOwned(o: Options, s: State, ev: Event, past: seq<Event>)
    requires Owned(s, past) && NewPin(past, ev.pin)
    ensures Owned(Step(o, s, ev), past + [ev])
  {
    ClosingKeepsOwned(s, ev.height, past);
    DispatchKeepsOwned(o, CloseExpired(s, ev.height), ev, past);
  }

  /** After any run, transfers included, all keys that hold a revision stand for
    * one record, so it does not matter where a scan finds it first. */
  lemma RevisionsHaveOneOwner(o: Options, events: seq<Event>, a: string, b: string, rev: string)
    requires ChainPins(events)
    requires Holds(Run(o, events).wiki, a, rev) && Holds(Run(o, events).wiki, b, rev)
    ensures Run(o, events).wiki.at[a] == Run(o, events).wiki.at[b]
  {
    assert events[..|events|] == events;
    RunKeepsOwned(o, events, |events|);
    OneOwner(Run(o, events), events, a, b, rev);
  }

  lemma OneOwner(s: State, past: seq<Event>, a: string, b: string, rev: string)
    requires Owned(s, past) && Holds(s.wiki, a, rev) && Holds(s.wiki, b, rev)
    ensures s.wiki.at[a] == s.wiki.at[b]
  {
    assert Has(s.wiki, s.wiki.at[a], rev) && Has(s.wiki, s.wiki.at[b], rev);
  }

  // ---- Keys have a name ----

  /** No entry has the empty key, and no transfer would make one. */
  ghost predicate Named(s: State) {
    "" !in s.wiki.at
    && forall pin :: pin in s.court.proposals ==> NamesTarget(s.court.proposals[pin].fixed.outcome)
  }

  predicate NamesTarget(outcome: Outcome) {
    outcome.TransferSlug? ==> outcome.toEntry != ""
  }

  lemma StepKeepsNamed(o: Options, s: State, ev: Event)
    requires Named(s) && Anchored(s.wiki)
    ensures Named(Step(o, s, ev))
  {
    var t := CloseExpired(s, ev.height);
    ClosingGainsNothing(CanonicalJson.SortedKeys(s.court.proposals.Keys), s.court.proposals, s.wiki, ev.height);
    assert Named(t);
    if !ev.body.Propose? && !ev.body.Vote? && !ev.body.Rev? && !ev.body.ChallengeBody? {
      Entries.OthersKeepWiki(o, t, ev);
    } else if t.rules.params == None {
      Entries.TooEarly(o, t, ev);
    } else {
      Entries.DispatchIs(o, t, ev);
      if ev.body.Propose? {
        ProposeKeepsNamed(o, t, ev);
      } else if ev.body.Vote? {
        VoteKeepsNamed(t, ev);
      } else if ev.body.Rev? {
        Entries.RevWiki(o, t, ev);
      } else {
        ChallengeKeepsNamed(o, t, ev);
      }
    }
  }

  lemma ProposeKeepsNamed(o: Options, s: State, ev: Event)
    requires Named(s) && ev.body.Propose?
    ensures Named(ApplyPropose(o, s, ev, ev.height))
  {
  }

  lemma VoteKeepsNamed(s: State, ev: Event)
    requires Named(s) && ev.body.Vote?
    ensures Named(ApplyVote(s, ev, ev.height))
  {
  }

  lemma ChallengeKeepsNamed(o: Options, s: State, ev: Event)
    requires Named(s) && ev.body.ChallengeBody?
    ensures Named(ApplyChallenge(o, s, ev))
  {
  }

  lemma {:induction false} RunKeepsNamed(o: Options, events: seq<Event>)
    requires ChainPins(events)
    ensures Named(Run(o, events))
  {
    if events != [] {
      var n := |events| - 1;
      RunKeepsNamed(o, events[..n]);
      RunKeepsOwned(o, events, n);
      StepKeepsNamed(o, Run(o, events[..n]), events[n]);
    }
  }

  // ---- One register per endorsement ----

  /** Every satisfied registration was satisfied by an event, each by its own. */
  ghost predicate Registered(regs: map<string, Registration>, past: seq<Event>) {
    (forall k :: k in regs && regs[k].stakeOk ==> exists i :: 0 <= i < |past| && past[i].pin == regs[k].registerPin)
    && forall k, j :: k in regs && j in regs && SameRegister(regs[k], regs[j]) ==> k == j
  }

  predicate SameRegister(a: Registration, b: Registration) {
    a.stakeOk && b.stakeOk && a.registerPin == b.registerPin
  }

  lemma OthersKeepRegistrations(o: Options, s: State, ev: Event)
    requires !ev.body.Editing?
    ensures Dispatch(o, s, ev).registry.registrations == s.registry.registrations
  {
    if ev.body.Rev? {
      RevKeepsRegistrations(o, s, ev);
    }
  }

  lemma RevKeepsRegistrations(o: Options, s: State, ev: Event)
    requires ev.body.Rev?
    ensures ApplyRev(o, s, ev, ev.height).registry.registrations == s.registry.registrations
  {
  }

  /** What a registration event does to the registrations. */
  lemma EditorRegistrations(o: Options, s: State, ev: Event)
    requires ev.body.Editing?
    ensures var regs := s.registry.registrations; var after := ApplyEditor(o, s, ev, ev.height).registry.registrations;
      after == regs
      || (exists rc: Registration :: !rc.stakeOk && after == regs[ev.pin := rc])
      || (exists k, rc: Registration ::
            k in regs && after == regs[k := rc]
            && (if rc.registerPin == ev.pin then true
                else rc.stakeOk == regs[k].stakeOk && rc.registerPin == regs[k].registerPin))
  {
    match ev.body.action
    case PocResponse(challengePin, _) => PocRegistrations(o, EnsureEditor(s, ev.body.editor), ev, ev.height);
    case Register(challengePin, _, _) => RegisterRegistrations(EnsureEditor(s, ev.body.editor), ev, ev.height);
    case _ =>
  }

  lemma PocRegistrations(o: Options, s: State, ev: Event, h: int)
    requires ev.body.Editing? && ev.body.action.PocResponse?
    ensures var a := ev.body.action; var regs := s.registry.registrations;
      var after := ApplyPoc(o, s, ev, h, a.challengePin, a.responsePin).registry.registrations;
      after == regs
      || (a.challengePin in regs && after == regs[a.challengePin := regs[a.challengePin].(pocOk := true)])
  {
  }

  lemma RegisterRegistrations(s: State, ev: Event, h: int)
    requires ev.body.Editing? && ev.body.action.Register?
    ensures var a := ev.body.action; var regs := s.registry.registrations;
      var after := ApplyRegister(s, ev, h, a.challengePin, a.stakeTxid, a.amountSat).registry.registrations;
      after == regs
      || (a.challengePin in regs && a.challengePin in after
          && after == regs[a.challengePin := after[a.challengePin]] && after[a.challengePin].registerPin == ev.pin)
  {
  }

  lemma StepKeepsRegistered(o: Options, s: State, ev: Event, past: seq<Event>)
    requires Registered(s.registry.registrations, past) && forall i :: 0 <= i < |past| ==> past[i].pin != ev.pin
    ensures Registered(Step(o, s, ev).registry.registrations, past + [ev])
  {
    var t := CloseExpired(s, ev.height);
    var regs := s.registry.registrations;
    RegisteredLater(regs, past, ev);
    if !ev.body.Editing? {
      OthersKeepRegistrations(o, t, ev);
    } else if t.rules.params.Some? {
      EditorRegistrations(o, t, ev);
      RegisteredAfter(regs, ApplyEditor(o, t, ev, ev.height).registry.registrations, past, ev);
    }
  }

  lemma RegisteredLater(regs: map<string, Registration>, past: seq<Event>, ev: Event)
    requires Registered(regs, past)
    ensures Registered(regs, past + [ev])
  {
    forall k | k in regs && regs[k].stakeOk
      ensures exists i :: 0 <= i < |past + [ev]| && (past + [ev])[i].pin == regs[k].registerPin
    {
      var i :| 0 <= i < |past| && past[i].pin == regs[k].registerPin;
      assert (past + [ev])[i].pin == regs[k].registerPin;
    }
  }

  lemma RegisteredAfter(regs: map<string, Registration>, after: map<string, Registration>, past: seq<Event>, ev: Event)
    requires Registered(regs, past) && Registered(regs, past + [ev])
    requires forall i :: 0 <= i < |past| ==> past[i].pin != ev.pin
    requires after == regs
      || (exists rc: Registration :: !rc.stakeOk && after == regs[ev.pin := rc])
      || (exists k, rc: Registration ::
            k in regs && after == regs[k := rc]
            && (if rc.registerPin == ev.pin then true
                else rc.stakeOk == regs[k].stakeOk && rc.registerPin == regs[k].registerPin))
    ensures Registered(after, past + [ev])
  {
    assert (past + [ev])[|past|].pin == ev.pin;
    forall k | k in regs && regs[k].stakeOk ensures regs[k].registerPin != ev.pin {
    }
  }

  /** The register an endorsement is for is unique. */
  lemma EndorsedIsUnique(regs: map<string, Registration>, past: seq<Event>, applicant: string, declared: string,
                         k: string, j: string)
    requires Registered(regs, past)
    requires IsEndorsed(regs, applicant, declared, k) && IsEndorsed(regs, applicant, declared, j)
    ensures k == j
  {
    StringTrichotomy(regs[k].registerPin, regs[j].registerPin);
  }

  lemma {:induction false} RunKeepsRegistered(o: Options, events: seq<Event>)
    requires Rulings.DistinctPins(events)
    ensures Registered(Run(o, events).registry.registrations, events)
  {
    if events != [] {
      var front, ev := events[..|events| - 1], events[|events| - 1];
      RunKeepsRegistered(o, front);
      StepKeepsRegistered(o, Run(o, front), ev, front);
      assert events == front + [ev];
    }
  }

  // ---- Batches in any order ----

  function ByChain(a: Event, b: Event): bool {
    if a.height != b.height then a.height < b.height else a.txIndex < b.txIndex
  }

  function Confirmed(e: Event): bool {
    e.height >= 0
  }

  /** The stream a replay applies. */
  function Stream(events: seq<Event>): seq<Event> {
    StableSort(ByChain, Select(Confirmed, events))
  }

  function Pending(events: seq<Event>): seq<string> {
    Map((e: Event) => e.pin, Select(e => !Confirmed(e), events))
  }

  lemma PendingGrows(events: seq<Event>, e: Event)
    ensures Pending(events + [e]) == if Confirmed(e) then Pending(events) else Pending(events) + [e.pin]
  {
    SelectSnoc(x => !Confirmed(x), events, e);
  }

  ghost function Replayed(o: Options, events: seq<Event>): State {
    Finished(o, Stream(events))
  }

  ghost function Finished(o: Options, stream: seq<Event>): State {
    CloseExpired(Run(o, stream), LastHeight(stream) + 1)
  }

  function LastHeight(stream: seq<Event>): int {
    if stream == [] then 0 else stream[|stream| - 1].height
  }

  predicate SamePlace(a: Event, b: Event) {
    a.height == b.height && a.txIndex == b.txIndex
  }

  /** Confirmed events of one place are equal. */
  ghost predicate OnePerPlace(events: seq<Event>) {
    forall i, j :: 0 <= i < j < |events| && Confirmed(events[i]) && Confirmed(events[j]) && SamePlace(events[i], events[j]) ==>
      events[i] == events[j]
  }

  lemma ByChainSorts()
    ensures WeakOrder(ByChain)
  {
  }

  /** One place, one event: sorting leaves no ties. */
  lemma StreamIsSettled(events: seq<Event>)
    ensures Sorted(ByChain, Stream(events)) && multiset(Stream(events)) == multiset(Select(Confirmed, events))
    ensures OnePerPlace(events) ==> NoTies(ByChain, Stream(events))
  {
    var chosen, s := Select(Confirmed, events), Stream(events);
    ByChainSorts();
    StableSortSorts(ByChain, chosen);
    StableSortKeeps(ByChain, chosen);
    if OnePerPlace(events) {
      forall i, j | 0 <= i < j < |s| && !ByChain(s[i], s[j]) && !ByChain(s[j], s[i])
        ensures s[i] == s[j]
      {
        assert s[i] in s && s[j] in s;
        var p :| 0 <= p < |events| && events[p] == s[i];
        var q :| 0 <= q < |events| && events[q] == s[j];
      }
    }
  }

  lemma SameStream(a: seq<Event>, b: seq<Event>)
    requires multiset(a) == multiset(b) && OnePerPlace(a)
    ensures Stream(a) == Stream(b)
  {
    SelectSameMultiset(Confirmed, a, b);
    StreamIsSettled(a);
    StreamIsSettled(b);
    SortedIsUnique(ByChain, Stream(a), Stream(b));
  }

  /** The events of one place, in the order they were pulled. */
  function HereIs(e: Event): Event -> bool {
    (x: Event) => SamePlace(x, e)
  }

  /** Events of one place replay in the order they were pulled. */
  lemma PlaceKeepsOrder(events: seq<Event>, e: Event)
    ensures Select(HereIs(e), Stream(events)) == Select(HereIs(e), Select(Confirmed, events))
  {
    ByChainSorts();
    SelectSorted(ByChain, HereIs(e), Select(Confirmed, events));
    var here := Select(HereIs(e), Select(Confirmed, events));
    forall i, j | 0 <= i < j < |here|
      ensures !ByChain(here[j], here[i])
    {
      assert here[i] in here && here[j] in here;
    }
    SortedStays(ByChain, here);
  }

  lemma FirstHere(x: Event, y: Event, rest: seq<Event>)
    requires Confirmed(x) && Confirmed(y) && SamePlace(x, y)
    ensures var here := Select(HereIs(x), Stream([x, y] + rest)); here != [] && here[0] == x
  {
    PlaceKeepsOrder([x, y] + rest, x);
    assert [x, y] + rest == [x] + ([y] + rest);
    SelectCons(Confirmed, x, [y] + rest);
    SelectCons(HereIs(x), x, Select(Confirmed, [y] + rest));
  }

  lemma SwappedPlaceShows(x: Event, y: Event, rest: seq<Event>)
    requires Confirmed(x) && Confirmed(y) && SamePlace(x, y) && x != y
    ensures Stream([x, y] + rest) != Stream([y, x] + rest)
  {
    FirstHere(x, y, rest);
    FirstHere(y, x, rest);
    SamePlaceSelects(x, y, Stream([y, x] + rest));
  }

  lemma {:induction false} SamePlaceSelects(x: Event, y: Event, s: seq<Event>)
    requires SamePlace(x, y)
    ensures Select(HereIs(x), s) == Select(HereIs(y), s)
  {
    if s != [] {
      SamePlaceSelects(x, y, s[1..]);
    }
  }

  /** However the events are pulled, one stream is replayed. */
  ghost predicate OneStream(events: seq<Event>) {
    forall b :: multiset(b) == multiset(events) ==> Stream(b) == Stream(events)
  }

  lemma PullOrderLeaks(events: seq<Event>, i: nat, j: nat)
    requires i < j < |events| && Confirmed(events[i]) && Confirmed(events[j]) && SamePlace(events[i], events[j])
    requires events[i] != events[j]
    ensures !OneStream(events)
  {
    var rest := InFront(events, i, j);
    SwappedPlaceShows(events[i], events[j], rest);
    assert Stream([events[i], events[j]] + rest) != Stream(events) || Stream([events[j], events[i]] + rest) != Stream(events);
  }

  /** All orders in which the events can be pulled give one stream exactly when
    * confirmed events of one place are equal. */
  lemma OneStreamIffOnePerPlace(events: seq<Event>)
    ensures OneStream(events) <==> OnePerPlace(events)
  {
    if OnePerPlace(events) {
      forall b | multiset(b) == multiset(events)
        ensures Stream(b) == Stream(events)
      {
        SameStream(events, b);
      }
    } else {
      var i, j :| 0 <= i < j < |events| && Confirmed(events[i]) && Confirmed(events[j]) && SamePlace(events[i], events[j])
        && events[i] != events[j];
      PullOrderLeaks(events, i, j);
    }
  }

  /** Batches pulled in any order give the state one replay of all events gives,
    * expired proposals being closed in one fixed order. */
  lemma PullOrderDoesNotMatter(o: Options, a: seq<Event>, b: seq<Event>)
    requires multiset(a) == multiset(b) && OnePerPlace(a)
    ensures Replayed(o, a) == Replayed(o, b)
  {
    SameStream(a, b);
  }

  /** and the same pending pins up to their order. */
  lemma PullOrderOnlyReordersPending(a: seq<Event>, b: seq<Event>)
    requires multiset(a) == multiset(b)
    ensures multiset(Pending(a)) == multiset(Pending(b))
  {
    SelectSameMultiset(e => !Confirmed(e), a, b);
    MapSameMultiset((e: Event) => e.pin, Select(e => !Confirmed(e), a), Select(e => !Confirmed(e), b));
  }
}
