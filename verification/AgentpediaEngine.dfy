/** The Agentpedia engine as it runs: an object whose fields the events update
  * in place, with loops that range over maps in no particular order.
  */
module AgentpediaEngine {
  import opened ChainEvents
  import opened Sorting
  import opened Agentpedia
  import CanonicalJson
  import Rulings = AgentpediaRulings
  import Order = AgentpediaOrder

  /** All keys that hold a revision stand for one record, and no two
    * registrations were satisfied by one event. */
  ghost predicate Unambiguous(s: State) {
    OneHolder(s.wiki) && UniqueRegisters(s.registry.registrations)
  }

  ghost predicate UniqueRegisters(regs: map<string, Registration>) {
    forall k, j :: k in regs && j in regs && Order.SameRegister(regs[k], regs[j]) ==> k == j
  }

  ghost predicate OneHolder(w: Wiki) {
    "" !in w.at && forall a, b, rev :: Holds(w, a, rev) && Holds(w, b, rev) ==> w.at[a] == w.at[b]
  }

  ghost function ClosedIn(order: seq<string>, s: State, h: int): State {
    s.(wiki := CloseIn(order, s.court.proposals, s.wiki, h),
       court := s.court.(proposals := VoidAll(s.court.proposals, h)))
  }

  lemma OwnerIsRecorded(w: Wiki, rev: string, k: string)
    requires OneHolder(w) && rev != "" && Holds(w, k, rev)
    ensures k in Holders(w, rev)
    ensures var recorded := RecordAt(w, k).pages.versions[rev].entryKey;
      k in CanonicalJson.SortedKeys(Holders(w, rev))
      && OwnerKey(w, rev) == if recorded != "" && Holds(w, recorded, rev) then recorded
                          else CanonicalJson.SortedKeys(Holders(w, rev))[0]
  {
    assert k in Holders(w, rev);
    forall j | j in Holders(w, rev) ensures RecordAt(w, j) == RecordAt(w, k) {
    }
  }

  lemma LeastIsFirst(keys: set<string>, key: string)
    requires key in keys && forall k :: k in keys ==> k == key || StringLess(key, k)
    ensures CanonicalJson.SortedKeys(keys)[0] == key
  {
    var s := CanonicalJson.SortedKeys(keys);
    assert key in s;
    assert s[0] in s;
    StringLessStrict(s[0], key);
  }

  class Engine {
    const options: Options
    var rules: Rules
    var registry: Registry
    var wiki: Wiki
    var court: Court
    var counts: Counts
    var graveyard: seq<Grave>

    function Now(): State
      reads this
    {
      State(rules, registry, wiki, court, counts, graveyard)
    }

    constructor (o: Options)
      ensures options == o && Now() == Start
    {
      options := o;
      rules, registry, wiki := Start.rules, Start.registry, Start.wiki;
      court, counts, graveyard := Start.court, Start.counts, Start.graveyard;
    }

    method Bury(pin: string, reason: Reason)
      modifies this`graveyard
      ensures Now() == Agentpedia.Bury(old(Now()), pin, reason)
    {
      graveyard := graveyard + [Grave(pin, reason)];
    }

    /** Voids what has expired and thaws its records, in whatever order the
      * proposals are met. */
    method CloseExpired(h: int) returns (ghost order: seq<string>)
      modifies this`wiki, this`court
      ensures Order.Lists(order, old(court.proposals))
      ensures Now() == ClosedIn(order, old(Now()), h)
    {
      order := [];
      var todo := court.proposals.Keys;
      ghost var ps := court.proposals;
      while todo != {}
        invariant todo <= ps.Keys == court.proposals.Keys
        invariant forall pin :: pin in order <==> pin in ps && pin !in todo
        invariant forall i, j :: 0 <= i < j < |order| ==> order[i] != order[j]
        invariant forall pin :: pin in ps ==> court.proposals[pin] == if pin in todo then ps[pin] else VoidOne(ps[pin], h)
        invariant court == old(court).(proposals := court.proposals)
        invariant wiki == CloseIn(order, ps, old(wiki), h)
        decreases todo
      {
        var pin :| pin in todo;
        todo := todo - {pin};
        assert (order + [pin])[..|order|] == order;
        order := order + [pin];
        CloseProposal(pin, h);
      }
      assert court.proposals == VoidAll(ps, h);
    }

    method CloseProposal(pin: string, h: int)
      requires pin in court.proposals
      modifies this`wiki, this`court
      ensures court == old(court).(proposals := old(court.proposals)[pin := VoidOne(old(court.proposals[pin]), h)])
      ensures wiki == CloseOne(old(wiki), old(court.proposals[pin]), h)
    {
      var p := court.proposals[pin];
      if p.state == Open && h >= p.fixed.expiryH {
        court := court.(proposals := court.proposals[pin := p.(state := Voided)]);
        var key := p.fixed.entryKey;
        if key != "" && key in wiki.at {
          var r := RecordAt(wiki, key);
          if r.guard.status == Frozen {
            if p.fixed.baselineRev != "" {
              r := r.(pages := r.pages.(head := p.fixed.baselineRev));
            }
            r := r.(guard := r.guard.(status := Normal));
          }
          wiki := SetRecord(wiki, key, r);
        }
      } else {
        assert court.proposals[pin := p] == court.proposals;
      }
    }

    /** The entry a revision belongs to, by scans in no particular order. */
    method OwnerOf(rev: string) returns (key: string)
      ensures OneHolder(wiki) ==> key == OwnerKey(wiki, rev)
    {
      if rev == "" {
        return "";
      }
      var recorded := "";
      ghost var from := "";
      var todo := wiki.at.Keys;
      while todo != {}
        invariant todo <= wiki.at.Keys
        invariant recorded == "" && forall k :: k in wiki.at && k !in todo ==> !Holds(wiki, k, rev)
        decreases todo
      {
        var k :| k in todo;
        todo := todo - {k};
        if rev in RecordAt(wiki, k).pages.versions {
          recorded := RecordAt(wiki, k).pages.versions[rev].entryKey;
          from := k;
          break;
        }
      }
      if recorded != "" && recorded in wiki.at && rev in RecordAt(wiki, recorded).pages.versions {
        if OneHolder(wiki) {
          OwnerIsRecorded(wiki, rev, from);
        }
        return recorded;
      }
      key := SmallestHolder(rev);
      if OneHolder(wiki) && Holders(wiki, rev) != {} {
        LeastIsFirst(Holders(wiki, rev), key);
        OwnerIsRecorded(wiki, rev, from);
      }
    }

    method SmallestHolder(rev: string) returns (key: string)
      ensures "" !in wiki.at ==>
        if Holders(wiki, rev) == {} then key == ""
        else key in Holders(wiki, rev) && forall k :: k in Holders(wiki, rev) ==> k == key || StringLess(key, k)
    {
      key := "";
      var todo := wiki.at.Keys;
      ghost var found: set<string> := {};
      while todo != {}
        invariant todo <= wiki.at.Keys
        invariant found == Holders(wiki, rev) - todo
        invariant "" !in wiki.at ==> Smallest(found, key)
        decreases todo
      {
        var k :| k in todo;
        todo := todo - {k};
        if rev in RecordAt(wiki, k).pages.versions {
          SmallestOf(found, key, k);
          found := found + {k};
          if key == "" || StringLess(k, key) {
            key := k;
          }
        }
      }
    }

    // ---- Registers and arbiters ----

    /** The register an endorsement is for, by scans in no particular order. */
    method FindRegister(applicant: string, declared: string) returns (target: Option<Registration>)
      ensures UniqueRegisters(registry.registrations) ==> target == Endorsed(registry.registrations, applicant, declared)
    {
      var regs := registry.registrations;
      target := None;
      ghost var at := "";
      if declared != "" {
        var todo := regs.Keys;
        while todo != {}
          invariant todo <= regs.Keys
          invariant forall k :: k in regs && k !in todo ==> !Declares(regs, applicant, declared, k)
          decreases todo
        {
          var k :| k in todo;
          todo := todo - {k};
          if regs[k].applicant == applicant && regs[k].stakeOk && regs[k].registerPin == declared {
            if UniqueRegisters(regs) {
              EndorsedIs(regs, applicant, declared, k);
            }
            return Some(regs[k]);
          }
        }
      }
      var todo := regs.Keys;
      while todo != {}
        invariant todo <= regs.Keys
        invariant Best(regs, applicant, Eligible(regs, applicant) - todo, target, at)
        decreases todo
      {
        var k :| k in todo;
        todo := todo - {k};
        if regs[k].applicant == applicant && regs[k].stakeOk {
          var better := target == None || RegisteredBefore(regs[k], target.value);
          BestOf(regs, applicant, Eligible(regs, applicant) - (todo + {k}), target, at, k);
          assert Eligible(regs, applicant) - todo == Eligible(regs, applicant) - (todo + {k}) + {k};
          if better {
            target, at := Some(regs[k]), k;
          }
        } else {
          assert Eligible(regs, applicant) - todo == Eligible(regs, applicant) - (todo + {k});
        }
      }
      assert Eligible(regs, applicant) - todo == Eligible(regs, applicant);
      if UniqueRegisters(regs) {
        if target.Some? {
          EndorsedIs(regs, applicant, declared, at);
        }
      }
    }

    /** The T2 editors, and the draw among them. */
    method Draw(seed: string, h: int) returns (drawn: seq<string>)
      ensures drawn == ArbiterDraw(options, seed, Candidates(options, rules, registry, h), IntParam(rules, "arbiterDrawN", 7.0))
    {
      var ids: seq<string> := [];
      var todo := registry.editors.Keys;
      ghost var all := Candidates(options, rules, registry, h);
      while todo != {}
        invariant todo <= registry.editors.Keys
        invariant CanonicalJson.Lists(ids, all - todo)
        decreases todo
      {
        var id :| id in todo;
        todo := todo - {id};
        if TierOf(options, rules, registry, id, h) == T2 {
          ids := ids + [id];
        }
      }
      assert all - todo == all;
      ids := CanonicalJson.SortStrings(ids, all);
      drawn := FirstOf(StableSort(DrawnBefore(options, seed), ids), IntParam(rules, "arbiterDrawN", 7.0));
    }

    // ---- Rulings ----

    /** Puts a ruling into effect; runs when its proposal leaves open. */
    method ApplyOutcome(pin: string, p: Proposal)
      modifies this`court, this`wiki, this`registry
      ensures Now() == Agentpedia.ApplyOutcome(old(Now()), pin, p)
    {
      var c := p.fixed;
      court := court.(proposals := court.proposals[pin := p.(state := Effective)]);
      if c.entryKey != "" {
        if c.outcome.TransferSlug? {
          if c.outcome.fromEntry in wiki.at {
            var from, to := c.outcome.fromEntry, c.outcome.toEntry;
            wiki := wiki.(at := wiki.at[to := wiki.at[from]]);
            if BareSlug(to) != "" {
              wiki := wiki.(aliasOf := wiki.aliasOf[from := BareSlug(to)]);
            }
          }
        } else {
          wiki := SetRecord(wiki, c.entryKey, JudgeRecord(RecordAt(wiki, c.entryKey), c, court.challenges));
        }
      }
      var id := Judged(c.outcome);
      if id != "" {
        var e := EditorOf(registry, id);
        e := e.(reputation := e.reputation + Delta(c.outcome));
        if c.outcome.BanEditor? {
          e := e.(banned := true);
        }
        registry := SetEditor(registry, id, e);
      }
    }

    method ApplyPropose(ev: Event, h: int)
      requires ev.body.Propose?
      modifies this`court, this`graveyard
      ensures Now() == Agentpedia.ApplyPropose(options, old(Now()), ev, h)
    {
      var b := ev.body;
      if !Active(options, rules, registry, ev.sender, h) {
        Bury(ev.pin, Unregistered);
        return;
      }
      if b.challengePin !in court.challenges {
        Bury(ev.pin, RulingChallengeMissing);
        return;
      }
      if b.seed != b.challengePin {
        Bury(ev.pin, RulingSeedMismatch);
        return;
      }
      var key := court.challenges[b.challengePin].entryKey;
      var r := RecordAt(wiki, key);
      if r.guard.status == Frozen {
        if b.baselineRev == "" || b.baselineRev != r.guard.baselineRev {
          Bury(ev.pin, BaselineRevMismatch);
          return;
        }
      } else if b.baselineRev != "" {
        Bury(ev.pin, BaselineRevNotNull);
        return;
      }
      if !OutcomeOk(r, b.outcome) {
        Bury(ev.pin, RulingParamsMissing);
        return;
      }
      var expiryH := h + IntParam(rules, "voteWindowHours", 48.0) * BlocksPerHour(options);
      var arbiters := Arbiters(ev.pin, b.challengePin, h);
      var fixed := Case(ev.pin, b.challengePin, b.outcome, ev.sender, h, expiryH, arbiters, key, b.baselineRev);
      court := court.(proposals := court.proposals[ev.pin := Proposal(fixed, Open, {}, {})]);
    }

    method Arbiters(pin: string, challengePin: string, h: int) returns (arbiters: seq<string>)
      ensures arbiters == Snapshot(options, rules, registry, pin, challengePin, h)
    {
      if pin in options.arbiterOverrides {
        return options.arbiterOverrides[pin];
      }
      arbiters := Draw(challengePin, h);
    }

    method ApplyVote(ev: Event, h: int)
      requires ev.body.Vote?
      modifies this`court, this`wiki, this`registry, this`graveyard
      ensures Now() == Agentpedia.ApplyVote(old(Now()), ev, h)
    {
      var pin := ev.body.proposalPin;
      if pin !in court.proposals || court.proposals[pin].state != Open || h > court.proposals[pin].fixed.expiryH {
        Bury(ev.pin, VoteOnClosedProposal);
        return;
      }
      var p := court.proposals[pin];
      if ev.sender in p.voters {
        Bury(ev.pin, DuplicateVote);
        return;
      }
      p := p.(voters := p.voters + {ev.sender});
      court := court.(proposals := court.proposals[pin := p]);
      if ev.body.approve && ev.sender in p.fixed.arbiters {
        p := p.(approves := p.approves + {ev.sender});
        court := court.(proposals := court.proposals[pin := p]);
        if |p.approves| >= Quorum(rules) {
          ApplyOutcome(pin, p);
        }
      }
    }

    // ---- Revisions ----

    method CountRev(sender: string, key: string, h: int)
      modifies this`counts, this`registry
      ensures Now() == Agentpedia.CountRev(options, old(Now()), sender, key, h)
    {
      var root, day := CountRoot(options, sender), Day(options, rules, h);
      counts := counts.(perDay := counts.perDay[(root, day) := DayCount(counts, (root, day)) + 1]);
      counts := counts.(perSlug := counts.perSlug[(root, day, key) := SlugCount(counts, (root, day, key)) + 1]);
      var e := EditorOf(registry, sender);
      registry := SetEditor(registry, sender, e.(validRevs := e.validRevs + 1));
    }

    /** The books of an edit war after one more revert. */
    method BookRevert(ev: Event, h: int, key: string, head: string, g: Guard) returns (war: Guard)
      requires ev.body.Rev? && ev.body.edit.Revert?
      ensures war == War(options, Now(), ev, h, key, head, g)
    {
      var root, vf := CountRoot(options, ev.sender), ev.body.edit.vandalismFix;
      var after := h - IntParam(rules, "revertWarWindowHours", 6.0) * BlocksPerHour(options);
      var kept: seq<RevertWeight> := [];
      for i := 0 to |g.reverts|
        invariant kept == Select(Recent(after), g.reverts[..i])
      {
        assert g.reverts[..i + 1] == g.reverts[..i] + [g.reverts[i]];
        SelectSnoc(Recent(after), g.reverts[..i], g.reverts[i]);
        if g.reverts[i].h > after {
          kept := kept + [g.reverts[i]];
        }
      }
      assert g.reverts[..|g.reverts|] == g.reverts;
      kept := kept + [RevertWeight(h, root, WeightOf(g.reverts, root, vf), vf)];
      var cumulative := 0.0;
      for i := 0 to |kept|
        invariant cumulative == TotalWeight(kept[..i])
      {
        assert kept[..i + 1][..i] == kept[..i];
        cumulative := cumulative + kept[i].weight;
      }
      assert kept[..|kept|] == kept;
      war := g.(reverts := kept);
      if g.status == Normal && cumulative >= Param(rules, "revertWarThreshold", 3.0) {
        var arbiters;
        if key in options.frozenArbiterOverrides {
          arbiters := options.frozenArbiterOverrides[key];
        } else {
          arbiters := Draw(ev.pin, h);
        }
        war := Guard(Frozen, ev.pin, head, arbiters, kept);
      }
    }

    /** Works out a revision, counting it if it is accepted. */
    method ReviseRecord(r: Record, ev: Event, h: int, key: string) returns (revised: Revised)
      requires ev.body.Rev?
      modifies this`counts, this`registry
      ensures revised == Revise(options, old(Now()), r, ev, h, key)
      ensures Now() == if revised.Accepted? then Agentpedia.CountRev(options, old(Now()), ev.sender, r.key, h) else old(Now())
    {
      match ev.body.edit {
        case Create => revised := CreatePage(r, ev, key);
        case Change(_, _) => revised := ChangePage(r, ev, key);
        case Revert(_, _) =>
          revised := RevertRecord(r, ev, h, key);
          return;
        case Redirect(_) => revised := RedirectPage(Now(), r, ev);
        case UnknownEdit => revised := Refused(RevTypeUnknown);
      }
      if revised.Accepted? {
        CountRev(ev.sender, r.key, h);
      }
    }

    method RevertRecord(r: Record, ev: Event, h: int, key: string) returns (revised: Revised)
      requires ev.body.Rev? && ev.body.edit.Revert?
      modifies this`counts, this`registry
      ensures revised == RevertPage(options, old(Now()), r, ev, h, key)
      ensures Now() == if revised.Accepted? then Agentpedia.CountRev(options, old(Now()), ev.sender, r.key, h) else old(Now())
    {
      var rev, p := ev.body.edit.revertTo, r.pages;
      if p.head == "" {
        return Refused(RevertWithoutEntry);
      }
      if rev !in p.versions {
        var cross := Somewhere(rev);
        return Refused(if cross then RevertEntryMismatch else RevertTargetUnresolvable);
      }
      var target := p.versions[rev];
      if target.entryKey != key {
        return Refused(RevertEntryMismatch);
      }
      if ev.body.contentHash != target.contentHash {
        return Refused(RevertHashMismatch);
      }
      var v := Version(target.contentHash, ev.sender, p.head, "", "", key, ev.pin);
      CountRev(ev.sender, r.key, h);
      var war := BookRevert(ev, h, key, p.head, r.guard);
      revised := Accepted(r.(pages := AddPage(p, ev.pin + "::eq", v), guard := war));
    }

    method Somewhere(rev: string) returns (found: bool)
      ensures found <==> exists k :: k in wiki.at && Holds(wiki, k, rev)
    {
      var todo := wiki.at.Keys;
      while todo != {}
        invariant todo <= wiki.at.Keys
        invariant forall k :: k in wiki.at && k !in todo ==> !Holds(wiki, k, rev)
        decreases todo
      {
        var k :| k in todo;
        todo := todo - {k};
        if rev in RecordAt(wiki, k).pages.versions {
          assert Holds(wiki, k, rev);
          return true;
        }
      }
      found := false;
    }

    method ApplyRev(ev: Event, h: int)
      requires ev.body.Rev?
      modifies this
      ensures Now() == Agentpedia.ApplyRev(options, old(Now()), ev, h)
    {
      var key := KeyOfRev(ev.body);
      wiki := Touch(wiki, key);
      var r := RecordAt(wiki, key);
      var gate := RevGate(options, Now(), ev.sender, r, h);
      if gate.Some? {
        Bury(ev.pin, gate.value);
        return;
      }
      var revised := ReviseRecord(r, ev, h, key);
      if revised.Refused? {
        Bury(ev.pin, revised.reason);
        return;
      }
      wiki := SetRecord(wiki, key, revised.record);
    }

    // ---- Registration ----

    method ApplyEditor(ev: Event, h: int)
      requires ev.body.Editing?
      modifies this`registry, this`graveyard
      ensures UniqueRegisters(old(registry.registrations)) ==>
        Now() == Agentpedia.ApplyEditor(options, old(Now()), ev, h)
    {
      var applicant := ev.body.editor;
      registry := SetEditor(registry, applicant, EditorOf(registry, applicant));
      match ev.body.action {
        case RegChallenge =>
          if !Active(options, rules, registry, ev.sender, h) {
            Bury(ev.pin, Unregistered);
          } else {
            SetRegistration(ev.pin, Registration(applicant, ev.sender, h, false, false, 0, 0, ""));
          }
        case PocResponse(challengePin, responsePin) => ApplyPoc(ev, h, challengePin, responsePin);
        case Register(challengePin, txid, amount) => ApplyRegister(ev, h, challengePin, txid, amount);
        case Endorse(declared) => ApplyEndorse(ev, h, applicant, declared);
        case Suspend(rulingPin) =>
          if !MayEnforce(options, Now(), ev.sender, rulingPin, h) {
            Bury(ev.pin, SuspendUnauthorized);
          } else {
            var until := h + IntParam(rules, "arbiterSuspensionDays", 30.0) * BlocksPerDay(options);
            registry := SetEditor(registry, applicant, EditorOf(registry, applicant).(suspensionUntil := until));
          }
        case Revoke(rulingPin) =>
          if !MayEnforce(options, Now(), ev.sender, rulingPin, h) {
            Bury(ev.pin, RevokeUnauthorized);
          } else {
            registry := SetEditor(registry, applicant, EditorOf(registry, applicant).(revoked := true));
          }
        case UnknownAction => Bury(ev.pin, EditorActionUnknown);
      }
    }

    method SetRegistration(pin: string, rc: Registration)
      modifies this`registry
      ensures Now() == Agentpedia.SetRegistration(old(Now()), pin, rc)
    {
      registry := registry.(registrations := registry.registrations[pin := rc]);
    }

    method ApplyPoc(ev: Event, h: int, challengePin: string, responsePin: string)
      modifies this`registry, this`graveyard
      ensures Now() == Agentpedia.ApplyPoc(options, old(Now()), ev, h, challengePin, responsePin)
    {
      var regs := registry.registrations;
      if challengePin !in regs || regs[challengePin].applicant != ev.sender {
        Bury(ev.pin, PocChallengeMismatch);
        return;
      }
      if h - regs[challengePin].h > BlocksPerHour(options) {
        Bury(ev.pin, PocWindowExceeded);
        return;
      }
      var found := false;
      for i := 0 to |registry.reviews|
        invariant found <==> Review(responsePin, ev.sender) in registry.reviews[..i]
      {
        if registry.reviews[i].pin == responsePin && registry.reviews[i].reviewer == ev.sender {
          found := true;
        }
      }
      if !found {
        Bury(ev.pin, PocResponseMissing);
        return;
      }
      SetRegistration(challengePin, regs[challengePin].(pocOk := true));
    }

    method ApplyRegister(ev: Event, h: int, challengePin: string, txid: string, amount: real)
      modifies this`registry, this`graveyard
      ensures Now() == Agentpedia.ApplyRegister(old(Now()), ev, h, challengePin, txid, amount)
    {
      var regs := registry.registrations;
      if challengePin !in regs || regs[challengePin].applicant != ev.sender || !regs[challengePin].pocOk {
        Bury(ev.pin, RegisterInvalid);
        return;
      }
      if txid == "" || amount < Param(rules, "stakeAmountSat", 1.0) {
        Bury(ev.pin, StakeInsufficient);
        return;
      }
      var rc := regs[challengePin].(stakeOk := true, registerH := h, registerT := ev.txIndex, registerPin := ev.pin);
      SetRegistration(challengePin, rc);
      registry := SetEditor(registry, ev.sender, EditorOf(registry, ev.sender).(registerH := h));
    }

    method ApplyEndorse(ev: Event, h: int, applicant: string, declared: string)
      modifies this`registry, this`graveyard
      ensures UniqueRegisters(old(registry.registrations)) ==>
        Now() == Agentpedia.ApplyEndorse(options, old(Now()), ev, h, applicant, declared)
    {
      if TierOf(options, rules, registry, ev.sender, h) != T2 {
        Bury(ev.pin, EndorserNotT2);
        return;
      }
      var target := FindRegister(applicant, declared);
      if target == None {
        Bury(ev.pin, EndorseNoRegister);
        return;
      }
      if ev.sender == applicant {
        Bury(ev.pin, SelfEndorse);
        return;
      }
      var e := EditorOf(registry, applicant);
      if ev.sender in e.endorsements {
        Bury(ev.pin, DuplicateEndorse);
        return;
      }
      e := e.(endorsements := e.endorsements + {ev.sender});
      var threshold := 2;
      if h < rules.bootstrapEndH {
        threshold := 4;
      }
      if |e.endorsements| >= threshold && e.registeredAt == None {
        e := e.(registeredAt := Some(target.value.registerH));
      }
      registry := SetEditor(registry, applicant, e);
    }

    // ---- Reviews, challenges, parameters ----

    method ApplyReview(ev: Event)
      requires ev.body.ReviewBody?
      modifies this`registry, this`graveyard
      ensures OneHolder(wiki) ==> Now() == Agentpedia.ApplyReview(old(Now()), ev)
    {
      var rev := ev.body.targetRev;
      var key := OwnerOf(rev);
      if key == "" {
        Bury(ev.pin, ReviewTargetUnresolvable);
        return;
      }
      if VersionAt(RecordAt(wiki, key).pages, rev).author == ev.sender {
        Bury(ev.pin, SelfReview);
        return;
      }
      registry := registry.(reviews := registry.reviews + [Review(ev.pin, ev.sender)]);
    }

    method ApplyChallenge(ev: Event)
      requires ev.body.ChallengeBody?
      modifies this`wiki, this`court, this`graveyard
      ensures OneHolder(old(wiki)) ==> Now() == Agentpedia.ApplyChallenge(options, old(Now()), ev)
    {
      var rev := ev.body.targetRev;
      var key := OwnerOf(rev);
      if key == "" {
        Bury(ev.pin, ChallengeTargetUnresolvable);
        return;
      }
      if !Active(options, rules, registry, ev.sender, ev.height) {
        Bury(ev.pin, Unregistered);
        return;
      }
      if VersionAt(RecordAt(wiki, key).pages, rev).author == ev.sender {
        Bury(ev.pin, SelfChallenge);
        return;
      }
      wiki := SetRecord(wiki, key, MarkDisputed(RecordAt(wiki, key), rev));
      court := court.(challenges := court.challenges[ev.pin := Dispute(rev, ev.sender, key)]);
    }

    method ApplyParams(ev: Event)
      requires ev.body.ParamPropose? || ev.body.ParamVote? || ev.body.UnknownParamKind?
      requires rules.params.Some?
      modifies this`court, this`graveyard
      ensures Now() == Dispatch(options, old(Now()), ev)
    {
      var h := ev.height;
      match ev.body {
        case ParamPropose =>
          if !Active(options, rules, registry, ev.sender, h) {
            Bury(ev.pin, Unregistered);
          } else {
            court := court.(motions := court.motions[ev.pin := ParamProposal(false, {})]);
          }
        case ParamVote(pin, approve) =>
          if pin !in court.motions || court.motions[pin].effective {
            Bury(ev.pin, ParamVoteOnClosed);
          } else {
            var m := court.motions[pin];
            if approve && TierOf(options, rules, registry, ev.sender, h) == T2 {
              m := m.(approves := m.approves + {ev.sender});
            }
            var need := Quotient(IntParam(rules, "arbiterPoolK", 21.0) * 2, 3) + 1;
            if |m.approves| >= need {
              m := m.(effective := true);
            }
            court := court.(motions := court.motions[pin := m]);
          }
        case UnknownParamKind => Bury(ev.pin, ParamProposalKindUnknown);
      }
    }

    method ApplyGenesis(ev: Event)
      requires ev.body.Genesis?
      modifies this`rules, this`registry, this`graveyard
      ensures Now() == Agentpedia.ApplyGenesis(options, old(Now()), ev)
    {
      if rules.params.Some? {
        Bury(ev.pin, DuplicateGenesis);
        return;
      }
      var h := ev.height;
      rules := Rules(Some(ev.body.params), h, 0, ev.body.founders);
      rules := rules.(bootstrapEndH := h + IntParam(rules, "bootstrapWindowDays", 30.0) * BlocksPerDay(options));
      var editors := registry.editors;
      ghost var before := editors;
      var founders := ev.body.founders;
      for i := 0 to |founders|
        invariant editors == Founded(before, founders[..i], h)
      {
        assert founders[..i + 1][..i] == founders[..i];
        var id := founders[i];
        var e := if id in editors then editors[id] else NewEditor;
        editors := editors[id := e.(founder := true, registeredAt := Some(h))];
      }
      assert founders[..|founders|] == founders;
      registry := registry.(editors := Rated(editors, options.editorsRep));
    }

    method ApplyAmendment(ev: Event)
      requires ev.body.Amendment?
      modifies this`rules, this`graveyard
      ensures Now() == Agentpedia.ApplyAmendment(old(Now()), ev)
    {
      var pin := ev.body.proposalPin;
      if pin !in court.motions || !court.motions[pin].effective || rules.params == None {
        Bury(ev.pin, NoEffectiveProposal);
        return;
      }
      rules := rules.(params := Some(rules.params.value + ev.body.params));
    }

    // ---- One event and a whole replay ----

    method Deliver(ev: Event)
      modifies this
      ensures Unambiguous(old(Now())) ==> Now() == Dispatch(options, old(Now()), ev)
    {
      var h := ev.height;
      if ev.body.Genesis? {
        ApplyGenesis(ev);
        return;
      }
      if ev.body.Amendment? {
        ApplyAmendment(ev);
        return;
      }
      if rules.params == None {
        Bury(ev.pin, NoGenesis);
        return;
      }
      match ev.body {
        case Editing(_, _) => ApplyEditor(ev, h);
        case ReviewBody(_) => ApplyReview(ev);
        case ChallengeBody(_) => ApplyChallenge(ev);
        case Propose(_, _, _, _) => ApplyPropose(ev, h);
        case Vote(_, _) => ApplyVote(ev, h);
        case UnknownRuling => Bury(ev.pin, RulingActionUnknown);
        case ParamPropose => ApplyParams(ev);
        case ParamVote(_, _) => ApplyParams(ev);
        case UnknownParamKind => ApplyParams(ev);
        case Rev(_, _, _, _, _) => ApplyRev(ev, h);
        case UnknownPath => Bury(ev.pin, UnknownPathReason);
      }
    }

    method Apply(ev: Event) returns (ghost order: seq<string>)
      modifies this
      ensures Order.Lists(order, old(court.proposals))
      ensures Unambiguous(ClosedIn(order, old(Now()), ev.height)) ==>
        Now() == Dispatch(options, ClosedIn(order, old(Now()), ev.height), ev)
    {
      order := CloseExpired(ev.height);
      Deliver(ev);
    }
  }

  // ---- Replaying ----

  /** At each step of the run, the proposals expiring on one frozen record agree
    * on its head. */
  ghost predicate CalmRun(o: Options, stream: seq<Event>) {
    (forall n :: 0 <= n < |stream| ==> CalmAt(o, stream[..n], stream[n].height))
    && CalmAt(o, stream, Order.LastHeight(stream) + 1)
  }

  ghost predicate CalmAt(o: Options, past: seq<Event>, h: int) {
    Order.Calm(Run(o, past).court.proposals, Run(o, past).wiki, h)
  }

  /** A run is calm exactly when at none of its steps the order in which the
    * proposals are ranged over can show in the wiki. */
  lemma CalmRunIffHidden(o: Options, stream: seq<Event>)
    requires Order.ChainPins(stream)
    ensures CalmRun(o, stream) <==>
      (forall n :: 0 <= n < |stream| ==> !ShowsAt(o, stream[..n], stream[n].height))
      && !ShowsAt(o, stream, Order.LastHeight(stream) + 1)
  {
    forall n | 0 <= n < |stream|
      ensures CalmAt(o, stream[..n], stream[n].height) <==> !ShowsAt(o, stream[..n], stream[n].height)
    {
      CalmAtIffHidden(o, stream[..n], stream[n].height);
    }
    CalmAtIffHidden(o, stream, Order.LastHeight(stream) + 1);
  }

  ghost predicate ShowsAt(o: Options, past: seq<Event>, h: int) {
    Order.OrderShows(Run(o, past).court.proposals, Run(o, past).wiki, h)
  }

  lemma CalmAtIffHidden(o: Options, past: seq<Event>, h: int)
    requires Order.ChainPins(past)
    ensures CalmAt(o, past, h) <==> !ShowsAt(o, past, h)
  {
    RunIsAnchored(o, past);
    Order.CalmIffOrderHidden(Run(o, past).court.proposals, Run(o, past).wiki, h);
  }

  lemma ClosingIs(order: seq<string>, s: State, h: int)
    requires Order.Anchored(s.wiki) && Order.Calm(s.court.proposals, s.wiki, h) && Order.Lists(order, s.court.proposals)
    ensures ClosedIn(order, s, h) == Agentpedia.CloseExpired(s, h)
  {
    Order.SortedKeysList(s.court.proposals, {});
    Order.ClosingOrderDoesNotMatter(
      order, CanonicalJson.SortedKeys(s.court.proposals.Keys), s.court.proposals, s.wiki, h);
  }

  lemma OwnedIsUnambiguous(s: State, past: seq<Event>)
    requires Order.Owned(s, past) && Order.Named(s) && Order.Registered(s.registry.registrations, past)
    ensures Unambiguous(s)
  {
    forall a, b, rev | Holds(s.wiki, a, rev) && Holds(s.wiki, b, rev) ensures s.wiki.at[a] == s.wiki.at[b] {
      Order.OneOwner(s, past, a, b, rev);
    }
  }

  /** What the run has become is unambiguous once expired proposals are closed. */
  lemma ClosedRunIsUnambiguous(o: Options, past: seq<Event>, h: int)
    requires Order.ChainPins(past)
    ensures Order.Anchored(Run(o, past).wiki)
    ensures Unambiguous(Agentpedia.CloseExpired(Run(o, past), h))
  {
    var s := Run(o, past);
    assert past[..|past|] == past;
    Order.RunKeepsOwned(o, past, |past|);
    Order.RunKeepsNamed(o, past);
    Order.RunKeepsRegistered(o, past);
    ClosedIsUnambiguous(s, past, h);
  }

  lemma ClosedIsUnambiguous(s: State, past: seq<Event>, h: int)
    requires Order.Owned(s, past) && Order.Named(s) && Order.Registered(s.registry.registrations, past)
    ensures Unambiguous(Agentpedia.CloseExpired(s, h))
  {
    Order.ClosingKeepsOwned(s, h, past);
    Order.ClosingGainsNothing(CanonicalJson.SortedKeys(s.court.proposals.Keys), s.court.proposals, s.wiki, h);
    OwnedIsUnambiguous(Agentpedia.CloseExpired(s, h), past);
  }

  /** One more event, delivered after closing in some order. */
  lemma NextIs(o: Options, stream: seq<Event>, n: nat, order: seq<string>)
    requires n < |stream| && Order.ChainPins(stream) && CalmRun(o, stream)
    requires Order.Lists(order, Run(o, stream[..n]).court.proposals)
    ensures var closed := ClosedIn(order, Run(o, stream[..n]), stream[n].height);
      Unambiguous(closed) && Run(o, stream[..n + 1]) == Dispatch(o, closed, stream[n])
  {
    assert CalmAt(o, stream[..n], stream[n].height);
    ClosedRunIsUnambiguous(o, stream[..n], stream[n].height);
    ClosingIs(order, Run(o, stream[..n]), stream[n].height);
    Rulings.RunStep(o, stream, n);
  }

  lemma EndIs(o: Options, stream: seq<Event>, order: seq<string>)
    requires Order.ChainPins(stream) && CalmRun(o, stream)
    requires Order.Lists(order, Run(o, stream).court.proposals)
    ensures ClosedIn(order, Run(o, stream), Order.LastHeight(stream) + 1) == Order.Finished(o, stream)
  {
    var h := Order.LastHeight(stream) + 1;
    assert CalmAt(o, stream, h);
    RunIsAnchored(o, stream);
    ClosingIs(order, Run(o, stream), h);
  }

  lemma RunIsAnchored(o: Options, past: seq<Event>)
    requires Order.ChainPins(past)
    ensures Order.Anchored(Run(o, past).wiki)
  {
    assert past[..|past|] == past;
    Order.RunKeepsOwned(o, past, |past|);
  }

  /** Sorts the confirmed events, applies them one by one and closes what has
    * expired by then. Over a calm run of distinct chain pins the engine ends in
    * the one state the events determine, whatever order it ranged over maps in. */
  method Replay(o: Options, events: seq<Event>) returns (engine: Engine, pending: seq<string>)
    ensures fresh(engine) && engine.options == o && pending == Order.Pending(events)
    ensures Order.ChainPins(Order.Stream(events)) && CalmRun(o, Order.Stream(events)) ==>
      engine.Now() == Order.Replayed(o, events)
  {
    engine := new Engine(o);
    pending := [];
    var confirmed: seq<Event> := [];
    ghost var waiting: Event -> bool := e => !Order.Confirmed(e);
    for i := 0 to |events|
      invariant confirmed == Select(Order.Confirmed, events[..i])
      invariant pending == Order.Pending(events[..i])
      invariant fresh(engine) && engine.options == o && engine.Now() == Start
    {
      assert events[..i + 1] == events[..i] + [events[i]];
      SelectSnoc(Order.Confirmed, events[..i], events[i]);
      Order.PendingGrows(events[..i], events[i]);
      if events[i].height < 0 {
        pending := pending + [events[i].pin];
      } else {
        confirmed := confirmed + [events[i]];
      }
    }
    assert events[..|events|] == events;
    var stream := StableSort(Order.ByChain, confirmed);
    assert stream == Order.Stream(events);
    Deliveries(engine, stream);
  }

  method Deliveries(engine: Engine, stream: seq<Event>)
    requires engine.Now() == Start
    modifies engine
    ensures Order.ChainPins(stream) && CalmRun(engine.options, stream) ==>
      engine.Now() == Order.Finished(engine.options, stream)
  {
    for n := 0 to |stream|
      invariant Order.ChainPins(stream) && CalmRun(engine.options, stream) ==>
        engine.Now() == Run(engine.options, stream[..n])
    {
      var order := engine.Apply(stream[n]);
      if Order.ChainPins(stream) && CalmRun(engine.options, stream) {
        NextIs(engine.options, stream, n, order);
      }
    }
    assert stream[..|stream|] == stream;
    var order := engine.CloseExpired(Order.LastHeight(stream) + 1);
    if Order.ChainPins(stream) && CalmRun(engine.options, stream) {
      EndIs(engine.options, stream, order);
    }
  }

  /** The aggregator's pool: batches are appended and the whole pool replayed. */
  class Pool {
    const options: Options
    var events: seq<Event>
    var view: Engine
    var pending: seq<string>

    /** The view is the one state the pooled events determine, if they determine
      * one. */
    ghost predicate Current()
      reads this, view
    {
      pending == Order.Pending(events)
      && (Order.ChainPins(Order.Stream(events)) && CalmRun(options, Order.Stream(events)) ==>
            view.Now() == Order.Replayed(options, events))
    }

    constructor (o: Options, seed: seq<Event>)
      ensures options == o && events == seed && Current() && fresh(view)
    {
      options, events := o, seed;
      var v, p := Replay(o, seed);
      view, pending := v, p;
    }

    method Append(batch: seq<Event>)
      modifies this
      ensures events == old(events) + batch && Current() && fresh(view)
    {
      events := events + batch;
      var v, p := Replay(options, events);
      view, pending := v, p;
    }
  }

  predicate Declares(regs: map<string, Registration>, applicant: string, declared: string, k: string) {
    k in regs && regs[k].applicant == applicant && regs[k].stakeOk && regs[k].registerPin == declared
  }

  /** `target`, found at `at`, is the earliest of the registrations in `ks`. */
  ghost predicate Best(regs: map<string, Registration>, applicant: string, ks: set<string>,
                       target: Option<Registration>, at: string)
  {
    ks <= Eligible(regs, applicant)
    && if ks == {} then target == None
       else at in ks && target == Some(regs[at]) && forall j :: j in ks ==> !RegisteredBefore(regs[j], regs[at])
  }

  lemma BestOf(regs: map<string, Registration>, applicant: string, ks: set<string>,
               target: Option<Registration>, at: string, k: string)
    requires Best(regs, applicant, ks, target, at) && k in Eligible(regs, applicant) && k !in ks
    ensures if target == None || RegisteredBefore(regs[k], target.value)
      then Best(regs, applicant, ks + {k}, Some(regs[k]), k)
      else Best(regs, applicant, ks + {k}, target, at)
  {
    StringLessStrict(regs[k].registerPin, regs[k].registerPin);
    if target.Some? && RegisteredBefore(regs[k], target.value) {
      forall j | j in ks ensures !RegisteredBefore(regs[j], regs[k]) {
        if RegisteredBefore(regs[j], regs[k]) {
          RegisteredBeforeAlso(regs[j], regs[k], regs[at]);
        }
      }
    }
  }

  lemma EndorsedIs(regs: map<string, Registration>, applicant: string, declared: string, k: string)
    requires UniqueRegisters(regs) && IsEndorsed(regs, applicant, declared, k)
    ensures Endorsed(regs, applicant, declared) == Some(regs[k])
  {
    forall j | IsEndorsed(regs, applicant, declared, j) ensures j == k {
      StringTrichotomy(regs[k].registerPin, regs[j].registerPin);
    }
  }

  ghost predicate Smallest(found: set<string>, key: string) {
    if found == {} then key == "" else key in found && forall k :: k in found ==> k == key || StringLess(key, k)
  }

  lemma SmallestOf(found: set<string>, key: string, k: string)
    ensures Smallest(found, key) && k != "" && "" !in found ==>
      Smallest(found + {k}, if key == "" || StringLess(k, key) then k else key)
  {
    StringTrichotomy(k, key);
    if Smallest(found, key) && StringLess(k, key) {
      forall j | j in found ensures j == k || StringLess(k, j) {
        if j != key {
          StringLessTransitive(k, key, j);
        }
      }
    }
  }
}
