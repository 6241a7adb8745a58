/** What every run keeps of a ruling proposal: it moves once, from open, and
  * only the quorum of its own arbiters makes it effective.
  */
module AgentpediaRulings {
  import opened ChainEvents
  import opened Agentpedia

  predicate FromArbiters(p: Proposal) {
    forall a :: a in p.approves ==> a in p.fixed.arbiters
  }

  ghost predicate CourtOk(c: Court) {
    forall pin :: pin in c.proposals ==> FromArbiters(c.proposals[pin]) && c.proposals[pin].fixed.pin == pin
  }

  /** How one event at height `h` under rules `r` may change a proposal. */
  predicate Moves(p: Proposal, q: Proposal, r: Rules, h: int) {
    q.fixed == p.fixed && p.approves <= q.approves && p.voters <= q.voters
    && (p.state != Open ==> q == p)
    && (p.state == Open && q.state == Voided ==> h >= p.fixed.expiryH)
    && (p.state == Open && q.state == Effective ==> h < p.fixed.expiryH && |q.approves| >= Quorum(r))
  }

  // ---- One event ----

  lemma EditorKeepsCourt(o: Options, s: State, ev: Event, h: int)
    requires ev.body.Editing?
    ensures ApplyEditor(o, s, ev, h).court == s.court && ApplyEditor(o, s, ev, h).rules == s.rules
  {
  }

  lemma RevKeepsCourt(o: Options, s: State, ev: Event, h: int)
    requires ev.body.Rev?
    ensures ApplyRev(o, s, ev, h).court == s.court && ApplyRev(o, s, ev, h).rules == s.rules
  {
  }

  lemma OthersKeepProposals(o: Options, s: State, ev: Event)
    requires !ev.body.Propose? && !ev.body.Vote?
    ensures Dispatch(o, s, ev).court.proposals == s.court.proposals
  {
    if ev.body.Editing? {
      EditorKeepsCourt(o, s, ev, ev.height);
    } else if ev.body.Rev? {
      RevKeepsCourt(o, s, ev, ev.height);
    }
  }

  lemma ProposeAdds(o: Options, s: State, ev: Event)
    requires ev.body.Propose? && s.rules.params.Some?
    ensures var ps := Dispatch(o, s, ev).court.proposals;
      ps == s.court.proposals
      || (ev.pin in ps && ps == s.court.proposals[ev.pin := ps[ev.pin]]
          && ps[ev.pin].fixed.pin == ev.pin && ps[ev.pin].state == Open && ps[ev.pin].approves == {})
  {
  }

  lemma VoteMoves(o: Options, s: State, ev: Event)
    requires ev.body.Vote? && s.rules.params.Some?
    ensures var ps := Dispatch(o, s, ev).court.proposals; var pin := ev.body.proposalPin;
      ps == s.court.proposals
      || (pin in s.court.proposals && pin in ps && ps == s.court.proposals[pin := ps[pin]]
          && s.court.proposals[pin].state == Open && ev.height <= s.court.proposals[pin].fixed.expiryH
          && Balloted(s.court.proposals[pin], ps[pin], ev, s.rules))
  {
  }

  /** A counted ballot, and the approval that decides. */
  predicate Balloted(p: Proposal, q: Proposal, ev: Event, r: Rules)
    requires ev.body.Vote?
  {
    q.fixed == p.fixed && q.voters == p.voters + {ev.sender}
    && q.approves == (if ev.body.approve && ev.sender in p.fixed.arbiters then p.approves + {ev.sender} else p.approves)
    && q.state == (if ev.body.approve && ev.sender in p.fixed.arbiters && |q.approves| >= Quorum(r) then Effective else Open)
  }

  lemma ClosingMoves(s: State, h: int, pin: string)
    requires pin in s.court.proposals
    ensures pin in CloseExpired(s, h).court.proposals
    ensures var p := s.court.proposals[pin]; var q := CloseExpired(s, h).court.proposals[pin];
      q == VoidOne(p, h) && (q.state == Open ==> h < p.fixed.expiryH)
  {
  }

  /** The proposals after an event, given those after the closing before it. */
  lemma DispatchMoves(o: Options, s: State, ev: Event, pin: string)
    requires pin in s.court.proposals && pin != ev.pin
    requires s.court.proposals[pin].state == Open ==> ev.height < s.court.proposals[pin].fixed.expiryH
    ensures pin in Dispatch(o, s, ev).court.proposals
    ensures Moves(s.court.proposals[pin], Dispatch(o, s, ev).court.proposals[pin], s.rules, ev.height)
  {
    if s.rules.params == None || (!ev.body.Propose? && !ev.body.Vote?) {
      OthersOrEarly(o, s, ev);
    } else if ev.body.Propose? {
      ProposeAdds(o, s, ev);
    } else {
      VoteMoves(o, s, ev);
    }
  }

  lemma OthersOrEarly(o: Options, s: State, ev: Event)
    requires s.rules.params == None || (!ev.body.Propose? && !ev.body.Vote?)
    ensures Dispatch(o, s, ev).court.proposals == s.court.proposals
  {
    if !ev.body.Propose? && !ev.body.Vote? {
      OthersKeepProposals(o, s, ev);
    }
  }

  lemma StepMoves(o: Options, s: State, ev: Event, pin: string)
    requires pin in s.court.proposals && pin != ev.pin
    ensures pin in Step(o, s, ev).court.proposals
    ensures Moves(s.court.proposals[pin], Step(o, s, ev).court.proposals[pin], s.rules, ev.height)
  {
    ClosingMoves(s, ev.height, pin);
    DispatchMoves(o, CloseExpired(s, ev.height), ev, pin);
  }

  lemma StepKeepsCourtOk(o: Options, s: State, ev: Event)
    requires CourtOk(s.court)
    ensures CourtOk(Step(o, s, ev).court)
  {
    var t := CloseExpired(s, ev.height);
    forall pin | pin in t.court.proposals
      ensures FromArbiters(t.court.proposals[pin]) && t.court.proposals[pin].fixed.pin == pin
    {
      ClosingMoves(s, ev.height, pin);
    }
    if t.rules.params == None || (!ev.body.Propose? && !ev.body.Vote?) {
      OthersOrEarly(o, t, ev);
    } else if ev.body.Propose? {
      ProposeAdds(o, t, ev);
    } else {
      VoteMoves(o, t, ev);
    }
  }

  lemma StepPins(o: Options, s: State, ev: Event, pin: string)
    requires pin in Step(o, s, ev).court.proposals
    ensures pin in s.court.proposals || pin == ev.pin
  {
    var t := CloseExpired(s, ev.height);
    assert t.court.proposals.Keys == s.court.proposals.Keys;
    if t.rules.params == None || (!ev.body.Propose? && !ev.body.Vote?) {
      OthersOrEarly(o, t, ev);
    } else if ev.body.Propose? {
      ProposeAdds(o, t, ev);
    } else {
      VoteMoves(o, t, ev);
    }
  }

  // ---- Whole runs ----

  ghost predicate DistinctPins(events: seq<Event>) {
    forall i, j :: 0 <= i < j < |events| ==> events[i].pin != events[j].pin
  }

  ghost function ProposalsAfter(o: Options, events: seq<Event>, n: nat): map<string, Proposal>
    requires n <= |events|
  {
    Run(o, events[..n]).court.proposals
  }

  lemma RunStep(o: Options, events: seq<Event>, n: nat)
    requires n < |events|
    ensures Run(o, events[..n + 1]) == Step(o, Run(o, events[..n]), events[n])
  {
    assert events[..n + 1][..n] == events[..n];
  }

  lemma NextPins(o: Options, events: seq<Event>, n: nat, pin: string)
    requires n < |events| && pin in ProposalsAfter(o, events, n + 1) && pin != events[n].pin
    ensures pin in ProposalsAfter(o, events, n)
  {
    RunStep(o, events, n);
    StepPins(o, Run(o, events[..n]), events[n], pin);
  }

  lemma {:induction false} PinsAreEvents(o: Options, events: seq<Event>, n: nat, pin: string)
    requires n <= |events| && pin in ProposalsAfter(o, events, n)
    ensures exists i :: 0 <= i < n && events[i].pin == pin
  {
    if n > 0 && pin != events[n - 1].pin {
      var m := n - 1;
      NextPins(o, events, m, pin);
      PinsAreEvents(o, events, m, pin);
    }
  }

  /** One event of a run changes a proposal as `Moves` says. */
  lemma RunMoves(o: Options, events: seq<Event>, n: nat, pin: string)
    requires DistinctPins(events) && n < |events| && pin in ProposalsAfter(o, events, n)
    ensures pin in ProposalsAfter(o, events, n + 1)
    ensures Moves(ProposalsAfter(o, events, n)[pin], ProposalsAfter(o, events, n + 1)[pin],
                  Run(o, events[..n]).rules, events[n].height)
  {
    PinsAreEvents(o, events, n, pin);
    RunStep(o, events, n);
    StepMoves(o, Run(o, events[..n]), events[n], pin);
  }

  /** Same case, no approval lost, and no change at all once closed. */
  predicate Kept(p: Proposal, q: Proposal) {
    q.fixed == p.fixed && p.approves <= q.approves && (p.state != Open ==> q == p)
  }

  lemma KeptAcross(p: Proposal, q: Proposal, t: Proposal, r: Rules, h: int)
    requires Kept(p, q) && Moves(q, t, r, h)
    ensures Kept(p, t)
  {
  }

  /** The proposal `p` is still `Kept` after `n` events. */
  ghost predicate KeptAt(o: Options, events: seq<Event>, n: nat, pin: string, p: Proposal)
    requires n <= |events|
  {
    pin in ProposalsAfter(o, events, n) && Kept(p, ProposalsAfter(o, events, n)[pin])
  }

  /** Over any stretch of a run a proposal keeps its case, loses no approval,
    * and does not change at all once it is closed. */
  lemma {:induction false} ClosedStaysClosed(o: Options, events: seq<Event>, i: nat, j: nat, pin: string)
    requires DistinctPins(events) && i <= j <= |events| && pin in ProposalsAfter(o, events, i)
    ensures KeptAt(o, events, j, pin, ProposalsAfter(o, events, i)[pin])
  {
    KeptFrom(o, events, i, j, pin, ProposalsAfter(o, events, i)[pin]);
  }

  lemma {:induction false} KeptFrom(o: Options, events: seq<Event>, i: nat, j: nat, pin: string, p: Proposal)
    requires DistinctPins(events) && i <= j <= |events| && KeptAt(o, events, i, pin, p)
    ensures KeptAt(o, events, j, pin, p)
    decreases j - i
  {
    if i < j {
      KeptByNext(o, events, i, pin, p);
      KeptFrom(o, events, i + 1, j, pin, p);
    }
  }

  lemma KeptByNext(o: Options, events: seq<Event>, n: nat, pin: string, p: Proposal)
    requires DistinctPins(events) && n < |events| && KeptAt(o, events, n, pin, p)
    ensures KeptAt(o, events, n + 1, pin, p)
  {
    RunMoves(o, events, n, pin);
    KeptAcross(p, ProposalsAfter(o, events, n)[pin], ProposalsAfter(o, events, n + 1)[pin],
               Run(o, events[..n]).rules, events[n].height);
  }

  /** The outcome of a proposal is applied by the n-th event. */
  ghost predicate AppliedBy(o: Options, events: seq<Event>, n: nat, pin: string)
    requires n < |events|
  {
    pin in ProposalsAfter(o, events, n) && ProposalsAfter(o, events, n)[pin].state == Open
    && pin in ProposalsAfter(o, events, n + 1) && ProposalsAfter(o, events, n + 1)[pin].state == Effective
  }

  /** No outcome is applied twice. */
  lemma AppliedOnce(o: Options, events: seq<Event>, i: nat, j: nat, pin: string)
    requires DistinctPins(events) && i < j < |events| && AppliedBy(o, events, i, pin)
    ensures !AppliedBy(o, events, j, pin)
  {
    ClosedStaysClosed(o, events, i + 1, j, pin);
  }

  /** And it is applied only below the expiry height, with the quorum then in
    * force among the arbiters drawn when the proposal was made. */
  lemma AppliedByQuorum(o: Options, events: seq<Event>, n: nat, pin: string)
    requires DistinctPins(events) && n < |events| && AppliedBy(o, events, n, pin)
    ensures var p := ProposalsAfter(o, events, n + 1)[pin];
      events[n].height < p.fixed.expiryH && |p.approves| >= Quorum(Run(o, events[..n]).rules) && FromArbiters(p)
  {
    RunMoves(o, events, n, pin);
    RunKeepsCourtOk(o, events, n + 1);
  }

  /** Approvers are always arbiters of the proposal. */
  lemma {:induction false} RunKeepsCourtOk(o: Options, events: seq<Event>, n: nat)
    requires n <= |events|
    ensures CourtOk(Run(o, events[..n]).court)
  {
    if n > 0 {
      RunKeepsCourtOk(o, events, n - 1);
      RunStep(o, events, n - 1);
      StepKeepsCourtOk(o, Run(o, events[..n - 1]), events[n - 1]);
    }
  }
}
