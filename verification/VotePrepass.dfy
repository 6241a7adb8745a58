/** The vote pre-pass (internal/metatask/v121.go:892-941): which ballot of a bot
    on a target acts. */
module VotePrepass {
  import opened ChainEvents
  import opened Sorting

  /** `submitters` are the authors of the task's submissions by pin; no roster groups means no roster filter. */
  datatype Rules = Rules(submitters: map<string, string>, rootAuthor: string, hAct: int, hAct2: int,
                         roster: seq<seq<string>>)

  /** The ballot gates bind from the first activation height on. */
  predicate PassesGate(v: ChainEvent, hAct: int)
    requires v.body.Verify?
  {
    v.height < hAct || (v.body.hasSemanticCheck && (v.body.verdict.Fail? ==> v.body.hasFailReason))
  }

  predicate SameSide(groups: seq<seq<string>>, a: string, b: string) {
    a != "" && b != "" && (a == b || exists i :: 0 <= i < |groups| && a in groups[i] && b in groups[i])
  }

  /** A ballot that is on a known target, well formed, and not barred by the roster. */
  predicate Admitted(r: Rules, v: ChainEvent) {
    && v.body.Verify?
    && v.body.targetId != "" && v.body.targetId in r.submitters
    && PassesGate(v, r.hAct)
    && !(v.height >= r.hAct2 && r.roster != []
         && (SameSide(r.roster, v.author, r.submitters[v.body.targetId]) || SameSide(r.roster, v.author, r.rootAuthor)))
  }

  type Slot = (string, string)

  function SlotOf(v: ChainEvent): Slot
    requires v.body.Verify?
  {
    (v.body.targetId, v.author)
  }

  /** The last admitted ballot of each bot on each target. */
  function LastVotes(r: Rules, verifies: seq<ChainEvent>): map<Slot, ChainEvent> {
    if verifies == [] then map[]
    else
      var before, v := LastVotes(r, verifies[..|verifies| - 1]), verifies[|verifies| - 1];
      if Admitted(r, v) then before[SlotOf(v) := v] else before
  }

  method CollectVotes(r: Rules, verifies: seq<ChainEvent>) returns (last: map<Slot, ChainEvent>)
    ensures last == LastVotes(r, verifies)
  {
    last := map[];
    for i := 0 to |verifies|
      invariant last == LastVotes(r, verifies[..i])
    {
      assert verifies[..i + 1][..i] == verifies[..i];
      if Admitted(r, verifies[i]) {
        last := last[SlotOf(verifies[i]) := verifies[i]];
      }
    }
    assert verifies[..|verifies|] == verifies;
  }

  /** An admitted ballot with no later admitted ballot of the same bot on the same target. */
  ghost predicate ActsAt(r: Rules, verifies: seq<ChainEvent>, i: nat)
    requires i < |verifies|
  {
    && Admitted(r, verifies[i])
    && forall j | i < j < |verifies| && Admitted(r, verifies[j]) :: SlotOf(verifies[j]) != SlotOf(verifies[i])
  }

  /** The pre-pass lets the ballot act. */
  predicate Acting(r: Rules, last: map<Slot, ChainEvent>, v: ChainEvent) {
    v.body.Verify? && SlotOf(v) in last && last[SlotOf(v)] == v
  }

  /** A bot's last well-formed ballot acts; a later malformed one withdraws nothing. */
  lemma {:induction false} LastWellFormedActs(r: Rules, verifies: seq<ChainEvent>, i: nat)
    requires DistinctPins(verifies) && i < |verifies|
    ensures ActsAt(r, verifies, i) <==> Acting(r, LastVotes(r, verifies), verifies[i])
  {
    var n := |verifies| - 1;
    var prefix, v := verifies[..n], verifies[n];
    LastVotesAre(r, prefix);
    if i < n {
      LastWellFormedActs(r, prefix, i);
      assert prefix[i] == verifies[i] && verifies[i].pin != v.pin;
      assert ActsAt(r, verifies, i) <==>
        ActsAt(r, prefix, i) && !(Admitted(r, v) && SlotOf(v) == SlotOf(verifies[i]));
    } else {
      assert forall u | u in prefix :: u.pin != v.pin;
    }
  }

  lemma {:induction false} LastVotesAre(r: Rules, verifies: seq<ChainEvent>)
    ensures forall slot | slot in LastVotes(r, verifies) ::
              var v := LastVotes(r, verifies)[slot];
              v in verifies && Admitted(r, v) && SlotOf(v) == slot
  {
    if verifies != [] {
      LastVotesAre(r, verifies[..|verifies| - 1]);
    }
  }

  // ------------------------------------------------------------------
  // Ballots by target
  // ------------------------------------------------------------------

  lemma {:induction false} SelectKeeps(s: seq<ChainEvent>, p: ChainEvent -> bool)
    ensures DistinctPins(s) ==> DistinctPins(Select(p, s))
    ensures Ordered(s) ==> Ordered(Select(p, s))
  {
    if s != [] {
      var rest := s[1..];
      SelectKeeps(rest, p);
      forall e | e in Select(p, rest)
        ensures DistinctPins(s) ==> s[0].pin != e.pin
        ensures Ordered(s) ==> !Before(e, s[0])
      {
        var i :| 0 <= i < |rest| && rest[i] == e;
        assert s[i + 1] == e;
      }
    }
  }

  /** Distinct-pin lists with the same members hold them equally often. */
  lemma SameMembersSameMultiset(a: seq<ChainEvent>, b: seq<ChainEvent>)
    requires DistinctPins(a) && DistinctPins(b) && forall e :: e in a <==> e in b
    ensures multiset(a) == multiset(b)
  {
    forall e
      ensures multiset(a)[e] == multiset(b)[e]
    {
      if e in a {
        var i :| 0 <= i < |a| && a[i] == e;
        var j :| 0 <= j < |b| && b[j] == e;
        OnceInDistinct(a, i);
        OnceInDistinct(b, j);
      } else {
        assert e !in multiset(a) && e !in multiset(b);
      }
    }
  }

  /** The acting ballots on one target, in chain order. */
  function VotesOn(r: Rules, verifies: seq<ChainEvent>, target: string): seq<ChainEvent> {
    var last := LastVotes(r, verifies);
    Select(v => Acting(r, last, v) && v.body.targetId == target, verifies)
  }

  /** Collects a target's ballots by ranging over the last-vote map in no
      particular order, then sorts them; the order ranged in does not show. */
  method GroupTarget(r: Rules, verifies: seq<ChainEvent>, last: map<Slot, ChainEvent>, target: string)
    returns (votes: seq<ChainEvent>)
    requires DistinctPins(verifies) && Ordered(verifies) && last == LastVotes(r, verifies)
    ensures votes == VotesOn(r, verifies, target)
  {
    votes := [];
    var todo := last.Keys;
    LastVotesAre(r, verifies);
    while todo != {}
      invariant todo <= last.Keys
      invariant DistinctPins(votes)
      invariant forall v :: v in votes <==>
        v in verifies && Acting(r, last, v) && SlotOf(v) !in todo && v.body.targetId == target
      decreases todo
    {
      var slot :| slot in todo;
      todo := todo - {slot};
      var v := last[slot];
      if v.body.targetId == target {
        forall u | u in votes
          ensures u.pin != v.pin
        {
          assert u in verifies && v in verifies;
        }
        votes := votes + [v];
      }
    }
    var spec := VotesOn(r, verifies, target);
    var p := v => Acting(r, last, v) && v.body.targetId == target;
    SelectKeeps(verifies, p);
    SameMembersSameMultiset(votes, spec);
    SortSorts(votes);
    DistinctFromMultiset(votes, SortEvents(votes));
    OrderedIsUnique(SortEvents(votes), spec);
    votes := SortEvents(votes);
  }
}
