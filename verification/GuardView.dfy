/** The pool read path computes a node's state twice: by one global fold over
  * all events, and by the guard's own fold over the events of that node alone.
  * Both are modelled and proved to agree, up to the windows only the guard
  * looks at.
  */
module GuardView {
  import opened ChainEvents
  import opened Sorting

  /** What the folds read of a payload. */
  datatype Payload =
    | ClaimBody(taskId: string, node: string)
    | ReleaseBody(taskId: string, node: string, claimId: string)
    | SubmissionBody(taskId: string, node: string, claimId: string)
    | BallotBody(targetId: string, verdict: Verdict, hasSemanticCheck: bool, hasFailReason: bool)

  datatype Pin = Pin(
    id: string, bot: string, genesisHeight: int, txIndex: int, timestamp: int, seenTime: int, body: Payload)

  function OrderKey(p: Pin): OrdKey {
    OrdKey(
      if p.genesisHeight < 0 then UNCONFIRMED_HEIGHT else p.genesisHeight,
      if p.txIndex < 0 then 0 else p.txIndex,
      if p.seenTime == 0 then p.timestamp else p.seenTime,
      p.id)
  }

  predicate OrderLess(a: Pin, b: Pin) {
    KeyLess(OrderKey(a), OrderKey(b))
  }

  function PinTimestamp(p: Pin): int {
    if p.timestamp != 0 then p.timestamp else p.seenTime
  }

  /** The order ties only equal keys, so it sorts. */
  lemma OrderSorts()
    ensures WeakOrder(OrderLess)
  {
    forall a, b | OrderLess(a, b) ensures !OrderLess(b, a) {
      KeyLessTotal(OrderKey(a), OrderKey(b));
    }
    forall a, b, c | !OrderLess(a, b) && !OrderLess(b, c) ensures !OrderLess(a, c) {
      NotBefore(a, b, c);
    }
  }

  lemma NotBefore(c: Pin, b: Pin, a: Pin)
    requires !OrderLess(c, b) && !OrderLess(b, a)
    ensures !OrderLess(c, a)
  {
    KeyLessWeak(OrderKey(c), OrderKey(b), OrderKey(a));
  }

  // ---- The event pools ----

  /** One task's event pools, each sorted, with what the folds read of its
    * root. */
  datatype Pools = Pools(
    root: string, rootAuthor: string, quorum: int,
    claims: seq<Pin>, releases: seq<Pin>, submissions: seq<Pin>, verifies: seq<Pin>)

  function TaskOf(p: Pin): string {
    if p.body.BallotBody? then "" else p.body.taskId
  }

  function NodeOf(p: Pin): string {
    if p.body.BallotBody? then "" else p.body.node
  }

  function ClaimIdOf(p: Pin): string {
    if p.body.ReleaseBody? || p.body.SubmissionBody? then p.body.claimId else ""
  }

  function OfTask(root: string): Pin -> bool {
    p => TaskOf(p) == root
  }

  function OfNode(node: string): Pin -> bool {
    p => NodeOf(p) == node
  }

  function OfTaskNode(root: string, node: string): Pin -> bool {
    p => TaskOf(p) == root && NodeOf(p) == node
  }

  datatype Holder = Holder(pin: string, claimant: string, t0: int)

  datatype Sub = Sub(pin: string, author: string, claim: string, t: int)

  function HolderOf(p: Pin): Holder {
    Holder(p.id, p.bot, PinTimestamp(p))
  }

  function SubOf(p: Pin): Sub {
    Sub(p.id, p.bot, ClaimIdOf(p), PinTimestamp(p))
  }

  function Lookup<T>(m: map<string, T>, k: string): Option<T> {
    if k in m then Some(m[k]) else None
  }

  // ---- Holders ----

  function Timeline(ps: Pools): seq<Pin> {
    StableSort(OrderLess, Select(OfTask(ps.root), ps.claims) + Select(OfTask(ps.root), ps.releases))
  }

  function NodeTimeline(ps: Pools, node: string): seq<Pin> {
    StableSort(OrderLess, Select(OfTaskNode(ps.root, node), ps.claims) + Select(OfTaskNode(ps.root, node), ps.releases))
  }

  function Hold(hs: map<string, Holder>, p: Pin): map<string, Holder> {
    var node := NodeOf(p);
    if node == "" then hs
    else if p.body.ClaimBody? then (if node in hs then hs else hs[node := HolderOf(p)])
    else if node in hs && hs[node].pin == ClaimIdOf(p) then hs - {node}
    else hs
  }

  function Holders(timeline: seq<Pin>): map<string, Holder> {
    if timeline == [] then map[]
    else Hold(Holders(timeline[..|timeline| - 1]), timeline[|timeline| - 1])
  }

  /** The guard's own state: the holder, and whether some holder was ever
    * unconfirmed. */
  datatype Held = Held(holder: Option<Holder>, inflight: bool)

  function HoldNode(h: Held, p: Pin): Held {
    if p.body.ClaimBody? then
      (if h.holder == None then Held(Some(HolderOf(p)), h.inflight || p.genesisHeight < 0) else h)
    else if h.holder.Some? && h.holder.value.pin == ClaimIdOf(p) then h.(holder := None)
    else h
  }

  function HeldBy(timeline: seq<Pin>): Held {
    if timeline == [] then Held(None, false)
    else HoldNode(HeldBy(timeline[..|timeline| - 1]), timeline[|timeline| - 1])
  }

  lemma NodeTimelineIsSelected(ps: Pools, node: string)
    ensures NodeTimeline(ps, node) == Select(OfNode(node), Timeline(ps))
  {
    var (t, n, b) := (OfTask(ps.root), OfNode(node), OfTaskNode(ps.root, node));
    OrderSorts();
    SelectSorted(OrderLess, n, Select(t, ps.claims) + Select(t, ps.releases));
    SelectConcat(n, Select(t, ps.claims), Select(t, ps.releases));
    SelectTwice(t, n, b, ps.claims);
    SelectTwice(t, n, b, ps.releases);
  }

  lemma HoldAgrees(node: string, hs: map<string, Holder>, h: Held, p: Pin)
    requires node != "" && Lookup(hs, node) == h.holder
    ensures Lookup(Hold(hs, p), node) == if NodeOf(p) == node then HoldNode(h, p).holder else h.holder
  {
  }

  lemma HeldSnoc(s: seq<Pin>, p: Pin)
    ensures HeldBy(s + [p]) == HoldNode(HeldBy(s), p)
  {
    assert (s + [p])[..|s|] == s;
  }

  lemma {:induction false} HoldersAgree(node: string, timeline: seq<Pin>)
    requires node != ""
    ensures Lookup(Holders(timeline), node) == HeldBy(Select(OfNode(node), timeline)).holder
  {
    if timeline != [] {
      var front, p := timeline[..|timeline| - 1], timeline[|timeline| - 1];
      HoldersAgree(node, front);
      assert timeline == front + [p];
      SelectSnoc(OfNode(node), front, p);
      HeldSnoc(Select(OfNode(node), front), p);
      HoldAgrees(node, Holders(front), HeldBy(Select(OfNode(node), front)), p);
    }
  }

  // ---- Submissions ----

  function Submit(root: string, hs: map<string, Holder>, subs: map<string, Sub>, p: Pin): map<string, Sub> {
    var node := NodeOf(p);
    if TaskOf(p) != root || node !in hs || hs[node].pin != ClaimIdOf(p) || node in subs then subs
    else subs[node := SubOf(p)]
  }

  function Subs(root: string, hs: map<string, Holder>, pins: seq<Pin>): map<string, Sub> {
    if pins == [] then map[]
    else Submit(root, hs, Subs(root, hs, pins[..|pins| - 1]), pins[|pins| - 1])
  }

  predicate Rides(root: string, node: string, holder: string, p: Pin) {
    TaskOf(p) == root && NodeOf(p) == node && ClaimIdOf(p) == holder
  }

  /** The guard's scan for the first submission under the holder. */
  function FirstSub(root: string, node: string, holder: string, pins: seq<Pin>): Option<Sub> {
    if pins == [] then None
    else if Rides(root, node, holder, pins[0]) then Some(SubOf(pins[0]))
    else FirstSub(root, node, holder, pins[1..])
  }

  lemma {:induction false} FirstSubGrows(root: string, node: string, holder: string, pins: seq<Pin>, p: Pin)
    ensures FirstSub(root, node, holder, pins + [p]) ==
      if FirstSub(root, node, holder, pins).Some? then FirstSub(root, node, holder, pins)
      else if Rides(root, node, holder, p) then Some(SubOf(p)) else None
  {
    if pins == [] {
      assert ([] + [p])[1..] == [];
    } else {
      assert (pins + [p])[1..] == pins[1..] + [p];
      FirstSubGrows(root, node, holder, pins[1..], p);
    }
  }

  lemma {:induction false} SubsAgree(root: string, node: string, hs: map<string, Holder>, pins: seq<Pin>)
    ensures Lookup(Subs(root, hs, pins), node) ==
      if node in hs then FirstSub(root, node, hs[node].pin, pins) else None
  {
    if pins != [] {
      var front, p := pins[..|pins| - 1], pins[|pins| - 1];
      SubsAgree(root, node, hs, front);
      assert pins == front + [p];
      if node in hs {
        FirstSubGrows(root, node, hs[node].pin, front, p);
      }
    }
  }

  // ---- Ballots ----

  datatype Reason = Counted | MissingSemanticCheck | MissingFailReason

  function VoteInvalid(p: Pin): Reason {
    if !p.body.BallotBody? || !p.body.hasSemanticCheck then MissingSemanticCheck
    else if p.body.verdict == Fail && !p.body.hasFailReason then MissingFailReason
    else Counted
  }

  function TargetOf(p: Pin): string {
    if p.body.BallotBody? then p.body.targetId else ""
  }

  predicate Counts(p: Pin) {
    p.bot != "" && VoteInvalid(p) == Counted
  }

  function Last(pins: seq<Pin>): map<(string, string), Verdict> {
    if pins == [] then map[] else
      var p := pins[|pins| - 1];
      var m := Last(pins[..|pins| - 1]);
      if TargetOf(p) != "" && Counts(p) then m[(TargetOf(p), p.bot) := p.body.verdict] else m
  }

  function LastFor(target: string, pins: seq<Pin>): map<string, Verdict> {
    if pins == [] then map[] else
      var p := pins[|pins| - 1];
      var m := LastFor(target, pins[..|pins| - 1]);
      if TargetOf(p) == target && Counts(p) then m[p.bot := p.body.verdict] else m
  }

  lemma {:induction false} LastAgrees(target: string, bot: string, pins: seq<Pin>)
    requires target != ""
    ensures (target, bot) in Last(pins) <==> bot in LastFor(target, pins)
    ensures bot in LastFor(target, pins) ==> Last(pins)[(target, bot)] == LastFor(target, pins)[bot]
  {
    if pins != [] {
      LastAgrees(target, bot, pins[..|pins| - 1]);
    }
  }

  function Passing(m: map<string, Verdict>, author: string, rootAuthor: string): set<string> {
    set b | b in m && m[b] == Pass && b != author && b != rootAuthor
  }

  function Failing(m: map<string, Verdict>): set<string> {
    set b | b in m && m[b] == Fail
  }

  function PassingOf(m: map<(string, string), Verdict>, target: string, author: string, rootAuthor: string):
    set<(string, string)>
  {
    set k | k in m && k.0 == target && m[k] == Pass && k.1 != author && k.1 != rootAuthor
  }

  function FailingOf(m: map<(string, string), Verdict>, target: string): set<(string, string)> {
    set k | k in m && k.0 == target && m[k] == Fail
  }

  lemma {:induction false} SameSize(target: string, a: set<(string, string)>, b: set<string>)
    requires forall k :: k in a ==> k.0 == target && k.1 in b
    requires forall x :: x in b <==> (target, x) in a
    ensures |a| == |b|
    decreases b
  {
    if b == {} {
      assert a == {};
    } else {
      var x :| x in b;
      SameSize(target, a - {(target, x)}, b - {x});
    }
  }

  // ---- The two views ----

  /** What both computations say of a node. */
  datatype View = View(holder: Option<Holder>, sub: Option<Sub>, good: nat, bad: nat)

  function GlobalView(ps: Pools, node: string): View {
    var hs := Holders(Timeline(ps));
    var sub := Lookup(Subs(ps.root, hs, ps.submissions), node);
    match sub
    case None => View(Lookup(hs, node), None, 0, 0)
    case Some(s) =>
      View(Lookup(hs, node), sub,
           |PassingOf(Last(ps.verifies), s.pin, s.author, ps.rootAuthor)|, |FailingOf(Last(ps.verifies), s.pin)|)
  }

  function NodeView(ps: Pools, node: string): View {
    var holder := HeldBy(NodeTimeline(ps, node)).holder;
    match holder
    case None => View(None, None, 0, 0)
    case Some(h) =>
      var sub := FirstSub(ps.root, node, h.pin, ps.submissions);
      match sub
      case None => View(holder, None, 0, 0)
      case Some(s) =>
        var votes := LastFor(s.pin, ps.verifies);
        View(holder, sub, |Passing(votes, s.author, ps.rootAuthor)|, |Failing(votes)|)
  }

  /** Pins have an id. */
  predicate Named(ps: Pools) {
    forall p :: p in ps.submissions ==> p.id != ""
  }

  lemma {:induction false} FirstSubIsNamed(root: string, node: string, holder: string, pins: seq<Pin>)
    requires forall p :: p in pins ==> p.id != ""
    ensures var s := FirstSub(root, node, holder, pins); s.Some? ==> s.value.pin != ""
  {
    if pins != [] {
      FirstSubIsNamed(root, node, holder, pins[1..]);
    }
  }

  lemma VotesAgree(pins: seq<Pin>, s: Sub, rootAuthor: string)
    requires s.pin != ""
    ensures |PassingOf(Last(pins), s.pin, s.author, rootAuthor)| == |Passing(LastFor(s.pin, pins), s.author, rootAuthor)|
    ensures |FailingOf(Last(pins), s.pin)| == |Failing(LastFor(s.pin, pins))|
  {
    forall bot ensures ((s.pin, bot) in Last(pins) <==> bot in LastFor(s.pin, pins))
      && (bot in LastFor(s.pin, pins) ==> Last(pins)[(s.pin, bot)] == LastFor(s.pin, pins)[bot])
    {
      LastAgrees(s.pin, bot, pins);
    }
    SameSize(s.pin, PassingOf(Last(pins), s.pin, s.author, rootAuthor),
             Passing(LastFor(s.pin, pins), s.author, rootAuthor));
    SameSize(s.pin, FailingOf(Last(pins), s.pin), Failing(LastFor(s.pin, pins)));
  }

  /** For every node with a name, the fold over its own events alone finds the
    * holder, effective submission and votes that the global fold finds. */
  lemma ViewsAgree(ps: Pools, node: string)
    requires node != "" && Named(ps)
    ensures NodeView(ps, node) == GlobalView(ps, node)
  {
    var hs := Holders(Timeline(ps));
    NodeTimelineIsSelected(ps, node);
    HoldersAgree(node, Timeline(ps));
    SubsAgree(ps.root, node, hs, ps.submissions);
    if node in hs {
      var sub := FirstSub(ps.root, node, hs[node].pin, ps.submissions);
      FirstSubIsNamed(ps.root, node, hs[node].pin, ps.submissions);
      if sub.Some? {
        VotesAgree(ps.verifies, sub.value, ps.rootAuthor);
      }
    }
  }

  /** The empty node id is the exception: the global fold never holds it. */
  lemma NamelessNodeDiffers(ps: Pools, p: Pin)
    requires p == Pin("c", "bot", 1, 0, 0, 0, ClaimBody("r", ""))
    requires ps == Pools("r", "root", 2, [p], [], [], [])
    ensures GlobalView(ps, "").holder == None && NodeView(ps, "").holder.Some?
  {
    NothingIsNameless(Timeline(ps));
    assert Select(OfTaskNode("r", ""), [p]) == [p];
    assert [p] + Select(OfTaskNode("r", ""), []) == [p];
    assert StableSort(OrderLess, [p]) == [p];
    assert [p][..0] == [];
    assert HeldBy([p]) == HoldNode(HeldBy([]), p);
  }

  lemma {:induction false} NothingIsNameless(timeline: seq<Pin>)
    ensures "" !in Holders(timeline)
  {
    if timeline != [] {
      NothingIsNameless(timeline[..|timeline| - 1]);
    }
  }

  // ---- Status ----

  datatype Status = Open | Claimed | Verified

  predicate Approved(v: View, quorum: int) {
    v.sub.Some? && v.good >= quorum && v.bad == 0
  }

  function PlainStatus(v: View, quorum: int): Status {
    if Approved(v, quorum) then Verified else if v.holder.Some? then Claimed else Open
  }

  /** The clock, and the windows of the task's policy in hours. */
  datatype Clock = Clock(now: int, ttlHours: int, windowHours: int)

  predicate ClaimExpired(v: View, c: Clock) {
    v.holder.Some? && v.sub == None && c.ttlHours > 0 && c.now - v.holder.value.t0 > c.ttlHours * 3600
  }

  predicate ReviewExpired(v: View, quorum: int, c: Clock) {
    v.sub.Some? && c.windowHours > 0 && c.now - v.sub.value.t > c.windowHours * 3600 && v.good < quorum
  }

  function GuardStatus(v: View, inflight: bool, quorum: int, c: Clock): Status {
    if inflight && v.holder.Some? then Claimed
    else if Approved(v, quorum) then Verified
    else if v.sub.Some? && v.bad > 0 then Open
    else if ClaimExpired(v, c) then Open
    else if ReviewExpired(v, quorum, c) then Open
    else if v.holder.Some? then Claimed
    else Open
  }

  /** A submission is only ever found under a holder. */
  lemma SubHasHolder(ps: Pools, node: string)
    ensures NodeView(ps, node).sub.Some? ==> NodeView(ps, node).holder.Some?
  {
  }

  /** The two statuses coincide exactly when: with an unconfirmed claim, the node
    * is not verified; otherwise it is verified, or no fail counts and no window
    * has run out. */
  lemma StatusesCoincide(ps: Pools, node: string, c: Clock)
    requires node != "" && Named(ps)
    ensures var v := GlobalView(ps, node); var inflight := HeldBy(NodeTimeline(ps, node)).inflight;
      GuardStatus(NodeView(ps, node), inflight, ps.quorum, c) == PlainStatus(v, ps.quorum) <==>
      (if inflight && v.holder.Some? then !Approved(v, ps.quorum)
       else Approved(v, ps.quorum)
            || !((v.sub.Some? && v.bad > 0) || ClaimExpired(v, c) || ReviewExpired(v, ps.quorum, c)))
  {
    ViewsAgree(ps, node);
    SubHasHolder(ps, node);
  }

  // ---- The folds over mutable state ----

  method Pick(f: Pin -> bool, pool: seq<Pin>) returns (picked: seq<Pin>)
    ensures picked == Select(f, pool)
  {
    picked := [];
    for i := 0 to |pool|
      invariant picked == Select(f, pool[..i])
    {
      assert pool[..i + 1] == pool[..i] + [pool[i]];
      SelectSnoc(f, pool[..i], pool[i]);
      if f(pool[i]) {
        picked := picked + [pool[i]];
      }
    }
    assert pool[..|pool|] == pool;
  }

  /** Counts one target's ballots, the map visited in any order. */
  method CountVotes(last: map<(string, string), Verdict>, target: string, author: string, rootAuthor: string)
    returns (good: nat, bad: nat)
    ensures good == |PassingOf(last, target, author, rootAuthor)| && bad == |FailingOf(last, target)|
  {
    good, bad := 0, 0;
    var rest := last.Keys;
    ghost var passing, failing := PassingOf(last, target, author, rootAuthor), FailingOf(last, target);
    while rest != {}
      invariant rest <= last.Keys
      invariant good == |passing - rest| && bad == |failing - rest|
      decreases rest
    {
      var key :| key in rest;
      LeavesOne(passing, rest, key);
      LeavesOne(failing, rest, key);
      rest := rest - {key};
      if key.0 == target {
        if last[key] == Pass {
          if key.1 != author && key.1 != rootAuthor {
            good := good + 1;
          }
        } else if last[key] == Fail {
          bad := bad + 1;
        }
      }
    }
    assert passing - rest == passing && failing - rest == failing;
  }

  method CountOwnVotes(votes: map<string, Verdict>, author: string, rootAuthor: string) returns (good: nat, bad: nat)
    ensures good == |Passing(votes, author, rootAuthor)| && bad == |Failing(votes)|
  {
    good, bad := 0, 0;
    var rest := votes.Keys;
    ghost var passing, failing := Passing(votes, author, rootAuthor), Failing(votes);
    while rest != {}
      invariant rest <= votes.Keys
      invariant good == |passing - rest| && bad == |failing - rest|
      decreases rest
    {
      var bot :| bot in rest;
      LeavesOne(passing, rest, bot);
      LeavesOne(failing, rest, bot);
      rest := rest - {bot};
      if votes[bot] == Pass {
        if bot != author && bot != rootAuthor {
          good := good + 1;
        }
      } else if votes[bot] == Fail {
        bad := bad + 1;
      }
    }
    assert passing - rest == passing && failing - rest == failing;
  }

  class Settlement {
    const pools: Pools
    var holders: map<string, Holder>
    var subs: map<string, Sub>
    var last: map<(string, string), Verdict>

    /** The fields hold what the three folds leave. */
    predicate Settled()
      reads this
    {
      holders == Holders(Timeline(pools))
      && subs == Subs(pools.root, holders, pools.submissions)
      && last == Last(pools.verifies)
    }

    constructor (ps: Pools)
      ensures pools == ps && Settled()
    {
      pools := ps;
      holders, subs, last := map[], map[], map[];
      new;
      WalkClaims();
      WalkSubmissions();
      CollectBallots();
    }

    method WalkClaims()
      requires holders == map[]
      modifies this`holders
      ensures holders == Holders(Timeline(pools))
    {
      var claims := Pick(OfTask(pools.root), pools.claims);
      var releases := Pick(OfTask(pools.root), pools.releases);
      var timeline := StableSort(OrderLess, claims + releases);
      for i := 0 to |timeline|
        invariant holders == Holders(timeline[..i])
      {
        var p := timeline[i];
        assert timeline[..i + 1][..i] == timeline[..i];
        var node := NodeOf(p);
        if node != "" {
          if p.body.ClaimBody? {
            if node !in holders {
              holders := holders[node := HolderOf(p)];
            }
          } else if node in holders && holders[node].pin == ClaimIdOf(p) {
            holders := holders - {node};
          }
        }
      }
      assert timeline[..|timeline|] == timeline;
    }

    method WalkSubmissions()
      requires subs == map[]
      modifies this`subs
      ensures subs == Subs(pools.root, holders, pools.submissions)
    {
      var pins := pools.submissions;
      for i := 0 to |pins|
        invariant subs == Subs(pools.root, holders, pins[..i])
      {
        var p := pins[i];
        assert pins[..i + 1][..i] == pins[..i];
        var node := NodeOf(p);
        if TaskOf(p) == pools.root && node in holders && holders[node].pin == ClaimIdOf(p) && node !in subs {
          subs := subs[node := SubOf(p)];
        }
      }
      assert pins[..|pins|] == pins;
    }

    method CollectBallots()
      requires last == map[]
      modifies this`last
      ensures last == Last(pools.verifies)
    {
      var pins := pools.verifies;
      for i := 0 to |pins|
        invariant last == Last(pins[..i])
      {
        var p := pins[i];
        assert pins[..i + 1][..i] == pins[..i];
        if TargetOf(p) != "" && p.bot != "" && VoteInvalid(p) == Counted {
          last := last[(TargetOf(p), p.bot) := p.body.verdict];
        }
      }
      assert pins[..|pins|] == pins;
    }

    /** A node's effective submission and its votes, the map visited in any
      * order. */
    method VerifiedSub(node: string) returns (sub: Option<Sub>, good: nat, bad: nat)
      requires Settled()
      ensures View(Lookup(holders, node), sub, good, bad) == GlobalView(pools, node)
    {
      sub, good, bad := Lookup(subs, node), 0, 0;
      if sub == None {
        return;
      }
      good, bad := CountVotes(last, sub.value.pin, sub.value.author, pools.rootAuthor);
    }

    /** The status the read path reports for a node. */
    method NodeStatus(node: string) returns (status: Status)
      requires Settled()
      ensures status == PlainStatus(GlobalView(pools, node), pools.quorum)
    {
      var sub, good, bad := VerifiedSub(node);
      if sub.Some? && good >= pools.quorum && bad == 0 {
        status := Verified;
      } else if node in holders {
        status := Claimed;
      } else {
        status := Open;
      }
    }

    method GuardState(node: string, c: Clock) returns (status: Status)
      ensures status == GuardStatus(NodeView(pools, node), HeldBy(NodeTimeline(pools, node)).inflight, pools.quorum, c)
    {
      var holder, inflight := GuardHolder(node);
      var sub, good, bad := GuardVotes(node, holder);
      if inflight && holder.Some? {
        status := Claimed;
      } else if sub.Some? && good >= pools.quorum && bad == 0 {
        status := Verified;
      } else if sub.Some? && bad > 0 {
        status := Open;
      } else if holder.Some? && sub == None && c.ttlHours > 0 && c.now - holder.value.t0 > c.ttlHours * 3600 {
        status := Open;
      } else if sub.Some? && c.windowHours > 0 && c.now - sub.value.t > c.windowHours * 3600 && good < pools.quorum {
        status := Open;
      } else if holder.Some? {
        status := Claimed;
      } else {
        status := Open;
      }
    }

    method GuardHolder(node: string) returns (holder: Option<Holder>, inflight: bool)
      ensures Held(holder, inflight) == HeldBy(NodeTimeline(pools, node))
    {
      var claims := Pick(OfTaskNode(pools.root, node), pools.claims);
      var releases := Pick(OfTaskNode(pools.root, node), pools.releases);
      var timeline := StableSort(OrderLess, claims + releases);
      holder, inflight := None, false;
      for i := 0 to |timeline|
        invariant Held(holder, inflight) == HeldBy(timeline[..i])
      {
        var p := timeline[i];
        assert timeline[..i + 1][..i] == timeline[..i];
        if p.body.ClaimBody? {
          if holder == None {
            holder := Some(HolderOf(p));
            if p.genesisHeight < 0 {
              inflight := true;
            }
          }
        } else if holder.Some? && holder.value.pin == ClaimIdOf(p) {
          holder := None;
        }
      }
      assert timeline[..|timeline|] == timeline;
    }

    method GuardVotes(node: string, holder: Option<Holder>) returns (sub: Option<Sub>, good: nat, bad: nat)
      requires holder == HeldBy(NodeTimeline(pools, node)).holder
      ensures View(holder, sub, good, bad) == NodeView(pools, node)
    {
      sub, good, bad := None, 0, 0;
      if holder == None {
        return;
      }
      sub := FindSub(node, holder.value.pin);
      if sub == None {
        return;
      }
      var votes := CollectFor(sub.value.pin);
      good, bad := CountOwnVotes(votes, sub.value.author, pools.rootAuthor);
    }

    method FindSub(node: string, holder: string) returns (sub: Option<Sub>)
      ensures sub == FirstSub(pools.root, node, holder, pools.submissions)
    {
      var pins := pools.submissions;
      var i := 0;
      while i < |pins|
        invariant 0 <= i <= |pins|
        invariant FirstSub(pools.root, node, holder, pins) == FirstSub(pools.root, node, holder, pins[i..])
      {
        if Rides(pools.root, node, holder, pins[i]) {
          return Some(SubOf(pins[i]));
        }
        i := i + 1;
      }
      sub := None;
    }

    method CollectFor(target: string) returns (votes: map<string, Verdict>)
      ensures votes == LastFor(target, pools.verifies)
    {
      votes := map[];
      var pins := pools.verifies;
      for i := 0 to |pins|
        invariant votes == LastFor(target, pins[..i])
      {
        var p := pins[i];
        assert pins[..i + 1][..i] == pins[..i];
        if TargetOf(p) == target && VoteInvalid(p) == Counted {
          if p.bot != "" {
            votes := votes[p.bot := p.body.verdict];
          }
        }
      }
      assert pins[..|pins|] == pins;
    }
  }

  /** Taking `x` out of what is left to visit adds it to what was visited. */
  lemma LeavesOne<T>(all: set<T>, rest: set<T>, x: T)
    requires x in rest
    ensures |all - (rest - {x})| == |all - rest| + if x in all then 1 else 0
  {
    if x in all {
      assert all - (rest - {x}) == (all - rest) + {x};
    } else {
      assert all - (rest - {x}) == all - rest;
    }
  }
}
