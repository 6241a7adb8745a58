/** The engine's replay as one method: both passes in place, the amend loop, the
    memoised aggregation and the settlement loops, against `Replay.ReplayTask`. */
module ReplayEngine {
  import opened ChainEvents
  import opened Walk
  import opened TreeShape
  import opened Replay
  import Aggregation
  import AmendFold
  import CanonicalJson
  import Settlement

  /** What the engine reports of a task. */
  datatype Report = Report(tree: Tree, treeOrder: seq<string>, head: string, ignoredAmends: seq<AmendFold.IgnoredAmend>,
                           walk: WalkState, log: seq<Ignored>, nodes: set<string>, finals: set<string>,
                           complete: bool, shares: Option<Settlement.Shares>, eventSet: string)

  function ReportOf(c: Conclusion): Report
    requires c.Concluded? && c.fold.Folding?
  {
    Report(c.fold.nodes, c.fold.order, c.fold.head, c.fold.ignored, c.walk, c.log, c.nodes, c.finals, c.complete,
           c.shares, c.eventSet)
  }

  method WalkPass(f: Feed, t: Terms, o: Options, inTree: Option<set<string>>)
    returns (w: WalkState, log: seq<Ignored>, claimants: set<string>)
    ensures w == Replay.Pass(f, t, o, inTree)
    ensures log == RunLog(ConfigOf(f, t, o), inTree, Timeline(f, t, o))
    ensures claimants == RunCounts(ConfigOf(f, t, o), inTree, Timeline(f, t, o)).Keys
  {
    var walker := new Walker(ConfigOf(f, t, o), inTree);
    walker.RunWalk(Timeline(f, t, o));
    if o.now.Some? {
      walker.ApplyExpiry(Clock(o.now.value, t.ttlHours, t.windowHours));
    }
    w, log, claimants := walker.View(), walker.ignored, walker.claimCounts.Keys;
  }

  /** The amend loop, fed by an unfiltered first pass. */
  method EffectiveTree(f: Feed, t: Terms, o: Options)
    returns (tree: Tree, order: seq<string>, ignored: seq<AmendFold.IgnoredAmend>, head: string)
    requires AmendFold.AllAmends(f.amends) && FoldOf(f, t, o).Folding?
    ensures var s := FoldOf(f, t, o); tree == s.nodes && order == s.order && ignored == s.ignored && head == s.head
    ensures Named(tree)
  {
    var w, _, _ := WalkPass(f, t, o, None);
    var inputs := InputsFrom(f, t, o, w);
    var published := PublishedTree(f, t);
    PublishedIsOk(f, t);
    AmendFold.FoldKeepsTree(inputs, published.0, published.1, f.amends);
    tree, order, ignored, head := AmendFold.FoldAmends(inputs, published.0, published.1, f.amends);
  }

  method VerifiedNodes(task: Aggregation.Task, order: seq<string>, ghost nodes: set<string>) returns (finals: set<string>)
    requires Lists(order, nodes)
    ensures finals == FinalNodes(nodes, task)
  {
    var aggregator := new Aggregation.Aggregator(task);
    finals := aggregator.AllFinal(order, Aggregation.InOrder(task) + nodes);
  }

  /** The settlement over any listing of the nodes. */
  method SettleTask(f: Feed, t: Terms, o: Options, inTree: Option<set<string>>, w: WalkState, task: Aggregation.Task,
                    claimants: set<string>, order: seq<string>, nodes: set<string>, finals: set<string>)
    returns (shares: Settlement.Shares)
    requires task.active == ActiveCycles(w) && Named(task.tree) && finals == FinalNodes(nodes, task)
    requires claimants == RunCounts(ConfigOf(f, t, o), inTree, Timeline(f, t, o)).Keys
    requires Distinct(order) && Lists(order, nodes)
    ensures shares == SharesOf(f, t, o, inTree, w, task, nodes)
  {
    var k := CaseOf(f, t, o, w, finals);
    var ids := {t.rootAuthor} + claimants + set n | n in nodes && n in task.active :: task.active[n].effective.author;
    var roll: Settlement.Roll := map id | id in ids :: Settlement.Stats(0, 0);
    assert roll == EnrolledFirst(f, t, o, inTree, w, nodes);
    ReviewersEnrolled(f, t, o, w, task, nodes, roll);
    var reviewed := Settlement.ReviewCycles(k, roll, AllCycles(w, w.cycleOrder));
    shares := Settlement.Settle(k, reviewed, order, task.tree);
    Settlement.ListingDoesNotMatter(k, reviewed, order, NodeOrder(nodes), task.tree);
  }

  /** Walk, fold, walk again inside the effective tree, aggregate and settle. */
  method ReplayRoot(f: Feed, t: Terms, o: Options) returns (r: Report)
    requires AmendFold.AllAmends(f.amends) && FoldOf(f, t, o).Folding?
    ensures r == ReportOf(Concluding(f, t, o))
  {
    ghost var fold := FoldOf(f, t, o);
    var tree, treeOrder, ignored, head := EffectiveTree(f, t, o);
    var pinned := TreePinOf(f, t).Some?;
    var inTree := if pinned then Some(tree.Keys) else None;
    assert inTree == MembershipOf(f, t, fold);
    var w, log, claimants := WalkPass(f, t, o, inTree);
    var nodes := if pinned then tree.Keys else (set key | key in w.cycleOrder :: key.0) + w.holders.Keys;
    assert nodes == NodeSet(f, t, fold, w);
    var order := AnyOrder(nodes);
    var active := ActiveCycles(w);
    var task := Aggregation.Task(tree, treeOrder, active, ListedOf(f.submissions), o.hAct2);
    var finals := VerifiedNodes(task, order, nodes);
    var root := RootNode(tree, treeOrder, DeclaredRoot(f, t));
    var complete := if root != "" then root in finals else nodes != {} && finals == nodes;
    var shares: Option<Settlement.Shares> := None;
    if complete && !o.openChallenge {
      var paid := SettleTask(f, t, o, inTree, w, task, claimants, order, nodes, finals);
      shares := Some(paid);
    }
    var eventSet := CanonicalJson.Write(CanonicalJson.EntriesJson(HashEntries(f, t, o.rootPin, HASH_ORDER)));
    r := Report(tree, treeOrder, head, ignored, w, log, nodes, finals, complete, shares, eventSet);
  }

  /** A task is replayed whenever its amend fold has an end. */
  method ReplayEvents(events: seq<ChainEvent>, o: Options) returns (r: Option<Report>)
    requires !ReplayTask(events, o).Unending?
    ensures r.Some? <==> ReplayTask(events, o).Concluded?
    ensures r.Some? ==> ReplayTask(events, o).fold.Folding? && r.value == ReportOf(ReplayTask(events, o))
  {
    var f := FeedOf(events, o.rootPin);
    var root := FindPin(f.tasks, o.rootPin);
    if root.None? || !root.value.body.Task? || !AmendFold.AllAmends(f.amends) {
      return None;
    }
    var report := ReplayRoot(f, TermsOf(root.value), o);
    r := Some(report);
  }
}
