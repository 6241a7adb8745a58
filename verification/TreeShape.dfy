/** Task-tree nodes and the three walks over their parent links
    (internal/metatask/v121.go:303-363, 731-764): the weight total, the
    acyclicity check, and the descendant search of a node removal. */
module TreeShape {
  import opened ChainEvents

  /** `parent` None is JSON null (the root); a parent may name a missing node. */
  datatype TreeNode = TreeNode(id: string, parent: Option<string>, title: string, kind: string,
                               specId: Option<string>, weight: Option<real>)

  type Tree = map<string, TreeNode>

  // ------------------------------------------------------------------
  // Weights
  // ------------------------------------------------------------------

  /** A usable weight is an integer in 1..10000. */
  function WeightOf(n: TreeNode): (w: Option<int>)
    ensures w.Some? ==> 1 <= w.value <= 10000 && n.weight == Some(w.value as real)
  {
    if n.weight.Some? && n.weight.value == n.weight.value.Floor as real && 1.0 <= n.weight.value <= 10000.0
    then Some(n.weight.value.Floor)
    else None
  }

  ghost predicate AllWeighted(nodes: Tree, ids: set<string>)
    requires ids <= nodes.Keys
  {
    forall id | id in ids :: WeightOf(nodes[id]).Some?
  }

  ghost function SumOver(nodes: Tree, ids: set<string>): (total: int)
    requires ids <= nodes.Keys && AllWeighted(nodes, ids)
  {
    if ids == {} then 0
    else
      var id :| id in ids;
      WeightOf(nodes[id]).value + SumOver(nodes, ids - {id})
  }

  /** The sum may be taken starting from any node. */
  lemma {:induction false} SumFromAny(nodes: Tree, ids: set<string>, id: string)
    requires ids <= nodes.Keys && AllWeighted(nodes, ids) && id in ids
    ensures SumOver(nodes, ids) == WeightOf(nodes[id]).value + SumOver(nodes, ids - {id})
    decreases ids
  {
    var first :| first in ids && SumOver(nodes, ids) == WeightOf(nodes[first]).value + SumOver(nodes, ids - {first});
    if first != id {
      SumFromAny(nodes, ids - {first}, id);
      SumFromAny(nodes, ids - {id}, first);
      assert ids - {first} - {id} == ids - {id} - {first};
    }
  }

  /** -1 when some weight is unusable. */
  ghost function TotalWeight(nodes: Tree): int {
    if AllWeighted(nodes, nodes.Keys) then SumOver(nodes, nodes.Keys) else -1
  }

  /** Go ranges over the map in an unspecified order; the result does not depend on it. */
  method SumWeights(nodes: Tree) returns (total: int)
    ensures total == TotalWeight(nodes)
  {
    total := 0;
    var todo := nodes.Keys;
    while todo != {}
      invariant todo <= nodes.Keys
      invariant AllWeighted(nodes, nodes.Keys - todo)
      invariant AllWeighted(nodes, nodes.Keys) ==> total + SumOver(nodes, todo) == SumOver(nodes, nodes.Keys)
      decreases todo
    {
      var id :| id in todo;
      var w := WeightOf(nodes[id]);
      if w.None? {
        return -1;
      }
      if AllWeighted(nodes, nodes.Keys) {
        SumFromAny(nodes, todo, id);
      }
      total := total + w.value;
      todo := todo - {id};
    }
    assert nodes.Keys - todo == nodes.Keys;
  }

  // ------------------------------------------------------------------
  // Climbing
  // ------------------------------------------------------------------

  /** One step towards the root; the empty string is past the top. */
  function Up(nodes: Tree, id: string): string {
    if id in nodes && nodes[id].parent.Some? then nodes[id].parent.value else ""
  }

  function Climb(nodes: Tree, id: string, k: nat): string
    decreases k
  {
    if k == 0 then id else Climb(nodes, Up(nodes, id), k - 1)
  }

  lemma {:induction false} ClimbAdds(nodes: Tree, id: string, i: nat, j: nat)
    ensures Climb(nodes, id, i + j) == Climb(nodes, Climb(nodes, id, i), j)
    decreases i
  {
    if i > 0 {
      ClimbAdds(nodes, Up(nodes, id), i - 1, j);
    }
  }

  /** Node ids are never the empty string. */
  ghost predicate Named(nodes: Tree) {
    "" !in nodes && forall id | id in nodes :: nodes[id].id == id
  }

  lemma {:induction false} TopStaysTop(nodes: Tree, k: nat)
    requires "" !in nodes
    ensures Climb(nodes, "", k) == ""
  {
    if k > 0 {
      TopStaysTop(nodes, k - 1);
    }
  }

  /** Climbing from every node ends past the top. */
  ghost predicate Acyclic(nodes: Tree) {
    forall id | id in nodes :: Ends(nodes, id)
  }

  ghost predicate Ends(nodes: Tree, id: string) {
    exists k: nat :: Climb(nodes, id, k) == ""
  }

  /** A set of ids closed under climbing is never left. */
  lemma {:induction false} ClosedIsNeverLeft(nodes: Tree, ids: set<string>, id: string, k: nat)
    requires id in ids
    requires forall x | x in ids :: Up(nodes, x) in ids
    ensures Climb(nodes, id, k) in ids
    decreases k
  {
    if k > 0 {
      ClosedIsNeverLeft(nodes, ids, Up(nodes, id), k - 1);
    }
  }

  method ClimbEnds(nodes: Tree, start: string) returns (ends: bool)
    requires Named(nodes) && start in nodes
    ensures ends == Ends(nodes, start)
  {
    var seen: set<string> := {};
    var cursor := start;
    ghost var steps: nat := 0;
    while cursor != ""
      invariant "" !in seen
      invariant start in seen || cursor == start
      invariant forall x | x in seen :: Up(nodes, x) in seen + {cursor}
      invariant seen <= nodes.Keys || cursor == ""
      invariant Climb(nodes, start, steps) == cursor
      decreases cursor != "", |nodes.Keys - seen|
    {
      if cursor in seen {
        forall k: nat
          ensures Climb(nodes, start, k) != ""
        {
          ClosedIsNeverLeft(nodes, seen, start, k);
        }
        return false;
      }
      ghost var before := cursor;
      ghost var left := nodes.Keys - seen;
      seen := seen + {cursor};
      ClimbAdds(nodes, start, steps, 1);
      assert Climb(nodes, cursor, 1) == Climb(nodes, Up(nodes, cursor), 0) == Up(nodes, cursor);
      steps := steps + 1;
      cursor := if cursor in nodes && nodes[cursor].parent.Some? then nodes[cursor].parent.value else "";
      assert before in nodes ==> nodes.Keys - seen == left - {before};
    }
    return true;
  }

  /** Again the order the map is ranged over does not matter. */
  method IsAcyclic(nodes: Tree) returns (acyclic: bool)
    requires Named(nodes)
    ensures acyclic == Acyclic(nodes)
  {
    var todo := nodes.Keys;
    while todo != {}
      invariant todo <= nodes.Keys
      invariant forall id | id in nodes && id !in todo :: Ends(nodes, id)
      decreases todo
    {
      var start :| start in todo;
      var ends := ClimbEnds(nodes, start);
      if !ends {
        return false;
      }
      todo := todo - {start};
    }
    return true;
  }

  // ------------------------------------------------------------------
  // Searching a subtree for frozen nodes
  // ------------------------------------------------------------------

  /** `id` is `top` or one of its descendants. */
  ghost predicate Below(nodes: Tree, top: string, id: string) {
    id in nodes && exists k: nat :: Climb(nodes, id, k) == top
  }

  ghost predicate FrozenBelow(nodes: Tree, top: string, frozen: set<string>) {
    exists id :: id in frozen && Below(nodes, top, id)
  }

  /** Climbing from the node comes back to it. */
  ghost predicate OnCycle(nodes: Tree, id: string) {
    exists k: nat :: k > 0 && Climb(nodes, id, k) == id
  }

  /** The node or one above it is frozen. */
  ghost predicate FrozenAbove(nodes: Tree, id: string, frozen: set<string>) {
    exists k: nat :: Climb(nodes, id, k) in frozen
  }

  /** Off a parent cycle, or on one with a frozen member. */
  ghost predicate SearchEnds(nodes: Tree, top: string, frozen: set<string>) {
    OnCycle(nodes, top) ==> FrozenAbove(nodes, top, frozen)
  }

  lemma EndsIsOffCycle(nodes: Tree, id: string)
    requires Named(nodes) && id in nodes && Ends(nodes, id)
    ensures !OnCycle(nodes, id)
  {
    if OnCycle(nodes, id) {
      var period: nat :| period > 0 && Climb(nodes, id, period) == id;
      var top: nat :| Climb(nodes, id, top) == "";
      RoundTheCycle(nodes, id, period, top);
      TopStaysTop(nodes, top * period - top);
      ClimbAdds(nodes, id, top, top * period - top);
      assert false;
    }
  }

  lemma {:induction false} RoundTheCycle(nodes: Tree, id: string, period: nat, laps: nat)
    requires period > 0 && Climb(nodes, id, period) == id
    ensures Climb(nodes, id, laps * period) == id
    ensures laps * period >= laps
  {
    if laps > 0 {
      RoundTheCycle(nodes, id, period, laps - 1);
      assert laps * period == (laps - 1) * period + period;
      ClimbAdds(nodes, id, (laps - 1) * period, period);
    }
  }

  function Children(nodes: Tree, id: string): set<string> {
    set c | c in nodes && nodes[c].parent == Some(id)
  }

  ghost predicate Distinct(s: seq<string>) {
    forall i, j | 0 <= i < j < |s| :: s[i] != s[j]
  }

  ghost predicate Lists(s: seq<string>, ids: set<string>) {
    forall id :: id in s <==> id in ids
  }

  lemma DistinctConcat(a: seq<string>, b: seq<string>)
    requires Distinct(a) && Distinct(b) && forall id | id in a :: id !in b
    ensures Distinct(a + b)
  {
    forall i, j | 0 <= i < j < |a + b|
      ensures (a + b)[i] != (a + b)[j]
    {
      if i < |a| <= j {
        assert (a + b)[i] in a && (a + b)[j] in b;
      }
    }
  }

  /** What the search keeps while it runs; `pending` are the nodes on its stack. */
  ghost predicate Searching(nodes: Tree, top: string, visited: set<string>, pending: set<string>) {
    && pending <= nodes.Keys && pending !! visited
    && (forall id | id in visited + pending :: Below(nodes, top, id) && (id != top ==> Up(nodes, id) in visited))
    && top in visited + pending
    && (forall id | id in nodes && nodes[id].parent.Some? && nodes[id].parent.value in visited :: id in visited + pending)
  }

  /** The search comes back to its start only once it has been all round a cycle. */
  lemma NotBackAtTop(nodes: Tree, top: string, frozen: set<string>, visited: set<string>, pending: set<string>, cur: string)
    requires Named(nodes) && Searching(nodes, top, visited, pending) && cur in pending
    requires SearchEnds(nodes, top, frozen) && visited !! frozen && cur !in frozen
    ensures Up(nodes, top) != cur
  {
    if Up(nodes, top) == cur {
      var k: nat :| Climb(nodes, cur, k) == top;
      assert Climb(nodes, top, k + 1) == top;
      var j: nat :| Climb(nodes, top, j) in frozen;
      ClosedIsNeverLeft(nodes, visited + {cur}, cur, k);
      ClosedIsNeverLeft(nodes, visited + {cur}, top, j);
    }
  }

  /** The children of a popped node were not met before. */
  lemma ChildrenAreNew(nodes: Tree, top: string, visited: set<string>, pending: set<string>, cur: string, child: string)
    requires Named(nodes) && Searching(nodes, top, visited, pending) && cur in pending
    requires top in nodes && Up(nodes, top) != cur && child in Children(nodes, cur)
    ensures child !in visited && child !in pending && Below(nodes, top, child)
  {
    var k: nat :| Climb(nodes, cur, k) == top;
    assert Up(nodes, child) == cur && Climb(nodes, child, k + 1) == top;
    assert child != top;
  }

  lemma SearchStep(nodes: Tree, top: string, visited: set<string>, pending: set<string>, cur: string)
    requires Named(nodes) && Searching(nodes, top, visited, pending) && cur in pending
    requires top in nodes && Up(nodes, top) != cur
    ensures Children(nodes, cur) !! pending
    ensures Searching(nodes, top, visited + {cur}, pending - {cur} + Children(nodes, cur))
  {
    forall child | child in Children(nodes, cur)
      ensures child !in visited && child !in pending && Below(nodes, top, child) && Up(nodes, child) == cur
    {
      ChildrenAreNew(nodes, top, visited, pending, cur, child);
    }
  }

  /** A proper descendant hangs on a node of the tree. */
  lemma DescendantHangs(nodes: Tree, top: string, id: string, k: nat)
    requires Named(nodes) && top in nodes && k > 0 && Climb(nodes, id, k) == top
    ensures Up(nodes, id) in nodes && Climb(nodes, Up(nodes, id), k - 1) == top
  {
    if Up(nodes, id) !in nodes && k > 1 {
      TopStaysTop(nodes, k - 2);
    }
  }

  /** When the stack is empty every descendant was visited. */
  lemma {:induction false} EveryDescendantVisited(nodes: Tree, top: string, visited: set<string>, id: string, k: nat)
    requires Named(nodes) && Searching(nodes, top, visited, {}) && top in nodes
    requires id in nodes && Climb(nodes, id, k) == top
    ensures id in visited
    decreases k
  {
    if k > 0 {
      DescendantHangs(nodes, top, id, k);
      EveryDescendantVisited(nodes, top, visited, Up(nodes, id), k - 1);
    }
  }

  /** Depth-first from `top`, giving up at the first frozen node. Children are
      pushed in any order. Unless `top` is on a parent cycle without a frozen
      member the search ends, and finds a frozen node iff there is one. */
  method SearchFrozen(nodes: Tree, top: string, frozen: set<string>) returns (found: bool)
    requires Named(nodes) && top in nodes && SearchEnds(nodes, top, frozen)
    ensures found == FrozenBelow(nodes, top, frozen)
  {
    var stack := [top];
    ghost var visited: set<string>, pending := {}, {top};
    assert Climb(nodes, top, 0) == top;
    while stack != []
      invariant visited <= nodes.Keys && Searching(nodes, top, visited, pending)
      invariant Distinct(stack) && Lists(stack, pending)
      invariant visited !! frozen
      decreases |nodes.Keys - visited|
    {
      var cur := stack[|stack| - 1];
      assert cur in stack;
      if cur in frozen {
        return true;
      }
      NotBackAtTop(nodes, top, frozen, visited, pending, cur);
      SearchStep(nodes, top, visited, pending, cur);
      var kids := AnyOrder(Children(nodes, cur));
      PopPush(stack, pending, kids, Children(nodes, cur));
      Shrinks(nodes.Keys - (visited + {cur}), nodes.Keys - visited);
      stack := stack[..|stack| - 1] + kids;
      visited, pending := visited + {cur}, pending - {cur} + Children(nodes, cur);
    }
    assert pending == {};
    forall id | id in frozen
      ensures !Below(nodes, top, id)
    {
      if Below(nodes, top, id) {
        var k: nat :| Climb(nodes, id, k) == top;
        EveryDescendantVisited(nodes, top, visited, id, k);
      }
    }
    return false;
  }

  lemma Shrinks(a: set<string>, b: set<string>)
    requires a < b
    ensures |a| < |b|
  {
    var x :| x in b && x !in a;
    assert a <= b - {x};
    Grows(a, b - {x});
  }

  lemma Grows(a: set<string>, b: set<string>)
    requires a <= b
    ensures |a| <= |b|
  {
    assert b == a + (b - a);
  }

  lemma PopPush(stack: seq<string>, pending: set<string>, kids: seq<string>, children: set<string>)
    requires Distinct(stack) && Lists(stack, pending) && stack != []
    requires Distinct(kids) && Lists(kids, children) && children !! pending
    ensures Distinct(stack[..|stack| - 1] + kids)
    ensures Lists(stack[..|stack| - 1] + kids, pending - {stack[|stack| - 1]} + children)
  {
    var cur, rest := stack[|stack| - 1], stack[..|stack| - 1];
    assert stack == rest + [cur];
    PoppedIsNew(rest, cur);
    DistinctConcat(rest, kids);
  }

  lemma PoppedIsNew(rest: seq<string>, cur: string)
    requires Distinct(rest + [cur])
    ensures Distinct(rest) && cur !in rest
  {
    forall i | 0 <= i < |rest|
      ensures rest[i] != cur
    {
      assert (rest + [cur])[i] == rest[i] && (rest + [cur])[|rest|] == cur;
    }
    forall i, j | 0 <= i < j < |rest|
      ensures rest[i] != rest[j]
    {
      assert (rest + [cur])[i] == rest[i] && (rest + [cur])[j] == rest[j];
    }
  }

  /** The elements of a set, in an order of no one's choosing. */
  method AnyOrder(ids: set<string>) returns (s: seq<string>)
    ensures Distinct(s) && Lists(s, ids)
  {
    s := [];
    var todo := ids;
    while todo != {}
      invariant todo <= ids && Distinct(s) && forall id :: id in s <==> id in ids - todo
      decreases todo
    {
      var id :| id in todo;
      forall i | 0 <= i < |s|
        ensures s[i] != id
      {
        assert s[i] in s;
      }
      s := s + [id];
      todo := todo - {id};
    }
  }

  // ------------------------------------------------------------------
  // When the search has an end
  // ------------------------------------------------------------------

  /** One round of the search that meets no frozen node. */
  ghost predicate Round(nodes: Tree, frozen: set<string>, stack: seq<string>, stack': seq<string>) {
    && stack != []
    && stack[|stack| - 1] !in frozen
    && |stack'| >= |stack| - 1
    && stack'[..|stack| - 1] == stack[..|stack| - 1]
    && Distinct(stack'[|stack| - 1..])
    && Lists(stack'[|stack| - 1..], Children(nodes, stack[|stack| - 1]))
  }

  /** The stacks of a search from `top`, one round after the other. */
  ghost predicate SearchRun(nodes: Tree, top: string, frozen: set<string>, run: seq<seq<string>>) {
    && run != [] && run[0] == [top]
    && forall i | 0 <= i < |run| - 1 :: Round(nodes, frozen, run[i], run[i + 1])
  }

  /** A search from `top` that goes on for ever. */
  ghost predicate Endless(nodes: Tree, top: string, frozen: set<string>, stackAt: nat -> seq<string>) {
    stackAt(0) == [top] && forall i: nat :: Round(nodes, frozen, stackAt(i), stackAt(i + 1))
  }

  lemma RoundKeepsSearching(nodes: Tree, top: string, frozen: set<string>, stack: seq<string>, stack': seq<string>,
                            visited: set<string>, pending: set<string>)
    requires Named(nodes) && top in nodes && SearchEnds(nodes, top, frozen) && Round(nodes, frozen, stack, stack')
    requires Searching(nodes, top, visited, pending) && visited !! frozen && Distinct(stack) && Lists(stack, pending)
    ensures var cur := stack[|stack| - 1];
            && cur in pending && Distinct(stack')
            && Searching(nodes, top, visited + {cur}, pending - {cur} + Children(nodes, cur))
            && Lists(stack', pending - {cur} + Children(nodes, cur))
  {
    var cur := stack[|stack| - 1];
    assert cur in stack;
    NotBackAtTop(nodes, top, frozen, visited, pending, cur);
    SearchStep(nodes, top, visited, pending, cur);
    var kids := stack'[|stack| - 1..];
    PopPush(stack, pending, kids, Children(nodes, cur));
    assert stack' == stack[..|stack| - 1] + kids;
  }

  lemma FrontOfRun(nodes: Tree, top: string, frozen: set<string>, run: seq<seq<string>>, n: nat)
    requires SearchRun(nodes, top, frozen, run) && 0 < n && n + 1 == |run|
    ensures SearchRun(nodes, top, frozen, run[..n]) && run[..n][n - 1] == run[n - 1]
    ensures Round(nodes, frozen, run[n - 1], run[n])
  {
    forall i | 0 <= i < n - 1
      ensures Round(nodes, frozen, run[..n][i], run[..n][i + 1])
    {
      assert Round(nodes, frozen, run[i], run[i + 1]);
    }
  }

  lemma {:induction false} RunSearches(nodes: Tree, top: string, frozen: set<string>, run: seq<seq<string>>)
    returns (visited: set<string>, pending: set<string>)
    requires Named(nodes) && top in nodes && SearchEnds(nodes, top, frozen) && SearchRun(nodes, top, frozen, run)
    ensures visited <= nodes.Keys && visited !! frozen && |visited| == |run| - 1
    ensures Searching(nodes, top, visited, pending)
    ensures Distinct(run[|run| - 1]) && Lists(run[|run| - 1], pending)
    decreases |run|
  {
    var n := |run| - 1;
    if n == 0 {
      visited, pending := {}, {top};
      assert Climb(nodes, top, 0) == top;
    } else {
      FrontOfRun(nodes, top, frozen, run, n);
      visited, pending := RunSearches(nodes, top, frozen, run[..n]);
      visited, pending := RoundSearches(nodes, top, frozen, run[n - 1], run[n], visited, pending);
    }
  }

  lemma RoundSearches(nodes: Tree, top: string, frozen: set<string>, stack: seq<string>, stack': seq<string>,
                      visited: set<string>, pending: set<string>)
    returns (visited': set<string>, pending': set<string>)
    requires Named(nodes) && top in nodes && SearchEnds(nodes, top, frozen) && Round(nodes, frozen, stack, stack')
    requires Searching(nodes, top, visited, pending) && visited !! frozen && Distinct(stack) && Lists(stack, pending)
    requires visited <= nodes.Keys
    ensures visited' <= nodes.Keys && visited' !! frozen && |visited'| == |visited| + 1
    ensures Searching(nodes, top, visited', pending') && Distinct(stack') && Lists(stack', pending')
  {
    RoundKeepsSearching(nodes, top, frozen, stack, stack', visited, pending);
    var cur := stack[|stack| - 1];
    visited', pending' := visited + {cur}, pending - {cur} + Children(nodes, cur);
  }

  /** Then no node is visited twice. */
  lemma RunsAreShort(nodes: Tree, top: string, frozen: set<string>, run: seq<seq<string>>)
    requires Named(nodes) && top in nodes && SearchEnds(nodes, top, frozen) && SearchRun(nodes, top, frozen, run)
    ensures |run| <= |nodes| + 1
  {
    var visited, _ := RunSearches(nodes, top, frozen, run);
    Grows(visited, nodes.Keys);
  }

  ghost function Listing(ids: set<string>): (s: seq<string>)
    ensures Distinct(s) && Lists(s, ids)
  {
    if ids == {} then []
    else
      var id :| id in ids;
      DistinctConcat(Listing(ids - {id}), [id]);
      Listing(ids - {id}) + [id]
  }

  /** The stack after `n` rounds that each push a child on the cycle last. */
  ghost function RoundAndRound(nodes: Tree, top: string, n: nat): (stack: seq<string>)
    requires Named(nodes) && top in nodes && OnCycle(nodes, top)
    ensures stack != [] && exists k: nat :: Climb(nodes, top, k) == stack[|stack| - 1]
  {
    if n == 0 then
      assert Climb(nodes, top, 0) == top;
      [top]
    else
      var before := RoundAndRound(nodes, top, n - 1);
      var cur := before[|before| - 1];
      var child := ChildOnCycle(nodes, top, cur);
      before[..|before| - 1] + Listing(Children(nodes, cur) - {child}) + [child]
  }

  ghost function ChildOnCycle(nodes: Tree, top: string, cur: string): (child: string)
    requires Named(nodes) && top in nodes && OnCycle(nodes, top)
    requires exists k: nat :: Climb(nodes, top, k) == cur
    ensures child in Children(nodes, cur) && exists k: nat :: Climb(nodes, top, k) == child
  {
    var k: nat :| Climb(nodes, top, k) == cur;
    SomeChildOnCycle(nodes, top, k);
    var j: nat :| Climb(nodes, top, j) in Children(nodes, cur);
    Climb(nodes, top, j)
  }

  lemma SomeChildOnCycle(nodes: Tree, top: string, k: nat)
    requires Named(nodes) && top in nodes && OnCycle(nodes, top)
    ensures exists j: nat :: Climb(nodes, top, j) in Children(nodes, Climb(nodes, top, k))
  {
    var j := CycleChild(nodes, top, k);
  }

  lemma GoesRound(nodes: Tree, top: string, frozen: set<string>, n: nat)
    requires Named(nodes) && top in nodes && !SearchEnds(nodes, top, frozen)
    ensures Round(nodes, frozen, RoundAndRound(nodes, top, n), RoundAndRound(nodes, top, n + 1))
  {
    var before := RoundAndRound(nodes, top, n);
    var cur := before[|before| - 1];
    var child := ChildOnCycle(nodes, top, cur);
    Pushes(nodes, frozen, before, cur, Listing(Children(nodes, cur) - {child}), child);
  }

  lemma Pushes(nodes: Tree, frozen: set<string>, stack: seq<string>, cur: string, others: seq<string>, child: string)
    requires stack != [] && stack[|stack| - 1] == cur && cur !in frozen && child in Children(nodes, cur)
    requires Distinct(others) && Lists(others, Children(nodes, cur) - {child})
    ensures Round(nodes, frozen, stack, stack[..|stack| - 1] + others + [child])
  {
    DistinctConcat(others, [child]);
    var stack' := stack[..|stack| - 1] + others + [child];
    assert stack'[|stack| - 1..] == others + [child];
    assert stack'[..|stack| - 1] == stack[..|stack| - 1];
  }

  /** The search can go on for ever exactly when `top` is on a parent cycle with
      no frozen member. */
  lemma EndlessIffOnFreeCycle(nodes: Tree, top: string, frozen: set<string>)
    requires Named(nodes) && top in nodes
    ensures !SearchEnds(nodes, top, frozen) <==> exists stackAt: nat -> seq<string> :: Endless(nodes, top, frozen, stackAt)
  {
    if SearchEnds(nodes, top, frozen) {
      forall stackAt: nat -> seq<string>
        ensures !Endless(nodes, top, frozen, stackAt)
      {
        if Endless(nodes, top, frozen, stackAt) {
          RunsAreShort(nodes, top, frozen, seq(|nodes| + 2, (i: nat) => stackAt(i)));
        }
      }
    } else {
      var stackAt: nat -> seq<string> := (i: nat) => RoundAndRound(nodes, top, i);
      forall i: nat
        ensures Round(nodes, frozen, stackAt(i), stackAt(i + 1))
      {
        GoesRound(nodes, top, frozen, i);
      }
      assert Endless(nodes, top, frozen, stackAt);
    }
  }

  /** Every run of rounds from a node on a cycle still has work to do: the search
      never gets to report that nothing below is frozen. */
  lemma {:induction false} CycleNeverClears(nodes: Tree, top: string, frozen: set<string>, run: seq<seq<string>>) returns (k: nat)
    requires Named(nodes) && top in nodes && OnCycle(nodes, top)
    requires SearchRun(nodes, top, frozen, run)
    ensures run[|run| - 1] != [] && Climb(nodes, top, k) in run[|run| - 1]
  {
    if |run| == 1 {
      k := 0;
    } else {
      var n := |run| - 1;
      var before, after := run[n - 1], run[n];
      k := CycleNeverClears(nodes, top, frozen, run[..n]);
      assert Round(nodes, frozen, before, after);
      var on := Climb(nodes, top, k);
      if on in before[..|before| - 1] {
        assert after == after[..|before| - 1] + after[|before| - 1..];
      } else {
        assert before == before[..|before| - 1] + [before[|before| - 1]];
        k := CycleChild(nodes, top, k);
        assert Lists(after[|before| - 1..], Children(nodes, on));
        assert Climb(nodes, top, k) in after[|before| - 1..];
      }
    }
  }

  /** Nothing is left to visit, or the next node is frozen. */
  predicate AtEnd(frozen: set<string>, stack: seq<string>) {
    stack == [] || stack[|stack| - 1] in frozen
  }

  /** However the children are pushed, the search comes to no end. */
  ghost predicate NeverEnds(nodes: Tree, top: string, frozen: set<string>) {
    forall run :: SearchRun(nodes, top, frozen, run) ==> !AtEnd(frozen, run[|run| - 1])
  }

  lemma {:induction false} StackIsBelow(nodes: Tree, top: string, frozen: set<string>, run: seq<seq<string>>)
    requires top in nodes && SearchRun(nodes, top, frozen, run)
    ensures forall id :: id in run[|run| - 1] ==> Below(nodes, top, id)
  {
    var n := |run| - 1;
    if n == 0 {
      assert Climb(nodes, top, 0) == top;
    } else {
      FrontOfRun(nodes, top, frozen, run, n);
      StackIsBelow(nodes, top, frozen, run[..n]);
      PushedAreBelow(nodes, top, frozen, run[n - 1], run[n]);
    }
  }

  lemma PushedAreBelow(nodes: Tree, top: string, frozen: set<string>, stack: seq<string>, stack': seq<string>)
    requires Round(nodes, frozen, stack, stack') && forall id :: id in stack ==> Below(nodes, top, id)
    ensures forall id :: id in stack' ==> Below(nodes, top, id)
  {
    var rest, cur, kids := stack[..|stack| - 1], stack[|stack| - 1], stack'[|stack| - 1..];
    assert cur in stack;
    var k: nat :| Climb(nodes, cur, k) == top;
    forall id | id in stack'
      ensures Below(nodes, top, id)
    {
      assert stack' == rest + kids;
      if id in kids {
        assert Up(nodes, id) == cur && Climb(nodes, id, k + 1) == top;
      }
    }
  }

  lemma LongerRun(nodes: Tree, top: string, frozen: set<string>, run: seq<seq<string>>, stack: seq<string>)
    requires SearchRun(nodes, top, frozen, run) && Round(nodes, frozen, run[|run| - 1], stack)
    ensures SearchRun(nodes, top, frozen, run + [stack])
  {
    var longer := run + [stack];
    forall i | 0 <= i < |longer| - 1
      ensures Round(nodes, frozen, longer[i], longer[i + 1])
    {
      if i < |run| - 1 {
        assert longer[i] == run[i] && longer[i + 1] == run[i + 1];
      }
    }
  }

  lemma AnyRound(nodes: Tree, frozen: set<string>, stack: seq<string>) returns (stack': seq<string>)
    requires !AtEnd(frozen, stack)
    ensures Round(nodes, frozen, stack, stack')
  {
    var kids := Listing(Children(nodes, stack[|stack| - 1]));
    stack' := stack[..|stack| - 1] + kids;
    assert stack'[|stack| - 1..] == kids;
  }

  /** Where every search ends, going on ends it. */
  lemma {:induction false} SomeRunEnds(nodes: Tree, top: string, frozen: set<string>, run: seq<seq<string>>) returns (all: seq<seq<string>>)
    requires Named(nodes) && top in nodes && SearchEnds(nodes, top, frozen) && SearchRun(nodes, top, frozen, run)
    ensures SearchRun(nodes, top, frozen, all) && AtEnd(frozen, all[|all| - 1])
    decreases |nodes| + 1 - |run|
  {
    all := run;
    RunsAreShort(nodes, top, frozen, run);
    if !AtEnd(frozen, run[|run| - 1]) {
      var stack := AnyRound(nodes, frozen, run[|run| - 1]);
      LongerRun(nodes, top, frozen, run, stack);
      RunsAreShort(nodes, top, frozen, run + [stack]);
      all := SomeRunEnds(nodes, top, frozen, run + [stack]);
    }
  }

  /** A search that always takes the branch towards a frozen node gets to one. */
  lemma {:induction false} RunDown(nodes: Tree, top: string, frozen: set<string>, run: seq<seq<string>>, id: string, k: nat)
    returns (all: seq<seq<string>>)
    requires Named(nodes) && SearchRun(nodes, top, frozen, run) && id in frozen
    requires run[|run| - 1] != [] && run[|run| - 1][|run[|run| - 1]| - 1] == Climb(nodes, id, k) && Climb(nodes, id, k) in nodes
    ensures SearchRun(nodes, top, frozen, all) && AtEnd(frozen, all[|all| - 1])
    decreases k
  {
    all := run;
    var stack := run[|run| - 1];
    var cur := stack[|stack| - 1];
    if cur !in frozen {
      var child := Climb(nodes, id, k - 1);
      ClimbAdds(nodes, id, k - 1, 1);
      assert Climb(nodes, child, 1) == Climb(nodes, Up(nodes, child), 0);
      assert child in Children(nodes, cur);
      var others := Listing(Children(nodes, cur) - {child});
      Pushes(nodes, frozen, stack, cur, others, child);
      LongerRun(nodes, top, frozen, run, stack[..|stack| - 1] + others + [child]);
      all := RunDown(nodes, top, frozen, run + [stack[..|stack| - 1] + others + [child]], id, k - 1);
    }
  }

  /** No order of visiting the children comes to an end exactly when `top` is on a
      parent cycle and no node at or below it is frozen. */
  lemma NeverEndsIff(nodes: Tree, top: string, frozen: set<string>)
    requires Named(nodes) && top in nodes
    ensures NeverEnds(nodes, top, frozen) <==> OnCycle(nodes, top) && !FrozenBelow(nodes, top, frozen)
  {
    if OnCycle(nodes, top) && !FrozenBelow(nodes, top, frozen) {
      forall run | SearchRun(nodes, top, frozen, run)
        ensures !AtEnd(frozen, run[|run| - 1])
      {
        var k := CycleNeverClears(nodes, top, frozen, run);
        StackIsBelow(nodes, top, frozen, run);
        assert run[|run| - 1][|run[|run| - 1]| - 1] in run[|run| - 1];
      }
    } else {
      SomeOrderEnds(nodes, top, frozen);
    }
  }

  lemma SomeOrderEnds(nodes: Tree, top: string, frozen: set<string>)
    requires Named(nodes) && top in nodes && (!OnCycle(nodes, top) || FrozenBelow(nodes, top, frozen))
    ensures !NeverEnds(nodes, top, frozen)
  {
    assert SearchRun(nodes, top, frozen, [[top]]);
    if FrozenBelow(nodes, top, frozen) {
      var id :| id in frozen && Below(nodes, top, id);
      var k: nat :| Climb(nodes, id, k) == top;
      var all := RunDown(nodes, top, frozen, [[top]], id, k);
    } else {
      var all := SomeRunEnds(nodes, top, frozen, [[top]]);
    }
  }

  /** Every node met on a cycle has a child on that cycle. */
  lemma CycleChild(nodes: Tree, top: string, k: nat) returns (j: nat)
    requires Named(nodes) && top in nodes && OnCycle(nodes, top)
    ensures Climb(nodes, top, j) in Children(nodes, Climb(nodes, top, k))
  {
    var period: nat :| period > 0 && Climb(nodes, top, period) == top;
    j := k + period - 1;
    var child := Climb(nodes, top, j);
    ClimbAdds(nodes, top, j, 1);
    ClimbAdds(nodes, top, period, k);
    assert Climb(nodes, child, 1) == Climb(nodes, Up(nodes, child), 0);
    assert Up(nodes, child) == Climb(nodes, top, k);
    OnCycleIsNamed(nodes, top, k);
    OnCycleIsNamed(nodes, top, j);
  }

  /** Climbing from a node on a cycle never gets past the top. */
  lemma OnCycleIsNamed(nodes: Tree, top: string, k: nat)
    requires Named(nodes) && top in nodes && OnCycle(nodes, top)
    ensures Climb(nodes, top, k) in nodes && Climb(nodes, top, k) != ""
  {
    var period: nat :| period > 0 && Climb(nodes, top, period) == top;
    RoundTheCycle(nodes, top, period, k + 1);
    var rest := (k + 1) * period - k;
    ClimbAdds(nodes, top, k, rest);
    var on := Climb(nodes, top, k);
    if on !in nodes {
      assert Climb(nodes, on, rest) == Climb(nodes, "", rest - 1);
      TopStaysTop(nodes, rest - 1);
    }
  }
}
