/** Grouping of search matches into result rows: an in-place union-find with
  * path halving over the keys the matches share, one row per component.
  */
module Dedupe {

  /** A publisher's identity, or the pin of a match that has none. */
  datatype Publisher = Known(id: string) | Nobody(pin: string)

  /** A match as the grouping sees it: `body` and `title` are its normalized
    * texts, the title without version markers; `marker` is what was cut out. */
  datatype Match = Match(
    sourcePin: string, currentPin: string, name: string, publisher: Publisher,
    body: string, title: string, marker: string, createdAt: int, score: int)

  datatype Key = BodyKey(of: Publisher, body: string) | TitleKey(of: Publisher, title: string)

  predicate HasKey(m: Match, k: Key) {
    k.of == m.publisher
    && match k
       case BodyKey(_, body) => body == m.body != ""
       case TitleKey(_, title) => title == m.title != ""
  }

  /** Same publisher, and the same body or the same title. */
  predicate Shares(a: Match, b: Match) {
    a.publisher == b.publisher && (a.body == b.body != "" || a.title == b.title != "")
  }

  lemma SharesMeansACommonKey(a: Match, b: Match)
    ensures Shares(a, b) <==> exists k :: HasKey(a, k) && HasKey(b, k)
  {
    if Shares(a, b) {
      if a.body == b.body != "" {
        assert HasKey(a, BodyKey(a.publisher, a.body)) && HasKey(b, BodyKey(a.publisher, a.body));
      } else {
        assert HasKey(a, TitleKey(a.publisher, a.title)) && HasKey(b, TitleKey(a.publisher, a.title));
      }
    }
  }

  // ---- Connected matches ----

  predicate IsPath(ms: seq<Match>, p: seq<nat>) {
    p != []
    && (forall i :: 0 <= i < |p| ==> p[i] < |ms|)
    && forall i :: 0 < i < |p| ==> Shares(ms[p[i - 1]], ms[p[i]])
  }

  ghost predicate Linked(ms: seq<Match>, a: nat, b: nat) {
    exists p :: IsPath(ms, p) && p[0] == a && p[|p| - 1] == b
  }

  lemma LinkedToItself(ms: seq<Match>, a: nat)
    requires a < |ms|
    ensures Linked(ms, a, a)
  {
    assert IsPath(ms, [a]) && [a][0] == a;
  }

  lemma SharingLinks(ms: seq<Match>, a: nat, b: nat)
    requires a < |ms| && b < |ms| && Shares(ms[a], ms[b])
    ensures Linked(ms, a, b)
  {
    var p := [a, b];
    assert IsPath(ms, p) && p[0] == a && p[|p| - 1] == b;
  }

  lemma LinkedThrough(ms: seq<Match>, a: nat, b: nat, c: nat)
    requires Linked(ms, a, b) && Linked(ms, b, c)
    ensures Linked(ms, a, c)
  {
    var p :| IsPath(ms, p) && p[0] == a && p[|p| - 1] == b;
    var q :| IsPath(ms, q) && q[0] == b && q[|q| - 1] == c;
    var r := p + q[1..];
    assert forall i :: 0 < i < |r| ==> Shares(ms[r[i - 1]], ms[r[i]]) by {
      forall i | 0 < i < |r| ensures Shares(ms[r[i - 1]], ms[r[i]]) {
        if i >= |p| {
          assert r[i] == q[i - |p| + 1] && r[i - 1] == q[i - |p|];
        }
      }
    }
    assert IsPath(ms, r) && r[0] == a && r[|r| - 1] == c;
  }

  lemma LinkedBack(ms: seq<Match>, a: nat, b: nat)
    requires Linked(ms, a, b)
    ensures Linked(ms, b, a)
  {
    var p :| IsPath(ms, p) && p[0] == a && p[|p| - 1] == b;
    var r := seq(|p|, i requires 0 <= i < |p| => p[|p| - 1 - i]);
    forall i | 0 < i < |r| ensures Shares(ms[r[i - 1]], ms[r[i]]) {
      var j := |p| - i;
      assert Shares(ms[p[j - 1]], ms[p[j]]);
    }
    assert IsPath(ms, r) && r[0] == b && r[|r| - 1] == a;
  }

  /** A property that sharing carries along holds all over a component. */
  lemma {:induction false} PathKeeps(ms: seq<Match>, root: seq<nat>, p: seq<nat>)
    requires IsPath(ms, p) && |root| == |ms| && Respects(ms, root)
    ensures root[p[0]] == root[p[|p| - 1]]
  {
    if |p| > 1 {
      var q := p[..|p| - 1];
      assert IsPath(ms, q);
      PathKeeps(ms, root, q);
      assert Shares(ms[p[|p| - 2]], ms[p[|p| - 1]]);
    }
  }

  predicate Respects(ms: seq<Match>, root: seq<nat>)
    requires |root| == |ms|
  {
    forall a, b :: 0 <= a < |ms| && 0 <= b < |ms| && Shares(ms[a], ms[b]) ==> root[a] == root[b]
  }

  // ---- The forest ----

  /** What a forest stands for: the root of every index, and ranks that grow
    * along every parent link, whichever way it points. */
  datatype Shape = Shape(root: seq<nat>, rank: seq<nat>, bound: nat)

  predicate NodeOk(p: seq<nat>, s: Shape, i: nat)
    requires i < |p| == |s.root| == |s.rank|
  {
    p[i] < |p| && s.root[i] < |p| && s.rank[i] <= s.bound
    && s.root[p[i]] == s.root[i] && s.root[s.root[i]] == s.root[i]
    && (p[i] == i <==> s.root[i] == i)
    && (p[i] != i ==> s.rank[i] < s.rank[p[i]])
  }

  predicate IsForest(p: seq<nat>, s: Shape) {
    |p| == |s.root| == |s.rank| && forall i :: 0 <= i < |p| ==> NodeOk(p, s, i)
  }

  /** The root of `start`. Halving the path moves links, never a root. */
  method Find(parent: array<nat>, start: nat, ghost s: Shape) returns (i: nat)
    requires start < parent.Length && IsForest(parent[..], s)
    modifies parent
    ensures IsForest(parent[..], s) && i == s.root[start]
  {
    i := start;
    while parent[i] != i
      invariant i < parent.Length && IsForest(parent[..], s) && s.root[i] == s.root[start]
      decreases s.bound - s.rank[i]
    {
      ghost var p := parent[..];
      assert NodeOk(p, s, i) && NodeOk(p, s, p[i]);
      parent[i] := parent[parent[i]];
      Halved(p, s, i, parent[..]);
      i := parent[i];
    }
    assert NodeOk(parent[..], s, i);
  }

  lemma Halved(p: seq<nat>, s: Shape, i: nat, q: seq<nat>)
    requires IsForest(p, s) && i < |p| && p[i] != i && p[i] < |p|
    requires q == p[i := p[p[i]]]
    ensures IsForest(q, s) && q[i] < |q| && s.rank[i] < s.rank[q[i]] && s.root[q[i]] == s.root[i]
  {
    assert NodeOk(p, s, i) && NodeOk(p, s, p[i]);
    assert NodeOk(p, s, p[p[i]]);
    forall k | 0 <= k < |q| ensures NodeOk(q, s, k) {
      assert NodeOk(p, s, k);
    }
  }

  /** The classes of `ri` and `rj` made one. */
  function Merged(root: seq<nat>, ri: nat, rj: nat): (r: seq<nat>)
    ensures |r| == |root|
  {
    seq(|root|, k requires 0 <= k < |root| => if root[k] == rj then ri else root[k])
  }

  function Joined(s: Shape, ri: nat, rj: nat): (t: Shape)
    requires |s.rank| == |s.root| && ri < |s.rank| && rj < |s.rank|
    ensures |t.root| == |s.root| == |t.rank|
  {
    var top := if s.rank[ri] <= s.rank[rj] then s.rank[rj] + 1 else s.rank[ri];
    Shape(Merged(s.root, ri, rj), s.rank[ri := top], s.bound + 1)
  }

  lemma JoinedIsForest(p: seq<nat>, s: Shape, ri: nat, rj: nat)
    requires IsForest(p, s) && ri < |p| && rj < |p| && ri != rj && s.root[ri] == ri && s.root[rj] == rj
    ensures IsForest(p[rj := ri], Joined(s, ri, rj))
  {
    var q, t := p[rj := ri], Joined(s, ri, rj);
    assert NodeOk(p, s, ri) && NodeOk(p, s, rj);
    forall k | 0 <= k < |q| ensures NodeOk(q, t, k) {
      assert NodeOk(p, s, k);
      assert NodeOk(p, s, p[k]);
      assert NodeOk(p, s, s.root[k]);
    }
  }

  method Union(parent: array<nat>, i: nat, j: nat, ghost s: Shape) returns (ghost t: Shape)
    requires i < parent.Length && j < parent.Length && IsForest(parent[..], s)
    modifies parent
    ensures IsForest(parent[..], t)
    ensures t.root == Merged(s.root, s.root[i], s.root[j])
  {
    assert NodeOk(parent[..], s, i) && NodeOk(parent[..], s, j);
    var ri := Find(parent, i, s);
    var rj := Find(parent, j, s);
    t := s;
    if ri == rj {
      assert Merged(s.root, ri, rj) == s.root;
    } else {
      JoinedIsForest(parent[..], s, ri, rj);
      parent[rj] := ri;
      t := Joined(s, ri, rj);
    }
  }

  // ---- Collecting the keys ----

  /** What the loop over matches keeps: equal roots mean linked matches, and
    * every key met is remembered at a match with that key. */
  ghost predicate Sound(ms: seq<Match>, root: seq<nat>, seen: map<Key, nat>) {
    |root| == |ms|
    && (forall a, b :: 0 <= a < |ms| && 0 <= b < |ms| && root[a] == root[b] ==> Linked(ms, a, b))
    && forall k :: k in seen ==> seen[k] < |ms| && HasKey(ms[seen[k]], k)
  }

  predicate Filed(root: seq<nat>, seen: map<Key, nat>, a: nat, k: Key)
    requires a < |root|
  {
    k in seen && seen[k] < |root| && root[a] == root[seen[k]]
  }

  ghost predicate AllFiled(ms: seq<Match>, root: seq<nat>, seen: map<Key, nat>, n: nat)
    requires n <= |ms| == |root|
  {
    forall a, k :: 0 <= a < n && HasKey(ms[a], k) ==> Filed(root, seen, a, k)
  }

  method Note(ms: seq<Match>, parent: array<nat>, seen: map<Key, nat>, i: nat, k: Key, ghost s: Shape)
    returns (seen': map<Key, nat>, ghost t: Shape)
    requires i < |ms| == parent.Length && HasKey(ms[i], k)
    requires IsForest(parent[..], s) && Sound(ms, s.root, seen)
    modifies parent
    ensures IsForest(parent[..], t) && Sound(ms, t.root, seen')
    ensures Filed(t.root, seen', i, k)
    ensures forall a, j :: 0 <= a < |ms| && Filed(s.root, seen, a, j) ==> Filed(t.root, seen', a, j)
  {
    if k in seen {
      t := Union(parent, seen[k], i, s);
      seen' := seen;
      SharesMeansACommonKey(ms[seen[k]], ms[i]);
      SharingLinks(ms, seen[k], i);
      MergedIsSound(ms, s.root, seen, seen[k], i);
    } else {
      t := s;
      seen' := seen[k := i];
    }
  }

  lemma MergedIsSound(ms: seq<Match>, root: seq<nat>, seen: map<Key, nat>, i: nat, j: nat)
    requires Sound(ms, root, seen) && i < |ms| && j < |ms| && Linked(ms, i, j)
    ensures Sound(ms, Merged(root, root[i], root[j]), seen)
  {
    var r := Merged(root, root[i], root[j]);
    forall a, b | 0 <= a < |ms| && 0 <= b < |ms| && r[a] == r[b] ensures Linked(ms, a, b) {
      if root[a] != root[b] {
        LinkedBack(ms, i, j);
        if root[a] == root[j] {
          LinkedThrough(ms, a, j, i);
          LinkedThrough(ms, a, i, b);
        } else {
          LinkedThrough(ms, a, i, j);
          LinkedThrough(ms, a, j, b);
        }
      }
    }
  }

  /** Equal roots are exactly the connected matches. */
  ghost predicate Components(ms: seq<Match>, root: seq<nat>) {
    |root| == |ms|
    && forall a, b :: 0 <= a < |ms| && 0 <= b < |ms| ==> (root[a] == root[b] <==> Linked(ms, a, b))
  }

  lemma AllFiledMeansComponents(ms: seq<Match>, root: seq<nat>, seen: map<Key, nat>)
    requires Sound(ms, root, seen) && AllFiled(ms, root, seen, |ms|)
    ensures Components(ms, root)
  {
    forall a, b | 0 <= a < |ms| && 0 <= b < |ms| && Shares(ms[a], ms[b]) ensures root[a] == root[b] {
      SharesMeansACommonKey(ms[a], ms[b]);
      var k :| HasKey(ms[a], k) && HasKey(ms[b], k);
      assert Filed(root, seen, a, k) && Filed(root, seen, b, k);
    }
    assert Respects(ms, root);
    forall a, b | 0 <= a < |ms| && 0 <= b < |ms| && Linked(ms, a, b) ensures root[a] == root[b] {
      var p :| IsPath(ms, p) && p[0] == a && p[|p| - 1] == b;
      PathKeeps(ms, root, p);
    }
  }

  method Connect(ms: seq<Match>) returns (parent: array<nat>, ghost s: Shape)
    ensures fresh(parent) && parent.Length == |ms|
    ensures IsForest(parent[..], s) && Components(ms, s.root)
  {
    parent := new nat[|ms|](i => i);
    var seen: map<Key, nat> := map[];
    s := Shape(seq(|ms|, i => i), seq(|ms|, i => 0), 0);
    forall a | 0 <= a < |ms| ensures Linked(ms, a, a) {
      LinkedToItself(ms, a);
    }
    for i := 0 to |ms|
      invariant IsForest(parent[..], s) && Sound(ms, s.root, seen) && AllFiled(ms, s.root, seen, i)
    {
      var m := ms[i];
      if m.body != "" {
        seen, s := Note(ms, parent, seen, i, BodyKey(m.publisher, m.body), s);
      }
      if m.title != "" {
        seen, s := Note(ms, parent, seen, i, TitleKey(m.publisher, m.title), s);
      }
    }
    AllFiledMeansComponents(ms, s.root, seen);
  }

  // ---- Listing the groups ----

  predicate Increasing(g: seq<nat>) {
    forall i, j :: 0 <= i < j < |g| ==> g[i] < g[j]
  }

  /** `g` lists members of class `r` below `n`, in order. */
  predicate ListsClass(root: seq<nat>, r: nat, g: seq<nat>, n: nat)
    requires n <= |root|
  {
    g != [] && Increasing(g) && forall i :: 0 <= i < |g| ==> g[i] < n && root[g[i]] == r
  }

  predicate Earlier(groups: map<nat, seq<nat>>, r: nat, q: nat) {
    r in groups && q in groups && groups[r] != [] && groups[q] != [] && groups[r][0] < groups[q][0]
  }

  predicate Grouped(root: seq<nat>, groups: map<nat, seq<nat>>, a: nat)
    requires a < |root|
  {
    root[a] in groups && a in groups[root[a]]
  }

  /** The groups found among the first `n` matches. */
  ghost predicate Listed(root: seq<nat>, groups: map<nat, seq<nat>>, order: seq<nat>, n: nat)
    requires n <= |root|
  {
    (forall r :: r in groups <==> r in order)
    && (forall r :: r in groups ==> ListsClass(root, r, groups[r], n))
    && (forall a :: 0 <= a < n ==> Grouped(root, groups, a))
    && forall x, y :: 0 <= x < y < |order| ==> Earlier(groups, order[x], order[y])
  }

  lemma ListedNew(root: seq<nat>, groups: map<nat, seq<nat>>, order: seq<nat>, n: nat)
    requires n < |root| && Listed(root, groups, order, n) && root[n] !in groups
    ensures Listed(root, groups[root[n] := [n]], order + [root[n]], n + 1)
  {
    var b, o := groups[root[n] := [n]], order + [root[n]];
    forall r | r in b ensures ListsClass(root, r, b[r], n + 1) {
      if r != root[n] {
        assert ListsClass(root, r, groups[r], n);
      }
    }
    forall a | 0 <= a < n + 1 ensures Grouped(root, b, a) {
      assert a < n ==> Grouped(root, groups, a);
    }
    forall x, y | 0 <= x < y < |o| ensures Earlier(b, o[x], o[y]) {
      assert o[x] in groups && ListsClass(root, o[x], groups[o[x]], n);
      if y < |order| {
        assert ListsClass(root, o[y], groups[o[y]], n);
      }
    }
  }

  lemma ListsOneMore(root: seq<nat>, r: nat, g: seq<nat>, n: nat)
    requires n < |root| && ListsClass(root, r, g, n)
    ensures ListsClass(root, r, g, n + 1)
    ensures root[n] == r ==> ListsClass(root, r, g + [n], n + 1)
  {
  }

  lemma ListedMore(root: seq<nat>, groups: map<nat, seq<nat>>, order: seq<nat>, n: nat)
    requires n < |root| && Listed(root, groups, order, n) && root[n] in groups
    ensures Listed(root, groups[root[n] := groups[root[n]] + [n]], order, n + 1)
  {
    var b := groups[root[n] := groups[root[n]] + [n]];
    forall r | r in b ensures ListsClass(root, r, b[r], n + 1) {
      ListsOneMore(root, r, groups[r], n);
    }
    forall a | 0 <= a < n + 1 ensures Grouped(root, b, a) {
      assert a < n ==> Grouped(root, groups, a);
    }
    forall x, y | 0 <= x < y < |order| ensures Earlier(b, order[x], order[y]) {
      assert Earlier(groups, order[x], order[y]);
    }
  }

  /** The rows: non-empty, members in order, rows by their earliest member,
    * every match in one, two matches in one row exactly when linked. */
  ghost predicate IsGrouping(ms: seq<Match>, gs: seq<seq<nat>>) {
    (forall x :: 0 <= x < |gs| ==> GroupOk(ms, gs[x]))
    && (forall a :: 0 <= a < |ms| ==> Placed(gs, a))
    && (forall x, y, a, b :: 0 <= x < |gs| && 0 <= y < |gs| && a in gs[x] && b in gs[y] ==> (x == y <==> Linked(ms, a, b)))
    && forall x, y :: 0 <= x < y < |gs| && gs[x] != [] && gs[y] != [] ==> gs[x][0] < gs[y][0]
  }

  ghost predicate Placed(gs: seq<seq<nat>>, a: nat) {
    exists x :: 0 <= x < |gs| && a in gs[x]
  }

  predicate GroupOk(ms: seq<Match>, g: seq<nat>) {
    g != [] && Increasing(g) && forall i :: 0 <= i < |g| ==> g[i] < |ms|
  }

  function InOrder(groups: map<nat, seq<nat>>, order: seq<nat>): (gs: seq<seq<nat>>)
    requires forall r :: r in order ==> r in groups
    ensures |gs| == |order| && forall x :: 0 <= x < |gs| ==> gs[x] == groups[order[x]]
  {
    seq(|order|, x requires 0 <= x < |order| => groups[order[x]])
  }

  lemma ListedIsGrouping(ms: seq<Match>, root: seq<nat>, groups: map<nat, seq<nat>>, order: seq<nat>)
    requires Components(ms, root) && Listed(root, groups, order, |ms|)
    ensures IsGrouping(ms, InOrder(groups, order))
  {
    var gs := InOrder(groups, order);
    forall x | 0 <= x < |gs| ensures ListsClass(root, order[x], gs[x], |ms|) {
      assert order[x] in groups;
    }
    forall a | 0 <= a < |ms| ensures Placed(gs, a) {
      assert Grouped(root, groups, a);
      var x :| 0 <= x < |order| && order[x] == root[a];
      assert a in gs[x];
    }
    forall x, y | 0 <= x < y < |gs| ensures gs[x][0] < gs[y][0] && order[x] != order[y] {
      assert Earlier(groups, order[x], order[y]);
    }
    forall x, y, a, b | 0 <= x < |gs| && 0 <= y < |gs| && a in gs[x] && b in gs[y]
      ensures x == y <==> Linked(ms, a, b)
    {
      assert root[a] == order[x] && root[b] == order[y];
    }
  }

  method Group(ms: seq<Match>) returns (gs: seq<seq<nat>>)
    ensures IsGrouping(ms, gs)
  {
    var parent, s := Connect(ms);
    var groups: map<nat, seq<nat>> := map[];
    var order: seq<nat> := [];
    for i := 0 to |ms|
      invariant IsForest(parent[..], s)
      invariant Listed(s.root, groups, order, i)
    {
      var root := Find(parent, i, s);
      if root !in groups {
        ListedNew(s.root, groups, order, i);
        order := order + [root];
        groups := groups[root := [i]];
      } else {
        ListedMore(s.root, groups, order, i);
        groups := groups[root := groups[root] + [i]];
      }
    }
    ListedIsGrouping(ms, s.root, groups, order);
    gs := InOrder(groups, order);
  }

  // ---- Counting ----

  function Rows(gs: seq<seq<nat>>): nat {
    if gs == [] then 0 else Rows(gs[..|gs| - 1]) + |gs[|gs| - 1]|
  }

  function Items(g: seq<nat>): set<nat> {
    set a | a in g
  }

  ghost function Members(gs: seq<seq<nat>>): set<nat> {
    if gs == [] then {} else Members(gs[..|gs| - 1]) + Items(gs[|gs| - 1])
  }

  lemma {:induction false} IncreasingCounts(g: seq<nat>)
    requires Increasing(g)
    ensures |Items(g)| == |g|
  {
    if g != [] {
      var front, last := g[..|g| - 1], g[|g| - 1];
      IncreasingCounts(front);
      assert g == front + [last] && last !in front;
      assert Items(g) == Items(front) + {last};
    }
  }

  lemma {:induction false} MembersOf(gs: seq<seq<nat>>, a: nat)
    ensures a in Members(gs) <==> Placed(gs, a)
  {
    if gs != [] {
      var n := |gs| - 1;
      MembersOf(gs[..n], a);
      if Placed(gs[..n], a) {
        var x :| 0 <= x < n && a in gs[..n][x];
        assert a in gs[x];
      }
      if Placed(gs, a) && a !in gs[n] {
        var x :| 0 <= x < |gs| && a in gs[x];
        assert a in gs[..n][x];
      }
    }
  }

  predicate Apart(gs: seq<seq<nat>>) {
    forall x, y, a :: 0 <= x < y < |gs| && a in gs[x] ==> a !in gs[y]
  }

  lemma {:induction false} MembersCount(gs: seq<seq<nat>>)
    requires Apart(gs) && forall x :: 0 <= x < |gs| ==> Increasing(gs[x])
    ensures |Members(gs)| == Rows(gs)
  {
    if gs != [] {
      var n := |gs| - 1;
      MembersCount(gs[..n]);
      IncreasingCounts(gs[n]);
      forall a | a in gs[n] ensures a !in Members(gs[..n]) {
        MembersOf(gs[..n], a);
      }
      assert Members(gs[..n]) !! Items(gs[n]);
      assert |Members(gs)| == |Members(gs[..n])| + |Items(gs[n])|;
    }
  }

  ghost function Below(n: nat): (s: set<nat>)
    ensures |s| == n && forall a: nat :: a in s <==> a < n
  {
    if n == 0 then {} else Below(n - 1) + {n - 1}
  }

  /** Every match is in exactly one row: a row's suppressed matches and itself,
    * over all rows, are all the matches. */
  lemma RowsAccountForAll(ms: seq<Match>, gs: seq<seq<nat>>)
    requires IsGrouping(ms, gs)
    ensures Rows(gs) == |ms|
  {
    forall x, y, a | 0 <= x < y < |gs| && a in gs[x] ensures a !in gs[y] {
      if a in gs[y] {
        assert GroupOk(ms, gs[x]);
        LinkedToItself(ms, a);
        assert false;
      }
    }
    forall x | 0 <= x < |gs| ensures Increasing(gs[x]) {
      assert GroupOk(ms, gs[x]);
    }
    MembersCount(gs);
    forall a: nat ensures a in Members(gs) <==> a in Below(|ms|) {
      MembersOf(gs, a);
      if Placed(gs, a) {
        var x :| 0 <= x < |gs| && a in gs[x];
        assert GroupOk(ms, gs[x]);
      }
    }
    assert Members(gs) == Below(|ms|);
  }

  // ---- Grouping the rows again ----

  function Chosen(ms: seq<Match>, reps: seq<nat>): (rs: seq<Match>)
    requires forall x :: 0 <= x < |reps| ==> reps[x] < |ms|
    ensures |rs| == |reps| && forall x :: 0 <= x < |reps| ==> rs[x] == ms[reps[x]]
  {
    seq(|reps|, x requires 0 <= x < |reps| => ms[reps[x]])
  }

  /** One representative of each row. */
  predicate Represent(ms: seq<Match>, gs: seq<seq<nat>>, reps: seq<nat>) {
    |reps| == |gs| && forall x :: 0 <= x < |gs| ==> reps[x] < |ms| && reps[x] in gs[x]
  }

  lemma RepresentativesShareNothing(ms: seq<Match>, gs: seq<seq<nat>>, reps: seq<nat>, x: nat, y: nat)
    requires IsGrouping(ms, gs) && Represent(ms, gs, reps) && x < |gs| && y < |gs|
    requires Linked(Chosen(ms, reps), x, y)
    ensures x == y
  {
    var rs := Chosen(ms, reps);
    var ids: seq<nat> := seq(|rs|, i => i);
    forall a, b | 0 <= a < |rs| && 0 <= b < |rs| && Shares(rs[a], rs[b]) ensures ids[a] == ids[b] {
      SharingLinks(ms, reps[a], reps[b]);
    }
    var p :| IsPath(rs, p) && p[0] == x && p[|p| - 1] == y;
    PathKeeps(rs, ids, p);
  }

  /** Grouping the representatives of the rows, whichever were chosen, finds
    * nothing left to group. */
  lemma GroupingAgainDoesNothing(ms: seq<Match>, gs: seq<seq<nat>>, reps: seq<nat>, hs: seq<seq<nat>>)
    requires IsGrouping(ms, gs) && Represent(ms, gs, reps) && IsGrouping(Chosen(ms, reps), hs)
    ensures |hs| == |gs| && forall x :: 0 <= x < |hs| ==> |hs[x]| == 1
  {
    var rs := Chosen(ms, reps);
    forall x | 0 <= x < |hs| ensures |hs[x]| == 1 {
      var h := hs[x];
      assert GroupOk(rs, h);
      if |h| > 1 {
        assert h[0] in h && h[1] in h;
        RepresentativesShareNothing(ms, gs, reps, h[0], h[1]);
      }
    }
    RowsAccountForAll(rs, hs);
    SinglesCount(hs);
  }

  lemma {:induction false} SinglesCount(hs: seq<seq<nat>>)
    requires forall x :: 0 <= x < |hs| ==> |hs[x]| == 1
    ensures Rows(hs) == |hs|
  {
    if hs != [] {
      SinglesCount(hs[..|hs| - 1]);
    }
  }

  // ---- Rows ----

  datatype Version = Version(pin: string, currentPin: string, name: string, createdAt: int, marker: string)

  datatype Row = Row(rep: Match, duplicates: nat, versions: seq<Version>)

  function VersionOf(m: Match): Version {
    Version(m.sourcePin, if m.currentPin == "" then m.sourcePin else m.currentPin, m.name, m.createdAt, m.marker)
  }

  /** Newest first, earlier matches first among equally new ones. */
  predicate Sooner(ms: seq<Match>, a: nat, b: nat)
    requires a < |ms| && b < |ms|
  {
    ms[a].createdAt > ms[b].createdAt || (ms[a].createdAt == ms[b].createdAt && a < b)
  }

  predicate NewestFirst(ms: seq<Match>, s: seq<nat>) {
    (forall i :: 0 <= i < |s| ==> s[i] < |ms|)
    && forall i, j :: 0 <= i < j < |s| ==> Sooner(ms, s[i], s[j])
  }

  /** Puts a later match behind those at least as new. */
  function InsertStable(ms: seq<Match>, s: seq<nat>, a: nat): (r: seq<nat>)
    requires a < |ms| && forall i :: 0 <= i < |s| ==> s[i] < a
  {
    if s == [] || ms[s[|s| - 1]].createdAt >= ms[a].createdAt then s + [a]
    else InsertStable(ms, s[..|s| - 1], a) + [s[|s| - 1]]
  }

  lemma {:induction false} InsertKeeps(ms: seq<Match>, s: seq<nat>, a: nat)
    requires a < |ms| && forall i :: 0 <= i < |s| ==> s[i] < a
    ensures multiset(InsertStable(ms, s, a)) == multiset(s) + multiset{a}
  {
    if s != [] {
      assert s == s[..|s| - 1] + [s[|s| - 1]];
      InsertKeeps(ms, s[..|s| - 1], a);
    }
  }

  lemma FromMultiset(r: seq<nat>, s: seq<nat>, a: nat, i: nat)
    requires multiset(r) == multiset(s) + multiset{a} && i < |r|
    ensures r[i] == a || r[i] in s
  {
    assert r[i] in multiset(r);
  }

  lemma {:induction false} InsertSorts(ms: seq<Match>, s: seq<nat>, a: nat)
    requires a < |ms| && forall i :: 0 <= i < |s| ==> s[i] < a
    requires NewestFirst(ms, s)
    ensures NewestFirst(ms, InsertStable(ms, s, a))
  {
    var r := InsertStable(ms, s, a);
    if s != [] {
      var front, last := s[..|s| - 1], s[|s| - 1];
      if ms[last].createdAt >= ms[a].createdAt {
        forall i | 0 <= i < |s| ensures Sooner(ms, r[i], a) {
          assert i < |s| - 1 ==> Sooner(ms, s[i], last);
        }
      } else {
        InsertSorts(ms, front, a);
        InsertKeeps(ms, front, a);
        forall i | 0 <= i < |r| - 1 ensures r[i] < |ms| && Sooner(ms, r[i], last) {
          FromMultiset(r[..|r| - 1], front, a, i);
        }
      }
    }
  }

  /** The members of a row, newest first. */
  function SortNewest(ms: seq<Match>, g: seq<nat>): (s: seq<nat>)
    requires Increasing(g) && forall i :: 0 <= i < |g| ==> g[i] < |ms|
    ensures multiset(s) == multiset(g)
  {
    if g == [] then [] else
      var front, last := g[..|g| - 1], g[|g| - 1];
      var s := SortNewest(ms, front);
      SortedBelow(s, front, last);
      InsertKeeps(ms, s, last);
      assert g == front + [last];
      InsertStable(ms, s, last)
  }

  lemma SortedBelow(s: seq<nat>, front: seq<nat>, bound: nat)
    requires multiset(s) == multiset(front) && forall i :: 0 <= i < |front| ==> front[i] < bound
    ensures forall i :: 0 <= i < |s| ==> s[i] < bound
  {
    forall i | 0 <= i < |s| ensures s[i] < bound {
      assert s[i] in multiset(s);
    }
  }

  lemma {:induction false} SortNewestSorts(ms: seq<Match>, g: seq<nat>)
    requires Increasing(g) && forall i :: 0 <= i < |g| ==> g[i] < |ms|
    ensures NewestFirst(ms, SortNewest(ms, g))
  {
    if g != [] {
      var front, last := g[..|g| - 1], g[|g| - 1];
      SortNewestSorts(ms, front);
      SortedBelow(SortNewest(ms, front), front, last);
      InsertSorts(ms, SortNewest(ms, front), last);
    }
  }

  /** Whether the members carry two or more version markers, none counting as
    * one. */
  predicate Mixed(ms: seq<Match>, g: seq<nat>)
    requires forall i :: 0 <= i < |g| ==> g[i] < |ms|
  {
    exists i, j :: 0 <= i < |g| && 0 <= j < |g| && ms[g[i]].marker != ms[g[j]].marker
  }

  function RepOf(ms: seq<Match>, g: seq<nat>): (r: nat)
    requires GroupOk(ms, g)
    ensures r in g && r < |ms|
  {
    if Mixed(ms, g) then
      var s := SortNewest(ms, g);
      assert |multiset(s)| == |multiset(g)|;
      assert s[0] in multiset(s);
      s[0]
    else g[0]
  }

  function Versions(ms: seq<Match>, s: seq<nat>): (vs: seq<Version>)
    requires forall i :: 0 <= i < |s| ==> s[i] < |ms|
    ensures |vs| == |s| && forall i :: 0 <= i < |s| ==> vs[i] == VersionOf(ms[s[i]])
  {
    seq(|s|, i requires 0 <= i < |s| => VersionOf(ms[s[i]]))
  }

  function RowOf(ms: seq<Match>, g: seq<nat>): Row
    requires GroupOk(ms, g)
  {
    SortNewestSorts(ms, g);
    Row(ms[RepOf(ms, g)], |g| - 1, if Mixed(ms, g) then Versions(ms, SortNewest(ms, g)) else [])
  }

  /** A row with several version markers is represented by its newest member,
    * the earliest among equally new ones, and lists all members newest first;
    * any other row is represented by its earliest member. */
  lemma RepresentativeIsNewest(ms: seq<Match>, g: seq<nat>, a: nat)
    requires GroupOk(ms, g) && a in g
    ensures RepOf(ms, g) == a || if Mixed(ms, g) then Sooner(ms, RepOf(ms, g), a) else RepOf(ms, g) < a
    ensures Mixed(ms, g) ==> |RowOf(ms, g).versions| == |g| && RowOf(ms, g).versions[0] == VersionOf(ms[RepOf(ms, g)])
    ensures Mixed(ms, g) ==> VersionOf(ms[a]) in RowOf(ms, g).versions
  {
    if Mixed(ms, g) {
      var s := SortNewest(ms, g);
      SortNewestSorts(ms, g);
      assert |multiset(s)| == |multiset(g)|;
      assert a in multiset(s);
      var i :| 0 <= i < |s| && s[i] == a;
      assert RowOf(ms, g).versions[i] == VersionOf(ms[a]);
    }
  }

  method BuildGroup(ms: seq<Match>, members: seq<nat>) returns (row: Row)
    requires GroupOk(ms, members)
    ensures row == RowOf(ms, members)
  {
    var rep := ms[members[0]];
    row := Row(rep, |members| - 1, []);
    if |members| == 1 {
      return;
    }
    var distinct := Markers(ms, members);
    DistinctMarkers(ms, members, distinct);
    if |distinct| < 2 {
      return;
    }
    var byNewest := SortNewest(ms, members);
    SortNewestSorts(ms, members);
    assert |multiset(byNewest)| == |multiset(members)|;
    var versions := ListVersions(ms, byNewest);
    row := Row(ms[byNewest[0]], |members| - 1, versions);
  }

  method Markers(ms: seq<Match>, members: seq<nat>) returns (distinct: set<string>)
    requires GroupOk(ms, members)
    ensures forall x :: x in distinct <==> exists j :: 0 <= j < |members| && ms[members[j]].marker == x
  {
    distinct := {};
    for i := 0 to |members|
      invariant forall x :: x in distinct <==> exists j :: 0 <= j < i && ms[members[j]].marker == x
    {
      distinct := distinct + {ms[members[i]].marker};
    }
  }

  method ListVersions(ms: seq<Match>, s: seq<nat>) returns (versions: seq<Version>)
    requires forall i :: 0 <= i < |s| ==> s[i] < |ms|
    ensures versions == Versions(ms, s)
  {
    versions := [];
    for i := 0 to |s|
      invariant versions == Versions(ms, s)[..i]
    {
      versions := versions + [VersionOf(ms[s[i]])];
    }
  }

  lemma DistinctMarkers(ms: seq<Match>, g: seq<nat>, distinct: set<string>)
    requires GroupOk(ms, g)
    requires forall x :: x in distinct <==> exists j :: 0 <= j < |g| && ms[g[j]].marker == x
    ensures |distinct| >= 2 <==> Mixed(ms, g)
  {
    var x := ms[g[0]].marker;
    assert x in distinct;
    if Mixed(ms, g) {
      var i, j :| 0 <= i < |g| && 0 <= j < |g| && ms[g[i]].marker != ms[g[j]].marker;
      var two := {ms[g[i]].marker, ms[g[j]].marker};
      assert distinct == two + (distinct - two);
    } else {
      assert distinct == {x};
    }
  }

  function RowsOf(ms: seq<Match>, gs: seq<seq<nat>>): (rows: seq<Row>)
    requires forall x :: 0 <= x < |gs| ==> GroupOk(ms, gs[x])
    ensures |rows| == |gs| && forall x :: 0 <= x < |gs| ==> rows[x] == RowOf(ms, gs[x])
  {
    seq(|gs|, x requires 0 <= x < |gs| => RowOf(ms, gs[x]))
  }

  method DedupeMatches(ms: seq<Match>) returns (rows: seq<Row>)
    ensures exists gs :: IsGrouping(ms, gs) && rows == RowsOf(ms, gs)
  {
    var groups := Group(ms);
    rows := [];
    for x := 0 to |groups|
      invariant rows == RowsOf(ms, groups)[..x]
    {
      var row := BuildGroup(ms, groups[x]);
      rows := rows + [row];
    }
    assert rows == RowsOf(ms, groups);
  }

  // ---- Deduplicating the rows again ----

  function Reps(rows: seq<Row>): (rs: seq<Match>)
    ensures |rs| == |rows| && forall x :: 0 <= x < |rows| ==> rs[x] == rows[x].rep
  {
    seq(|rows|, x requires 0 <= x < |rows| => rows[x].rep)
  }

  /** Deduplicating the representatives gives each of them back, alone and in
    * the same order. */
  lemma DedupeAgainChangesNothing(ms: seq<Match>, gs: seq<seq<nat>>, hs: seq<seq<nat>>)
    requires IsGrouping(ms, gs) && IsGrouping(Reps(RowsOf(ms, gs)), hs)
    ensures |hs| == |gs|
    ensures forall x :: 0 <= x < |hs| ==> RowsOf(Reps(RowsOf(ms, gs)), hs)[x] == Row(RowsOf(ms, gs)[x].rep, 0, [])
  {
    var rs := Reps(RowsOf(ms, gs));
    var reps := seq(|gs|, x requires 0 <= x < |gs| => RepOf(ms, gs[x]));
    assert Chosen(ms, reps) == rs;
    GroupingAgainDoesNothing(ms, gs, reps, hs);
    SinglesInOrder(rs, hs);
    forall x | 0 <= x < |hs| ensures RowOf(rs, hs[x]) == Row(rs[x], 0, []) {
      assert hs[x] == [x];
    }
  }

  lemma SinglesInOrder(rs: seq<Match>, hs: seq<seq<nat>>)
    requires IsGrouping(rs, hs) && |hs| == |rs| && forall x :: 0 <= x < |hs| ==> |hs[x]| == 1
    ensures forall x :: 0 <= x < |hs| ==> hs[x] == [x]
  {
    forall x | 0 <= x < |hs| ensures hs[x] == [x] {
      HeadAtLeast(rs, hs, x);
      HeadAtMost(rs, hs, x);
    }
  }

  lemma {:induction false} HeadAtLeast(rs: seq<Match>, hs: seq<seq<nat>>, x: nat)
    requires IsGrouping(rs, hs) && x < |hs| && forall x :: 0 <= x < |hs| ==> |hs[x]| == 1
    ensures hs[x][0] >= x
  {
    if x > 0 {
      HeadAtLeast(rs, hs, x - 1);
    }
  }

  lemma {:induction false} HeadAtMost(rs: seq<Match>, hs: seq<seq<nat>>, x: nat)
    requires IsGrouping(rs, hs) && x < |hs| == |rs| && forall x :: 0 <= x < |hs| ==> |hs[x]| == 1
    ensures hs[x][0] <= x
    decreases |hs| - x
  {
    assert GroupOk(rs, hs[x]);
    if x + 1 < |hs| {
      HeadAtMost(rs, hs, x + 1);
    }
  }
}
