/** Decoded MetaTask protocol events and their unified total order
    (internal/metatask/v121.go:72-84, 263-301).

    An event body keeps exactly the fields the replay engine reads; a field
    that the payload lacks, or that is not a string, is the empty string, as
    the engine's own accessor reads it. */
module ChainEvents {
  import opened Sorting

  datatype Option<+T> = None | Some(value: T)

  datatype Verdict = Pass | Fail | Invalid | OtherVerdict

  /** A node as an amend operation carries it; `None` is an absent or unusable field. */
  datatype RawNode = RawNode(id: string, parent: string, title: string, kind: string,
                             specId: Option<string>, weight: Option<real>)

  datatype AmendOp =
    | AddNode(raw: Option<RawNode>)
    | RemoveNode(node: string)
    | Reweight(node: string, weight: Option<real>)
    | Retitle(node: string, title: string)
    | Respec(node: string, specId: string)
    | UnknownOp

  /** A node as a published tree carries it; parent `None` is JSON null. */
  datatype RawTreeNode = RawTreeNode(id: string, parent: Option<string>, title: string, kind: string,
                                     specId: Option<string>, weight: Option<real>)

  /** The numbers of a task's policy; `None` is an absent or unusable one. */
  datatype Policy = Policy(verifyQuorum: Option<int>, claimTtlHours: Option<int>, verifyWindowHours: Option<int>,
                           submitterShareBP: Option<int>)

  datatype Body =
    | Task(treeId: string, specId: string, policy: Policy)
    | Tree(rawNodes: seq<RawTreeNode>, root: string)
    | Spec
    | Claim(taskId: string, node: string)
    | Release(taskId: string, node: string, claimId: string)
    | Submission(taskId: string, node: string, claimId: string, supersedeId: string,
                 childIds: set<string>)
    | Verify(targetId: string, verdict: Verdict, hasSemanticCheck: bool, hasFailReason: bool)
    | Amend(taskId: string, bases: string, ops: seq<AmendOp>)
    | Challenge(targetId: string)

  datatype ChainEvent = ChainEvent(pin: string, author: string, height: int, txIndex: int,
                                   ts: int, body: Body)

  /** The anchor value an unconfirmed (negative) height sorts under. */
  const UNCONFIRMED_HEIGHT := 0x7fff_ffff_ffff_ffff

  datatype OrdKey = OrdKey(h: int, tx: int, ts: int, pin: string)

  function KeyOf(e: ChainEvent): OrdKey {
    OrdKey(if e.height < 0 then UNCONFIRMED_HEIGHT else e.height, e.txIndex, e.ts, e.pin)
  }

  /** Go's string comparison: lexicographic, a proper prefix is smaller. */
  predicate StringLess(a: string, b: string) {
    if b == [] then false
    else if a == [] then true
    else if a[0] != b[0] then a[0] < b[0]
    else StringLess(a[1..], b[1..])
  }

  lemma StringTrichotomy(a: string, b: string)
    ensures StringLess(a, b) || a == b || StringLess(b, a)
  {
    if a != [] && b != [] && a[0] == b[0] {
      StringTrichotomy(a[1..], b[1..]);
      assert a == [a[0]] + a[1..] && b == [b[0]] + b[1..];
    }
  }

  lemma StringLessStrict(a: string, b: string)
    ensures !(StringLess(a, b) && StringLess(b, a))
    ensures !StringLess(a, a)
  {
  }

  lemma StringLessTransitive(a: string, b: string, c: string)
    requires StringLess(a, b) && StringLess(b, c)
    ensures StringLess(a, c)
  {
  }

  predicate KeyLess(a: OrdKey, b: OrdKey) {
    if a.h != b.h then a.h < b.h
    else if a.tx != b.tx then a.tx < b.tx
    else if a.ts != b.ts then a.ts < b.ts
    else StringLess(a.pin, b.pin)
  }

  predicate Before(a: ChainEvent, b: ChainEvent) {
    KeyLess(KeyOf(a), KeyOf(b))
  }

  lemma KeyLessTransitive(a: OrdKey, b: OrdKey, c: OrdKey)
    requires KeyLess(a, b) && KeyLess(b, c)
    ensures KeyLess(a, c)
  {
    if a.h == b.h == c.h && a.tx == b.tx == c.tx && a.ts == b.ts == c.ts {
      StringLessTransitive(a.pin, b.pin, c.pin);
    }
  }

  /** The order is total up to equal keys, and an event never precedes itself. */
  lemma KeyLessTotal(a: OrdKey, b: OrdKey)
    ensures KeyLess(a, b) || a == b || KeyLess(b, a)
    ensures !(KeyLess(a, b) && KeyLess(b, a))
    ensures !KeyLess(a, a)
  {
    StringTrichotomy(a.pin, b.pin);
    StringLessStrict(a.pin, b.pin);
    StringLessStrict(a.pin, a.pin);
  }

  /** Not coming before is transitive too. */
  lemma KeyLessWeak(a: OrdKey, b: OrdKey, c: OrdKey)
    requires !KeyLess(a, b) && !KeyLess(b, c)
    ensures !KeyLess(a, c)
  {
    KeyLessTotal(a, b);
    KeyLessTotal(b, c);
    KeyLessTotal(a, c);
    if a != b && b != c {
      KeyLessTransitive(c, b, a);
    }
  }

  ghost predicate DistinctPins(events: seq<ChainEvent>) {
    forall i, j :: 0 <= i < j < |events| ==> events[i].pin != events[j].pin
  }

  ghost function Pins(events: seq<ChainEvent>): set<string> {
    set i | 0 <= i < |events| :: events[i].pin
  }

  // ------------------------------------------------------------------
  // Stable sorting by the total order
  // ------------------------------------------------------------------

  /** What a stable sort by `Before` leaves. */
  function SortEvents(s: seq<ChainEvent>): seq<ChainEvent> {
    StableSort(Before, s)
  }

  ghost predicate Ordered(s: seq<ChainEvent>) {
    forall i, j :: 0 <= i < j < |s| ==> !Before(s[j], s[i])
  }

  lemma BeforeSorts()
    ensures WeakOrder(Before)
  {
    forall a, b | Before(a, b) ensures !Before(b, a) {
      KeyLessTotal(KeyOf(a), KeyOf(b));
    }
    forall a, b, c | !Before(a, b) && !Before(b, c) ensures !Before(a, c) {
      KeyLessWeak(KeyOf(a), KeyOf(b), KeyOf(c));
    }
  }

  lemma SortSorts(s: seq<ChainEvent>)
    ensures multiset(SortEvents(s)) == multiset(s)
    ensures Ordered(SortEvents(s))
    ensures |SortEvents(s)| == |s|
  {
    BeforeSorts();
    StableSortSorts(Before, s);
    StableSortKeeps(Before, s);
  }

  lemma DistinctFromMultiset(a: seq<ChainEvent>, b: seq<ChainEvent>)
    requires multiset(a) == multiset(b) && DistinctPins(a)
    ensures DistinctPins(b)
  {
    forall i, j | 0 <= i < j < |b|
      ensures b[i].pin != b[j].pin
    {
      if b[i].pin == b[j].pin {
        assert b[i] in multiset(b) && b[j] in multiset(b);
        assert b[i] in a && b[j] in a;
        var p :| 0 <= p < |a| && a[p] == b[i];
        var q :| 0 <= q < |a| && a[q] == b[j];
        assert p == q;
        TwiceInMultiset(b, i, j);
        OnceInDistinct(a, p);
      }
    }
  }

  lemma OnceInDistinct(s: seq<ChainEvent>, i: nat)
    requires i < |s| && DistinctPins(s)
    ensures multiset(s)[s[i]] == 1
  {
    OnceInMultiset(s, i);
  }

  /** Two ordered arrangements of the same events with distinct pins are the same list. */
  lemma OrderedIsUnique(a: seq<ChainEvent>, b: seq<ChainEvent>)
    requires multiset(a) == multiset(b)
    requires Ordered(a) && Ordered(b) && DistinctPins(a)
    ensures a == b
  {
    forall i, j | 0 <= i < j < |a| ensures Before(a[i], a[j]) {
      KeyLessTotal(KeyOf(a[i]), KeyOf(a[j]));
    }
    SortedIsUnique(Before, a, b);
  }

  /** Sorting forgets the input order: permuted inputs with distinct pins sort alike. */
  lemma SortIsCanonical(s: seq<ChainEvent>, t: seq<ChainEvent>)
    requires multiset(s) == multiset(t) && DistinctPins(s)
    ensures SortEvents(s) == SortEvents(t)
  {
    SortSorts(s);
    SortSorts(t);
    DistinctFromMultiset(s, SortEvents(s));
    OrderedIsUnique(SortEvents(s), SortEvents(t));
  }
}
