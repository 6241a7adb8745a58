/** Stable sorting by an order that may tie, and selecting from a list: the two
  * commute.
  */
module Sorting {

  /** Irreflexive in effect, and not coming before is transitive. */
  ghost predicate WeakOrder<T(!new)>(less: (T, T) -> bool) {
    (forall a, b :: less(a, b) ==> !less(b, a))
    && forall a, b, c :: !less(a, b) && !less(b, c) ==> !less(a, c)
  }

  predicate Sorted<T>(less: (T, T) -> bool, s: seq<T>) {
    forall i, j :: 0 <= i < j < |s| ==> !less(s[j], s[i])
  }

  /** Puts an element in front of the first it does not follow. */
  function Insert<T>(less: (T, T) -> bool, p: T, s: seq<T>): (r: seq<T>) {
    if s == [] || !less(s[0], p) then [p] + s else [s[0]] + Insert(less, p, s[1..])
  }

  /** What a stable sort by `less` leaves. */
  function StableSort<T>(less: (T, T) -> bool, s: seq<T>): seq<T> {
    if s == [] then [] else Insert(less, s[0], StableSort(less, s[1..]))
  }

  function Select<T(!new)>(f: T -> bool, s: seq<T>): (r: seq<T>)
    ensures forall p :: p in r <==> p in s && f(p)
  {
    if s == [] then []
    else if f(s[0]) then [s[0]] + Select(f, s[1..])
    else Select(f, s[1..])
  }

  lemma {:induction false} InsertSorts<T(!new)>(less: (T, T) -> bool, p: T, s: seq<T>)
    requires WeakOrder(less) && Sorted(less, s)
    ensures Sorted(less, Insert(less, p, s))
    ensures forall q :: q in Insert(less, p, s) <==> q == p || q in s
  {
    if s != [] {
      if less(s[0], p) {
        InsertSorts(less, p, s[1..]);
        forall q | q in Insert(less, p, s[1..]) ensures !less(q, s[0]) {
        }
      } else {
        forall q | q in s ensures !less(q, p) {
        }
      }
    }
  }

  lemma {:induction false} StableSortSorts<T(!new)>(less: (T, T) -> bool, s: seq<T>)
    requires WeakOrder(less)
    ensures Sorted(less, StableSort(less, s))
    ensures forall q :: q in StableSort(less, s) <==> q in s
  {
    if s != [] {
      StableSortSorts(less, s[1..]);
      InsertSorts(less, s[0], StableSort(less, s[1..]));
    }
  }

  lemma {:induction false} InsertKeeps<T>(less: (T, T) -> bool, p: T, s: seq<T>)
    ensures multiset(Insert(less, p, s)) == multiset{p} + multiset(s)
  {
    if s != [] {
      assert s == [s[0]] + s[1..];
      InsertKeeps(less, p, s[1..]);
    }
  }

  lemma {:induction false} StableSortKeeps<T>(less: (T, T) -> bool, s: seq<T>)
    ensures multiset(StableSort(less, s)) == multiset(s)
    ensures |StableSort(less, s)| == |s|
  {
    if s != [] {
      StableSortKeeps(less, s[1..]);
      InsertKeeps(less, s[0], StableSort(less, s[1..]));
      assert s == [s[0]] + s[1..];
    }
    assert |multiset(StableSort(less, s))| == |multiset(s)|;
  }

  lemma SelectCons<T(!new)>(f: T -> bool, p: T, s: seq<T>)
    ensures Select(f, [p] + s) == (if f(p) then [p] + Select(f, s) else Select(f, s))
  {
    assert ([p] + s)[1..] == s;
  }

  lemma InsertBehind<T>(less: (T, T) -> bool, p: T, a: T, s: seq<T>)
    requires less(a, p)
    ensures Insert(less, p, [a] + s) == [a] + Insert(less, p, s)
  {
    assert ([a] + s)[1..] == s;
  }

  lemma {:induction false} SelectInserted<T(!new)>(less: (T, T) -> bool, f: T -> bool, p: T, s: seq<T>)
    requires WeakOrder(less) && Sorted(less, s)
    ensures Select(f, Insert(less, p, s)) == if f(p) then Insert(less, p, Select(f, s)) else Select(f, s)
  {
    if s != [] && less(s[0], p) {
      var rest := s[1..];
      SelectInserted(less, f, p, rest);
      assert s == [s[0]] + rest;
      SelectCons(f, s[0], Insert(less, p, rest));
      SelectCons(f, s[0], rest);
      InsertBehind(less, p, s[0], Select(f, rest));
    } else {
      SelectCons(f, p, s);
      if f(p) {
        NothingFollows(less, f, p, s);
      }
    }
  }

  lemma NothingFollows<T(!new)>(less: (T, T) -> bool, f: T -> bool, p: T, s: seq<T>)
    requires WeakOrder(less) && Sorted(less, s) && (s == [] || !less(s[0], p))
    ensures Insert(less, p, Select(f, s)) == [p] + Select(f, s)
  {
    var t := Select(f, s);
    if t != [] {
      assert t[0] in s && !less(t[0], s[0]);
    }
  }

  lemma SortCons<T>(less: (T, T) -> bool, p: T, s: seq<T>)
    ensures StableSort(less, [p] + s) == Insert(less, p, StableSort(less, s))
  {
    assert ([p] + s)[1..] == s;
  }

  /** A stable sort and a selection commute. */
  lemma {:induction false} SelectSorted<T(!new)>(less: (T, T) -> bool, f: T -> bool, s: seq<T>)
    requires WeakOrder(less)
    ensures Select(f, StableSort(less, s)) == StableSort(less, Select(f, s))
  {
    if s != [] {
      var p, rest := s[0], s[1..];
      SelectSorted(less, f, rest);
      StableSortSorts(less, rest);
      SelectInserted(less, f, p, StableSort(less, rest));
      SortCons(less, p, Select(f, rest));
    }
  }

  lemma {:induction false} SelectConcat<T(!new)>(f: T -> bool, s: seq<T>, t: seq<T>)
    ensures Select(f, s + t) == Select(f, s) + Select(f, t)
  {
    if s == [] {
      assert s + t == t;
    } else {
      assert (s + t)[1..] == s[1..] + t;
      SelectConcat(f, s[1..], t);
    }
  }

  lemma SelectSnoc<T(!new)>(f: T -> bool, s: seq<T>, p: T)
    ensures Select(f, s + [p]) == if f(p) then Select(f, s) + [p] else Select(f, s)
  {
    SelectConcat(f, s, [p]);
    assert Select(f, [p]) == if f(p) then [p] else [];
    assert Select(f, s) + [] == Select(f, s);
  }

  lemma {:induction false} SelectTwice<T(!new)>(f: T -> bool, g: T -> bool, h: T -> bool, s: seq<T>)
    requires forall p :: h(p) <==> f(p) && g(p)
    ensures Select(g, Select(f, s)) == Select(h, s)
  {
    if s != [] {
      SelectTwice(f, g, h, s[1..]);
      SelectCons(g, s[0], Select(f, s[1..]));
    }
  }

  lemma {:induction false} SelectAll<T(!new)>(f: T -> bool, s: seq<T>)
    requires forall i :: 0 <= i < |s| ==> f(s[i])
    ensures Select(f, s) == s
  {
    if s != [] {
      SelectAll(f, s[1..]);
    }
  }

  lemma {:induction false} SelectNone<T(!new)>(f: T -> bool, s: seq<T>)
    requires forall i :: 0 <= i < |s| ==> !f(s[i])
    ensures Select(f, s) == []
  {
    if s != [] {
      SelectNone(f, s[1..]);
    }
  }

  lemma SelectPrefix<T(!new)>(f: T -> bool, s: seq<T>, k: nat)
    requires k <= |s|
    requires forall i :: 0 <= i < |s| ==> (f(s[i]) <==> i < k)
    ensures Select(f, s) == s[..k]
  {
    assert s == s[..k] + s[k..];
    SelectConcat(f, s[..k], s[k..]);
    SelectAll(f, s[..k]);
    SelectNone(f, s[k..]);
  }

  lemma SelectSuffix<T(!new)>(f: T -> bool, s: seq<T>, k: nat)
    requires k <= |s|
    requires forall i :: 0 <= i < |s| ==> (f(s[i]) <==> i >= k)
    ensures Select(f, s) == s[k..]
  {
    var out, kept := s[..k], s[k..];
    forall i | 0 <= i < |kept| ensures f(kept[i]) {
      assert kept[i] == s[k + i];
    }
    SelectParts(f, out, kept);
    assert s == out + kept;
  }

  lemma SelectParts<T(!new)>(f: T -> bool, out: seq<T>, kept: seq<T>)
    requires forall i :: 0 <= i < |out| ==> !f(out[i])
    requires forall i :: 0 <= i < |kept| ==> f(kept[i])
    ensures Select(f, out + kept) == kept
  {
    SelectConcat(f, out, kept);
    SelectNone(f, out);
    SelectAll(f, kept);
    assert [] + kept == kept;
  }

  lemma TwiceInMultiset<T>(s: seq<T>, i: nat, j: nat)
    requires i < j < |s|
    ensures s[i] == s[j] ==> multiset(s)[s[i]] >= 2
  {
    assert s == s[..j] + [s[j]] + s[j + 1..];
    assert s[i] in s[..j];
  }

  lemma OnceInMultiset<T>(s: seq<T>, i: nat)
    requires i < |s| && forall k :: 0 <= k < |s| && k != i ==> s[k] != s[i]
    ensures multiset(s)[s[i]] == 1
  {
    assert s == s[..i] + [s[i]] + s[i + 1..];
    assert s[i] !in s[..i] && s[i] !in s[i + 1..];
  }

  /** Elements that tie are equal. */
  ghost predicate NoTies<T>(less: (T, T) -> bool, s: seq<T>) {
    forall i, j :: 0 <= i < j < |s| && !less(s[i], s[j]) && !less(s[j], s[i]) ==> s[i] == s[j]
  }

  lemma SameHead<T>(less: (T, T) -> bool, a: seq<T>, b: seq<T>)
    requires multiset(a) == multiset(b) && Sorted(less, a) && Sorted(less, b) && NoTies(less, a) && a != []
    ensures b != [] && a[0] == b[0]
  {
    assert a[0] in multiset(b);
    assert b[0] in multiset(a);
    var i :| 0 <= i < |a| && a[i] == b[0];
    var j :| 0 <= j < |b| && b[j] == a[0];
  }

  lemma SameTail<T>(a: seq<T>, b: seq<T>)
    requires multiset(a) == multiset(b) && a != [] && b != [] && a[0] == b[0]
    ensures multiset(a[1..]) == multiset(b[1..])
  {
    assert a == [a[0]] + a[1..] && b == [b[0]] + b[1..];
    assert multiset(a[1..]) == multiset(a) - multiset{a[0]};
    assert multiset(b[1..]) == multiset(b) - multiset{b[0]};
  }

  /** When ties are equal a sorted arrangement is the only one. */
  lemma {:induction false} SortedIsUnique<T>(less: (T, T) -> bool, a: seq<T>, b: seq<T>)
    requires multiset(a) == multiset(b) && Sorted(less, a) && Sorted(less, b) && NoTies(less, a)
    ensures a == b
  {
    if a == [] {
      assert |multiset(b)| == 0;
    } else {
      SameHead(less, a, b);
      SameTail(a, b);
      SortedIsUnique(less, a[1..], b[1..]);
      assert a == [a[0]] + a[1..] && b == [b[0]] + b[1..];
    }
  }

  /** What is sorted stays as it is. */
  lemma {:induction false} SortedStays<T>(less: (T, T) -> bool, s: seq<T>)
    requires Sorted(less, s)
    ensures StableSort(less, s) == s
  {
    if s != [] {
      SortedStays(less, s[1..]);
    }
  }

  /** Two elements of a list can be brought to its front, in either order. */
  lemma InFront<T>(s: seq<T>, i: nat, j: nat) returns (rest: seq<T>)
    requires i < j < |s|
    ensures multiset([s[i], s[j]] + rest) == multiset(s) == multiset([s[j], s[i]] + rest)
  {
    rest := s[..i] + s[i + 1..j] + s[j + 1..];
    assert s == s[..i] + [s[i]] + s[i + 1..j] + [s[j]] + s[j + 1..];
  }

  lemma {:induction false} SelectCounts<T(!new)>(f: T -> bool, s: seq<T>, x: T)
    ensures multiset(Select(f, s))[x] == if f(x) then multiset(s)[x] else 0
  {
    if s != [] {
      SelectCounts(f, s[1..], x);
      assert s == [s[0]] + s[1..];
    }
  }

  lemma SelectSameMultiset<T(!new)>(f: T -> bool, a: seq<T>, b: seq<T>)
    requires multiset(a) == multiset(b)
    ensures multiset(Select(f, a)) == multiset(Select(f, b))
  {
    forall x ensures multiset(Select(f, a))[x] == multiset(Select(f, b))[x] {
      SelectCounts(f, a, x);
      SelectCounts(f, b, x);
    }
  }

  function Map<T, U>(f: T -> U, s: seq<T>): (r: seq<U>)
    ensures |r| == |s| && forall i :: 0 <= i < |s| ==> r[i] == f(s[i])
  {
    seq(|s|, i requires 0 <= i < |s| => f(s[i]))
  }

  lemma TakesOut<T>(s: seq<T>, j: nat)
    requires j < |s|
    ensures multiset(s[..j] + s[j + 1..]) == multiset(s) - multiset{s[j]}
  {
    assert s == s[..j] + ([s[j]] + s[j + 1..]);
  }

  function Dropped<T>(s: seq<T>, j: nat): seq<T>
    requires j < |s|
  {
    s[..j] + s[j + 1..]
  }

  lemma MapDropped<T, U>(f: T -> U, s: seq<T>, j: nat)
    requires j < |s|
    ensures Map(f, Dropped(s, j)) == Dropped(Map(f, s), j)
  {
  }

  lemma {:induction false} MapSameMultiset<T, U>(f: T -> U, a: seq<T>, b: seq<T>)
    requires multiset(a) == multiset(b)
    ensures multiset(Map(f, a)) == multiset(Map(f, b))
    decreases |a|
  {
    if a == [] {
      assert |multiset(b)| == 0;
    } else {
      assert a[0] in multiset(b);
      var j :| 0 <= j < |b| && b[j] == a[0];
      TakesOut(a, 0);
      TakesOut(b, j);
      MapSameMultiset(f, Dropped(a, 0), Dropped(b, j));
      MapDropped(f, a, 0);
      MapDropped(f, b, j);
      SameWithout(Map(f, a), 0, Map(f, b), j);
    }
  }

  lemma SameWithout<T>(a: seq<T>, i: nat, b: seq<T>, j: nat)
    requires i < |a| && j < |b| && a[i] == b[j] && multiset(Dropped(a, i)) == multiset(Dropped(b, j))
    ensures multiset(a) == multiset(b)
  {
    TakesOut(a, i);
    TakesOut(b, j);
    assert a[i] in multiset(a) && b[j] in multiset(b);
    assert multiset(a) == multiset(a) - multiset{a[i]} + multiset{a[i]};
    assert multiset(b) == multiset(b) - multiset{b[j]} + multiset{b[j]};
  }
}
