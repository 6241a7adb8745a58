/** The cursor-paged feed of observed pins: newest first, filtered by path and
  * age, each page resuming strictly after the last key served.
  */
module PinsFeed {
  import opened ChainEvents
  import opened Sorting

  datatype Key = Key(timestamp: int, height: int, txIndex: int, pin: string)

  /** A row; `row` stands for the columns that only ride along. */
  datatype Item = Item(key: Key, path: string, row: string)

  /** Newer first; the pin breaks ties upwards. */
  predicate Newer(a: Key, b: Key) {
    if a.timestamp != b.timestamp then a.timestamp > b.timestamp
    else if a.height != b.height then a.height > b.height
    else if a.txIndex != b.txIndex then a.txIndex > b.txIndex
    else StringLess(a.pin, b.pin)
  }

  predicate PinsOrder(a: Item, b: Item) {
    Newer(a.key, b.key)
  }

  lemma NewerTotal(a: Key, b: Key)
    ensures Newer(a, b) || a == b || Newer(b, a)
    ensures !(Newer(a, b) && Newer(b, a))
  {
    StringTrichotomy(a.pin, b.pin);
    StringLessStrict(a.pin, b.pin);
  }

  lemma NewerTransitive(a: Key, b: Key, c: Key)
    requires Newer(a, b) && Newer(b, c)
    ensures Newer(a, c)
  {
    if a.timestamp == b.timestamp == c.timestamp && a.height == b.height == c.height && a.txIndex == b.txIndex == c.txIndex {
      StringLessTransitive(a.pin, b.pin, c.pin);
    }
  }

  lemma PinsOrderSorts()
    ensures WeakOrder(PinsOrder)
  {
    forall a, b | PinsOrder(a, b) ensures !PinsOrder(b, a) {
      NewerTotal(a.key, b.key);
    }
    forall a, b, c | !PinsOrder(a, b) && !PinsOrder(b, c) ensures !PinsOrder(a, c) {
      NewerTotal(a.key, b.key);
      NewerTotal(b.key, c.key);
      NewerTotal(a.key, c.key);
      if a.key != b.key && b.key != c.key {
        NewerTransitive(c.key, b.key, a.key);
      }
    }
  }

  // ---- Cursors ----

  /** The JSON values of a decoded token. */
  datatype Json = Number(n: int) | Text(s: string) | OtherJson

  /** A token: absent, only blanks, unreadable, or the tuple it carries. */
  datatype Token = Absent | Blank | Garbled | Tuple(parts: seq<Json>)

  const TwoTo53: int := 0x20_0000_0000_0000

  /** The spacing of floating-point numbers of 53 significant bits around `n`. */
  function Unit(n: nat): (u: nat)
    ensures u > 0
  {
    if n < TwoTo53 then 1 else 2 * Unit(n / 2)
  }

  function Nearest(n: nat, u: nat): nat
    requires u > 0
  {
    var q, r := n / u, n % u;
    if 2 * r > u || (2 * r == u && q % 2 == 1) then (q + 1) * u else q * u
  }

  function Magnitude(n: int): nat {
    if n >= 0 then n else -n
  }

  /** An integer as the decoder's floating-point numbers hold it: the nearest
    * one, ties to even. */
  function Float(n: int): int {
    var m: int := Nearest(Magnitude(n), Unit(Magnitude(n)));
    if n >= 0 then m else -m
  }

  predicate Exact(n: int) {
    Magnitude(n) % Unit(Magnitude(n)) == 0
  }

  lemma NearestIsExact(n: nat, u: nat)
    requires u > 0
    ensures Nearest(n, u) == n <==> n % u == 0
  {
    var q, r := n / u, n % u;
    assert q * u == u * q && (q + 1) * u == u * q + u && n == u * q + r;
  }

  lemma FloatIsExact(n: int)
    ensures Float(n) == n <==> Exact(n)
    ensures Magnitude(n) <= TwoTo53 ==> Exact(n)
  {
    NearestIsExact(Magnitude(n), Unit(Magnitude(n)));
    if Magnitude(n) == TwoTo53 {
      assert Unit(TwoTo53) == 2 * Unit(TwoTo53 / 2) == 2;
    }
  }

  function EncodeCursor(k: Key): Token {
    Tuple([Number(k.timestamp), Number(k.height), Number(k.txIndex), Text(k.pin)])
  }

  /** The key a token carries, the zero key if it carries none; `None` if it
    * cannot be read. */
  function DecodeCursor(t: Token): Option<Key> {
    match t
    case Absent => Some(ZeroKey)
    case Blank => Some(ZeroKey)
    case Garbled => None
    case Tuple(parts) =>
      if |parts| != 4 || !parts[0].Number? || !parts[1].Number? || !parts[2].Number? || !parts[3].Text? then None
      else Some(Key(Float(parts[0].n), Float(parts[1].n), Float(parts[2].n), parts[3].s))
  }

  const ZeroKey: Key := Key(0, 0, 0, "")

  predicate ExactKey(k: Key) {
    Exact(k.timestamp) && Exact(k.height) && Exact(k.txIndex)
  }

  /** A cursor reads back as the key it was made of exactly when the key's
    * numbers fit 53 bits, which all numbers up to 2^53 do. */
  lemma CursorRoundTrips(k: Key)
    ensures DecodeCursor(EncodeCursor(k)) == Some(k) <==> ExactKey(k)
    ensures Magnitude(k.timestamp) <= TwoTo53 && Magnitude(k.height) <= TwoTo53 && Magnitude(k.txIndex) <= TwoTo53
      ==> ExactKey(k)
  {
    FloatIsExact(k.timestamp);
    FloatIsExact(k.height);
    FloatIsExact(k.txIndex);
  }

  /** The first timestamp that does not survive. */
  lemma CursorLosesBits()
    ensures DecodeCursor(EncodeCursor(Key(TwoTo53 + 1, 0, 0, ""))) == Some(Key(TwoTo53, 0, 0, ""))
  {
    var n := TwoTo53 + 1;
    assert n / 2 == 0x10_0000_0000_0000 && Unit(n) == 2 * Unit(n / 2) == 2;
    assert Nearest(n, 2) == TwoTo53;
  }

  // ---- One page ----

  datatype Query = Query(path: string, since: nat, size: nat)

  function OnPath(path: string): Item -> bool {
    (x: Item) => path == "" || x.path == path
  }

  function Fresh(since: nat): Item -> bool {
    (x: Item) => since == 0 || x.key.timestamp >= since
  }

  function Past(cursor: Option<Key>): Item -> bool {
    (x: Item) => cursor == None || Newer(cursor.value, x.key)
  }

  predicate Matches(q: Query, x: Item) {
    OnPath(q.path)(x) && Fresh(q.since)(x)
  }

  function Wanted(q: Query, cursor: Option<Key>): Item -> bool {
    x => Matches(q, x) && Past(cursor)(x)
  }

  /** Everything a page may still serve, in order. */
  function Window(pool: seq<Item>, q: Query, cursor: Option<Key>): seq<Item> {
    StableSort(PinsOrder, Select(Wanted(q, cursor), pool))
  }

  datatype Page = Page(items: seq<Item>, hasMore: bool, next: Token)

  function PageOf(pool: seq<Item>, q: Query, cursor: Option<Key>): Page
    requires q.size > 0
  {
    Front(Window(pool, q, cursor), q.size)
  }

  /** The key a request's token resumes after. */
  function Resume(t: Token): Option<Key> {
    if t == Absent then None else DecodeCursor(t)
  }

  datatype Reply = Served(page: Page) | BadParameter

  method HandlePins(pool: seq<Item>, q: Query, token: Token) returns (r: Reply)
    requires q.size > 0
    ensures r == if DecodeCursor(token) == None then BadParameter else Served(PageOf(pool, q, Resume(token)))
  {
    var decoded := DecodeCursor(token);
    if decoded == None {
      return BadParameter;
    }
    PinsOrderSorts();
    var all := FilterPath(pool, q.path);
    ghost var onPath := all;
    all := StableSort(PinsOrder, all);
    StableSortSorts(PinsOrder, onPath);
    all := CutOld(all, q.since);
    var start := 0;
    if token != Absent {
      start := FirstAfter(all, decoded.value);
    } else {
      SelectAll(Past(None), all);
    }
    StagesAreWindow(pool, q, Resume(token));
    assert all[start..] == Window(pool, q, Resume(token));
    var page := TakePage(all, start, q.size);
    r := Served(page);
  }

  function Front(w: seq<Item>, size: nat): Page
    requires size > 0
  {
    if size < |w| then Page(w[..size], true, EncodeCursor(w[size - 1].key)) else Page(w, false, Absent)
  }

  method TakePage(all: seq<Item>, start: nat, size: nat) returns (page: Page)
    requires start <= |all| && size > 0
    ensures page == Front(all[start..], size)
  {
    var end := start + size;
    if end < |all| {
      page := Page(all[start..end], true, EncodeCursor(all[end - 1].key));
    } else {
      page := Page(all[start..], false, Absent);
    }
  }

  /** Selecting before or after sorting, at once or in stages, is the same. */
  lemma StagesAreWindow(pool: seq<Item>, q: Query, cursor: Option<Key>)
    ensures Select(Past(cursor), Select(Fresh(q.since), StableSort(PinsOrder, Select(OnPath(q.path), pool))))
      == Window(pool, q, cursor)
  {
    var onPath := Select(OnPath(q.path), pool);
    var matching: Item -> bool := x => Matches(q, x);
    PinsOrderSorts();
    SelectSorted(PinsOrder, Fresh(q.since), onPath);
    SelectTwice(OnPath(q.path), Fresh(q.since), matching, pool);
    SelectSorted(PinsOrder, Past(cursor), Select(matching, pool));
    SelectTwice(matching, Past(cursor), Wanted(q, cursor), pool);
  }

  method FilterPath(pool: seq<Item>, path: string) returns (all: seq<Item>)
    ensures all == Select(OnPath(path), pool)
  {
    if path == "" {
      SelectAll(OnPath(path), pool);
      return pool;
    }
    all := [];
    for i := 0 to |pool|
      invariant all == Select(OnPath(path), pool[..i])
    {
      assert pool[..i + 1] == pool[..i] + [pool[i]];
      SelectSnoc(OnPath(path), pool[..i], pool[i]);
      if pool[i].path == path {
        all := all + [pool[i]];
      }
    }
    assert pool[..|pool|] == pool;
  }

  /** Cuts a sorted list at the first item older than the bound. */
  method CutOld(all: seq<Item>, since: nat) returns (kept: seq<Item>)
    requires Sorted(PinsOrder, all)
    ensures kept == Select(Fresh(since), all) && Sorted(PinsOrder, kept)
  {
    if since == 0 {
      SelectAll(Fresh(since), all);
      return all;
    }
    var cut := 0;
    while cut < |all| && all[cut].key.timestamp >= since
      invariant 0 <= cut <= |all|
      invariant forall i :: 0 <= i < cut ==> all[i].key.timestamp >= since
    {
      cut := cut + 1;
    }
    forall i | cut <= i < |all| ensures !Fresh(since)(all[i]) {
      assert i > cut ==> !PinsOrder(all[i], all[cut]);
    }
    SelectPrefix(Fresh(since), all, cut);
    kept := all[..cut];
  }

  lemma StaysPast(key: Key, a: Item, b: Item)
    requires Newer(key, a.key) && !PinsOrder(b, a)
    ensures Newer(key, b.key)
  {
    NewerTotal(a.key, b.key);
    if a.key != b.key {
      NewerTransitive(key, a.key, b.key);
    }
  }

  /** Where a sorted list passes a key. */
  method FirstAfter(all: seq<Item>, key: Key) returns (start: nat)
    requires Sorted(PinsOrder, all)
    ensures start <= |all| && all[start..] == Select(Past(Some(key)), all)
  {
    start := 0;
    while start < |all| && !Newer(key, all[start].key)
      invariant 0 <= start <= |all|
      invariant forall i :: 0 <= i < start ==> !Newer(key, all[i].key)
    {
      start := start + 1;
    }
    forall i | start < i < |all| ensures Newer(key, all[i].key) {
      StaysPast(key, all[start], all[i]);
    }
    SelectSuffix(Past(Some(key)), all, start);
  }

  // ---- Following the cursors ----

  ghost predicate Grows(pool: seq<Item>, later: seq<Item>) {
    forall x :: x in pool ==> x in later
  }

  /** The page a request for `after`'s continuation is served. */
  predicate Continues(after: Page, pool: seq<Item>, q: Query, page: Page)
    requires q.size > 0
  {
    after.hasMore && page == PageOf(pool, q, Resume(after.next))
  }

  /** Successive pages: each request resumes where the last page said, and the
    * pool it is served from may have grown since. */
  ghost predicate Follows(pools: seq<seq<Item>>, q: Query, pages: seq<Page>)
    requires q.size > 0
  {
    |pools| == |pages| > 0
    && pages[0] == PageOf(pools[0], q, None)
    && (forall k :: 0 < k < |pages| ==> Continues(pages[k - 1], pools[k], q, pages[k]))
    && forall k :: 0 < k < |pools| ==> Grows(pools[k - 1], pools[k])
  }

  /** One item per pin, with numbers a cursor carries exactly. */
  ghost predicate ProperPool(pool: seq<Item>) {
    (forall i, j :: 0 <= i < j < |pool| ==> pool[i].key.pin != pool[j].key.pin)
    && forall x :: x in pool ==> ExactKey(x.key)
  }

  /** Strictly newest first. */
  predicate Descends(s: seq<Item>) {
    forall i, j :: 0 <= i < j < |s| ==> Newer(s[i].key, s[j].key)
  }

  lemma DistinctAfterSort(pool: seq<Item>, s: seq<Item>)
    requires ProperPool(pool) && multiset(s) == multiset(pool) && Sorted(PinsOrder, s)
    ensures Descends(s)
  {
    forall i, j | 0 <= i < j < |s| ensures Newer(s[i].key, s[j].key) {
      NewerTotal(s[i].key, s[j].key);
      if s[i].key == s[j].key {
        TwicePicked(pool, s, i, j);
      }
    }
  }

  lemma TwicePicked(pool: seq<Item>, s: seq<Item>, i: nat, j: nat)
    requires ProperPool(pool) && multiset(s) == multiset(pool) && i < j < |s|
    ensures s[i].key != s[j].key
  {
    assert s[i] in multiset(s) && s[j] in multiset(s);
    var p :| 0 <= p < |pool| && pool[p] == s[i];
    var q :| 0 <= q < |pool| && pool[q] == s[j];
    TwiceInMultiset(s, i, j);
    OnceInMultiset(pool, p);
  }

  lemma {:induction false} SelectKeepsProper(f: Item -> bool, pool: seq<Item>)
    requires ProperPool(pool)
    ensures ProperPool(Select(f, pool))
  {
    if pool != [] {
      var rest := pool[1..];
      forall x | x in rest ensures pool[0].key.pin != x.key.pin && ExactKey(x.key) {
        var i :| 0 <= i < |rest| && rest[i] == x;
        assert pool[i + 1] == x;
      }
      SelectKeepsProper(f, rest);
    }
  }

  /** A window is the matching items past the cursor, strictly newest first. */
  lemma WindowIs(pool: seq<Item>, q: Query, cursor: Option<Key>)
    requires ProperPool(pool)
    ensures Descends(Window(pool, q, cursor))
    ensures forall x :: x in Window(pool, q, cursor) <==> x in pool && Matches(q, x) && Past(cursor)(x)
    ensures forall x :: x in Window(pool, q, cursor) ==> ExactKey(x.key)
  {
    var chosen := Select(Wanted(q, cursor), pool);
    PinsOrderSorts();
    StableSortSorts(PinsOrder, chosen);
    StableSortKeeps(PinsOrder, chosen);
    SelectKeepsProper(Wanted(q, cursor), pool);
    DistinctAfterSort(chosen, Window(pool, q, cursor));
  }

  ghost predicate AllProper(pools: seq<seq<Item>>) {
    forall k :: 0 <= k < |pools| ==> ProperPool(pools[k])
  }

  /** The key a page that has more ends on. */
  function EndOf(page: Page): Key
    requires page.items != []
  {
    page.items[|page.items| - 1].key
  }

  lemma FrontIs(w: seq<Item>, size: nat)
    requires Descends(w) && size > 0 && forall x :: x in w ==> ExactKey(x.key)
    ensures var page := Front(w, size);
      Descends(page.items) && (forall x :: x in page.items ==> x in w)
      && (page.hasMore ==> page.items != [] && Resume(page.next) == Some(EndOf(page)))
    ensures forall x :: x in w && x !in Front(w, size).items ==>
      Front(w, size).hasMore && Newer(EndOf(Front(w, size)), x.key)
  {
    var page := Front(w, size);
    if page.hasMore {
      CursorRoundTrips(EndOf(page));
      forall i | 0 <= i < size ensures w[i] in page.items {
        assert page.items[i] == w[i];
      }
    }
  }

  lemma PageIs(pool: seq<Item>, q: Query, cursor: Option<Key>)
    requires ProperPool(pool) && q.size > 0
    ensures var page := PageOf(pool, q, cursor);
      Descends(page.items)
      && (forall x :: x in page.items ==> x in pool && Matches(q, x) && Past(cursor)(x))
      && (page.hasMore ==> page.items != [] && Resume(page.next) == Some(EndOf(page)))
      && (forall x :: x in pool && Matches(q, x) && Past(cursor)(x) && x !in page.items ==>
            page.hasMore && Newer(EndOf(page), x.key))
  {
    WindowIs(pool, q, cursor);
    FrontIs(Window(pool, q, cursor), q.size);
  }

  lemma CursorAt(pools: seq<seq<Item>>, q: Query, pages: seq<Page>, k: nat) returns (cursor: Option<Key>)
    requires q.size > 0 && Follows(pools, q, pages) && AllProper(pools) && k < |pages|
    ensures pages[k] == PageOf(pools[k], q, cursor)
    ensures k == 0 ==> cursor == None
    ensures k > 0 ==> pages[k - 1].hasMore && pages[k - 1].items != [] && cursor == Some(EndOf(pages[k - 1]))
  {
    cursor := if k == 0 then None else Resume(pages[k - 1].next);
    if k > 0 {
      assert Continues(pages[k - 1], pools[k], q, pages[k]);
      var before := CursorAt(pools, q, pages, k - 1);
      PageIs(pools[k - 1], q, before);
    }
  }

  lemma {:induction false} PoolsGrow(pools: seq<seq<Item>>, k: nat, l: nat)
    requires k <= l < |pools| && forall i :: 0 < i < |pools| ==> Grows(pools[i - 1], pools[i])
    ensures Grows(pools[k], pools[l])
  {
    if k < l {
      PoolsGrow(pools, k, l - 1);
      assert Grows(pools[l - 1], pools[l]);
    }
  }

  lemma StartsPast(pools: seq<seq<Item>>, q: Query, pages: seq<Page>, l: nat, y: Item)
    requires q.size > 0 && Follows(pools, q, pages) && AllProper(pools)
    requires 0 < l < |pages| && y in pages[l].items
    ensures pages[l - 1].items != [] && Newer(EndOf(pages[l - 1]), y.key)
  {
    var cursor := CursorAt(pools, q, pages, l);
    PageIs(pools[l], q, cursor);
  }

  lemma EndsLast(pools: seq<seq<Item>>, q: Query, pages: seq<Page>, k: nat, x: Item)
    requires q.size > 0 && Follows(pools, q, pages) && AllProper(pools)
    requires k < |pages| && x in pages[k].items
    ensures x.key == EndOf(pages[k]) || Newer(x.key, EndOf(pages[k]))
  {
    var cursor := CursorAt(pools, q, pages, k);
    PageDescends(pools[k], q, cursor);
    EndOfDescent(pages[k].items, x);
  }

  lemma PageDescends(pool: seq<Item>, q: Query, cursor: Option<Key>)
    requires ProperPool(pool) && q.size > 0
    ensures Descends(PageOf(pool, q, cursor).items)
  {
    PageIs(pool, q, cursor);
  }

  lemma EndOfDescent(s: seq<Item>, x: Item)
    requires Descends(s) && x in s
    ensures x == s[|s| - 1] || Newer(x.key, s[|s| - 1].key)
  {
  }

  /** Whatever a later page holds comes after all an earlier one held. */
  lemma {:induction false} PagesDescend(pools: seq<seq<Item>>, q: Query, pages: seq<Page>, k: nat, l: nat, x: Item, y: Item)
    requires q.size > 0 && Follows(pools, q, pages) && AllProper(pools)
    requires k < l < |pages| && x in pages[k].items && y in pages[l].items
    ensures Newer(x.key, y.key)
  {
    StartsPast(pools, q, pages, l, y);
    var items := pages[l - 1].items;
    if k == l - 1 {
      EndsLast(pools, q, pages, k, x);
    } else {
      PagesDescend(pools, q, pages, k, l - 1, x, items[|items| - 1]);
    }
    if x.key != EndOf(pages[l - 1]) {
      NewerTransitive(x.key, EndOf(pages[l - 1]), y.key);
    }
  }

  /** Following the cursors while pins keep arriving never serves a pin twice. */
  lemma NothingTwice(pools: seq<seq<Item>>, q: Query, pages: seq<Page>, k: nat, l: nat, i: nat, j: nat)
    requires q.size > 0 && Follows(pools, q, pages) && AllProper(pools)
    requires k < |pages| && l < |pages| && i < |pages[k].items| && j < |pages[l].items|
    requires k < l || (k == l && i < j)
    ensures pages[k].items[i].key.pin != pages[l].items[j].key.pin
  {
    var x, y := pages[k].items[i], pages[l].items[j];
    var from := CursorAt(pools, q, pages, k);
    PageIs(pools[k], q, from);
    var to := CursorAt(pools, q, pages, l);
    PageIs(pools[l], q, to);
    if k < l {
      PagesDescend(pools, q, pages, k, l, x, y);
    }
    PoolsGrow(pools, k, l);
    assert x in pools[l] && y in pools[l];
    NewerTotal(x.key, y.key);
    var a :| 0 <= a < |pools[l]| && pools[l][a] == x;
    var b :| 0 <= b < |pools[l]| && pools[l][b] == y;
    assert a != b;
  }

  lemma {:induction false} ServedOrAhead(pools: seq<seq<Item>>, q: Query, pages: seq<Page>, x: Item, k: nat)
    requires q.size > 0 && Follows(pools, q, pages) && AllProper(pools) && k < |pages|
    requires x in pools[0] && Matches(q, x)
    ensures (exists l :: 0 <= l <= k && x in pages[l].items)
            || (pages[k].hasMore && pages[k].items != [] && Newer(EndOf(pages[k]), x.key))
  {
    var cursor := CursorAt(pools, q, pages, k);
    PageIs(pools[k], q, cursor);
    PoolsGrow(pools, 0, k);
    if k > 0 {
      ServedOrAhead(pools, q, pages, x, k - 1);
    }
  }

  /** And once a page says there is no more, every matching pin that was there
    * when the first page was served has been served. */
  lemma NothingMissed(pools: seq<seq<Item>>, q: Query, pages: seq<Page>, x: Item)
    requires q.size > 0 && Follows(pools, q, pages) && AllProper(pools)
    requires !pages[|pages| - 1].hasMore
    requires x in pools[0] && Matches(q, x)
    ensures exists k :: 0 <= k < |pages| && x in pages[k].items
  {
    ServedOrAhead(pools, q, pages, x, |pages| - 1);
  }
}
