/** The canonical JSON writer (internal/metatask/v121.go:101-201): the bytes the
    hashes are taken over. Strings are sequences of Unicode characters, which is
    what decoded JSON text is; integers are unbounded. */
module CanonicalJson {
  import opened ChainEvents

  datatype J =
    | Null
    | Bool(b: bool)
    | Str(s: string)
    | Int(n: int)
    | Arr(items: seq<J>)
    | Obj(fields: map<string, J>)

  // ------------------------------------------------------------------
  // Integers
  // ------------------------------------------------------------------

  function DigitChar(d: nat): char
    requires d < 10
  {
    '0' + d as char
  }

  predicate IsDigit(c: char) {
    '0' <= c <= '9'
  }

  function Digits(n: nat): string {
    if n < 10 then [DigitChar(n)] else Digits(n / 10) + [DigitChar(n % 10)]
  }

  function Decimal(n: int): string {
    if n < 0 then "-" + Digits(-n) else Digits(n)
  }

  function ValueOf(s: string): int {
    if s == [] then 0 else 10 * ValueOf(s[..|s| - 1]) + (s[|s| - 1] as int - '0' as int)
  }

  lemma {:induction false} DigitsValue(n: nat)
    ensures ValueOf(Digits(n)) == n && Digits(n) != []
    ensures forall i | 0 <= i < |Digits(n)| :: IsDigit(Digits(n)[i])
  {
    if n < 10 {
      assert Digits(n)[..0] == [];
    } else {
      DigitsValue(n / 10);
      var d := Digits(n);
      assert d[..|d| - 1] == Digits(n / 10);
    }
  }

  // ------------------------------------------------------------------
  // Strings
  // ------------------------------------------------------------------

  function Hex(d: nat): char
    requires d < 16
  {
    if d < 10 then '0' + d as char else 'a' + (d - 10) as char
  }

  function Escape(c: char): string {
    if c == '"' then ['\\', '"']
    else if c == '\\' then ['\\', '\\']
    else if c == '\U{8}' then ['\\', 'b']
    else if c == '\U{c}' then ['\\', 'f']
    else if c == '\n' then ['\\', 'n']
    else if c == '\r' then ['\\', 'r']
    else if c == '\t' then ['\\', 't']
    else if c as int < 0x20 then ['\\', 'u', '0', '0', Hex(c as int / 16), Hex(c as int % 16)]
    else [c]
  }

  function Escaped(s: string): string {
    if s == [] then [] else Escape(s[0]) + Escaped(s[1..])
  }

  function Quote(s: string): string {
    ['"'] + Escaped(s) + ['"']
  }

  lemma HexInjective(a: nat, b: nat)
    requires a < 16 && b < 16 && Hex(a) == Hex(b)
    ensures a == b
  {
  }

  /** No escape is a prefix of another. */
  lemma EscapePrefixFree(c: char, d: char, x: string, y: string)
    requires Escape(c) + x == Escape(d) + y
    ensures c == d && x == y
  {
    var l, r := Escape(c) + x, Escape(d) + y;
    assert l[0] == r[0] && Escape(c)[0] == Escape(d)[0];
    if Escape(c)[0] == '\\' {
      assert l[1] == Escape(c)[1] && r[1] == Escape(d)[1];
      if Escape(c)[1] == 'u' {
        assert l[4] == Escape(c)[4] && r[4] == Escape(d)[4] && l[5] == Escape(c)[5] && r[5] == Escape(d)[5];
        HexInjective(c as int / 16, d as int / 16);
        HexInjective(c as int % 16, d as int % 16);
      }
    }
    assert c == d;
    assert x == l[|Escape(c)|..] && y == r[|Escape(d)|..];
  }

  lemma EscapeIsNoQuote(c: char)
    ensures Escape(c) != [] && Escape(c)[0] != '"'
  {
  }

  lemma EscapedSplits(s: string, x: string)
    requires s != []
    ensures Escaped(s) + ['"'] + x == Escape(s[0]) + (Escaped(s[1..]) + ['"'] + x)
  {
  }

  /** Only the closing quote stands unescaped. */
  lemma EscapedHead(s: string, x: string)
    ensures (Escaped(s) + ['"'] + x)[0] == '"' <==> s == []
  {
    if s != [] {
      EscapedSplits(s, x);
      EscapeIsNoQuote(s[0]);
    }
  }

  /** A quoted string tells where it ends. */
  lemma {:induction false} EscapedEnds(s: string, t: string, x: string, y: string)
    requires Escaped(s) + ['"'] + x == Escaped(t) + ['"'] + y
    ensures s == t && x == y
    decreases |s|
  {
    EscapedHead(s, x);
    EscapedHead(t, y);
    if s == [] {
      assert [] + ['"'] + x == ['"'] + x && [] + ['"'] + y == ['"'] + y;
      assert (['"'] + x)[1..] == x && (['"'] + y)[1..] == y;
    } else {
      EscapedSplits(s, x);
      EscapedSplits(t, y);
      EscapePrefixFree(s[0], t[0], Escaped(s[1..]) + ['"'] + x, Escaped(t[1..]) + ['"'] + y);
      EscapedEnds(s[1..], t[1..], x, y);
      assert s == [s[0]] + s[1..] && t == [t[0]] + t[1..];
    }
  }

  // ------------------------------------------------------------------
  // Object keys
  // ------------------------------------------------------------------

  ghost predicate Increasing(keys: seq<string>) {
    forall i, j | 0 <= i < j < |keys| :: StringLess(keys[i], keys[j])
  }

  ghost predicate Lists(keys: seq<string>, ids: set<string>) {
    forall k :: k in keys <==> k in ids
  }

  lemma {:induction false} Least(keys: set<string>) returns (k: string)
    requires keys != {}
    ensures k in keys && forall x | x in keys :: x == k || StringLess(k, x)
    decreases keys
  {
    k :| k in keys;
    if keys != {k} {
      var rest := keys - {k};
      assert keys == rest + {k};
      var m := Least(rest);
      StringTrichotomy(k, m);
      if StringLess(m, k) {
        k := m;
      } else {
        forall x | x in rest && x != m
          ensures StringLess(k, x)
        {
          StringLessTransitive(k, m, x);
        }
      }
    }
  }

  lemma SortedExists(keys: set<string>)
    ensures exists s :: Increasing(s) && Lists(s, keys)
    decreases keys
  {
    if keys == {} {
      assert Increasing([]) && Lists([], keys);
    } else {
      var k := Least(keys);
      SortedExists(keys - {k});
      var s :| Increasing(s) && Lists(s, keys - {k});
      var all := [k] + s;
      forall j | 0 <= j < |s|
        ensures StringLess(k, s[j])
      {
        assert s[j] in s;
      }
      assert Increasing(all) && Lists(all, keys);
    }
  }

  /** The keys in order: what sorting them leaves, whatever order they came in. */
  ghost function SortedKeys(keys: set<string>): (s: seq<string>)
    ensures Increasing(s) && Lists(s, keys)
  {
    SortedExists(keys);
    var s :| Increasing(s) && Lists(s, keys);
    s
  }

  lemma {:induction false} SortedIsUnique(s: seq<string>, t: seq<string>, keys: set<string>)
    requires Increasing(s) && Increasing(t) && Lists(s, keys) && Lists(t, keys)
    ensures s == t
    decreases |s|
  {
    assert s != [] ==> s[0] in s;
    assert t != [] ==> t[0] in t;
    if s != [] {
      FirstIsLeast(s, t, keys);
      ListsRest(s, keys);
      ListsRest(t, keys);
      SortedIsUnique(s[1..], t[1..], keys - {s[0]});
      assert s == [s[0]] + s[1..] && t == [t[0]] + t[1..];
    }
  }

  lemma FirstIsLeast(s: seq<string>, t: seq<string>, keys: set<string>)
    requires Increasing(s) && Increasing(t) && Lists(s, keys) && Lists(t, keys) && s != []
    ensures t != [] && s[0] == t[0]
  {
    assert s[0] in s && s[0] in t;
    assert t[0] in t && t[0] in s;
    StringLessStrict(s[0], t[0]);
  }

  lemma ListsRest(s: seq<string>, keys: set<string>)
    requires s != [] && Increasing(s) && Lists(s, keys)
    ensures Increasing(s[1..]) && Lists(s[1..], keys - {s[0]})
  {
    assert s == [s[0]] + s[1..];
    forall j | 0 < j < |s|
      ensures s[j] != s[0]
    {
      StringLessStrict(s[0], s[0]);
    }
  }

  // ------------------------------------------------------------------
  // Values
  // ------------------------------------------------------------------

  ghost function Canon(j: J): string
    decreases j, 1, 0
  {
    match j
    case Null => "null"
    case Bool(b) => if b then "true" else "false"
    case Str(s) => Quote(s)
    case Int(n) => Decimal(n)
    case Arr(_) => "[" + Items(j, 0) + "]"
    case Obj(fields) => "{" + Fields(j, SortedKeys(fields.Keys), 0) + "}"
  }

  /** The items from the i-th on, comma-separated. */
  ghost function Items(j: J, i: nat): string
    requires j.Arr? && i <= |j.items|
    decreases j, 0, |j.items| - i
  {
    if i == |j.items| then ""
    else (if i > 0 then "," else "") + Canon(j.items[i]) + Items(j, i + 1)
  }

  ghost function Field(j: J, key: string): string
    requires j.Obj? && key in j.fields
    decreases j, 0, 0
  {
    Quote(key) + ":" + Canon(j.fields[key])
  }

  /** The given fields from the i-th on, comma-separated. */
  ghost function Fields(j: J, keys: seq<string>, i: nat): string
    requires j.Obj? && i <= |keys| && forall k | k in keys :: k in j.fields
    decreases j, 0, |keys| - i + 1
  {
    if i == |keys| then ""
    else (if i > 0 then "," else "") + Field(j, keys[i]) + Fields(j, keys, i + 1)
  }

  // ------------------------------------------------------------------
  // Every value tells where it ends
  // ------------------------------------------------------------------

  /** What may follow a value inside a document. */
  predicate Closes(x: string) {
    x == "" || x[0] in {',', ']', '}'}
  }

  datatype Kind = KNull | KTrue | KFalse | KStr | KInt | KArr | KObj

  function KindOf(j: J): Kind {
    match j
    case Null => KNull
    case Bool(b) => if b then KTrue else KFalse
    case Str(_) => KStr
    case Int(_) => KInt
    case Arr(_) => KArr
    case Obj(_) => KObj
  }

  function KindOfHead(c: char): Option<Kind> {
    if c == 'n' then Some(KNull)
    else if c == 't' then Some(KTrue)
    else if c == 'f' then Some(KFalse)
    else if c == '"' then Some(KStr)
    else if c == '[' then Some(KArr)
    else if c == '{' then Some(KObj)
    else if c == '-' || IsDigit(c) then Some(KInt)
    else None
  }

  /** The first character tells the kind of the value. */
  lemma HeadTellsKind(j: J, x: string)
    ensures Canon(j) + x != "" && KindOfHead((Canon(j) + x)[0]) == Some(KindOf(j))
  {
    if j.Int? {
      DigitsValue(if j.n < 0 then -j.n else j.n);
    }
  }

  /** Digits stop where something else begins. */
  lemma {:induction false} DigitsEnd(a: string, b: string, x: string, y: string)
    requires (forall i | 0 <= i < |a| :: IsDigit(a[i])) && (forall i | 0 <= i < |b| :: IsDigit(b[i]))
    requires Closes(x) && Closes(y) && a + x == b + y
    ensures a == b && x == y
    decreases |a|
  {
    assert a != [] ==> (a + x)[0] == a[0];
    assert b != [] ==> (b + y)[0] == b[0];
    assert a == [] ==> a + x == x;
    assert b == [] ==> b + y == y;
    if a != [] {
      assert (a + x)[1..] == a[1..] + x && (b + y)[1..] == b[1..] + y;
      DigitsEnd(a[1..], b[1..], x, y);
      assert a == [a[0]] + a[1..] && b == [b[0]] + b[1..];
    }
  }

  /** A minus sign is no digit, so the signs agree and come off together. */
  lemma DecimalEnds(m: int, n: int, x: string, y: string)
    requires Closes(x) && Closes(y) && Decimal(m) + x == Decimal(n) + y
    ensures m == n && x == y
  {
    SignHead(m, x);
    SignHead(n, y);
    var p, q: nat := if m < 0 then -m else m, if n < 0 then -n else n;
    DigitsValue(p);
    DigitsValue(q);
    if m < 0 {
      Behind("-", Digits(p) + x, Digits(q) + y);
    }
    DigitsEnd(Digits(p), Digits(q), x, y);
  }

  lemma SignHead(n: int, x: string)
    ensures var s := Decimal(n) + x;
            s != "" && (s[0] == '-' <==> n < 0) && (n < 0 ==> s == "-" + (Digits(-n) + x))
  {
    DigitsValue(if n < 0 then -n else n);
    if n < 0 {
      Assoc("-", Digits(-n), x);
    }
  }

  lemma Assoc(a: string, b: string, c: string)
    ensures a + b + c == a + (b + c)
  {
  }

  lemma QuoteEnds(s: string, t: string, x: string, y: string)
    requires Quote(s) + x == Quote(t) + y
    ensures s == t && x == y
  {
    assert (Quote(s) + x)[1..] == Escaped(s) + ['"'] + x;
    assert (Quote(t) + y)[1..] == Escaped(t) + ['"'] + y;
    EscapedEnds(s, t, x, y);
  }

  /** Two documents that agree as far as both values go hold the same value first. */
  lemma {:induction false} CanonEnds(a: J, b: J, x: string, y: string)
    requires Closes(x) && Closes(y) && Canon(a) + x == Canon(b) + y
    ensures a == b && x == y
    decreases a, 1, 0
  {
    HeadTellsKind(a, x);
    HeadTellsKind(b, y);
    match a
    case Null => Behind("null", x, y);
    case Bool(t) => Behind(if t then "true" else "false", x, y);
    case Str(s) => QuoteEnds(s, b.s, x, y);
    case Int(n) => DecimalEnds(n, b.n, x, y);
    case Arr(_) => ArrEnds(a, b, x, y);
    case Obj(_) => ObjEnds(a, b, x, y);
  }

  lemma {:induction false} ArrEnds(a: J, b: J, x: string, y: string)
    requires a.Arr? && b.Arr? && Closes(x) && Closes(y) && Canon(a) + x == Canon(b) + y
    ensures a == b && x == y
    decreases a, 0, |a.items| + 1
  {
    Wrapped("[", Items(a, 0), "]", x);
    Wrapped("[", Items(b, 0), "]", y);
    Behind("[", Items(a, 0) + "]" + x, Items(b, 0) + "]" + y);
    ItemsEnd(a, b, 0, x, y);
    assert a.items[0..] == a.items && b.items[0..] == b.items;
  }

  lemma {:induction false} ObjEnds(a: J, b: J, x: string, y: string)
    requires a.Obj? && b.Obj? && Closes(x) && Closes(y) && Canon(a) + x == Canon(b) + y
    ensures a == b && x == y
    decreases a, 0, |SortedKeys(a.fields.Keys)| + 1
  {
    var ka, kb := SortedKeys(a.fields.Keys), SortedKeys(b.fields.Keys);
    Wrapped("{", Fields(a, ka, 0), "}", x);
    Wrapped("{", Fields(b, kb, 0), "}", y);
    Behind("{", Fields(a, ka, 0) + "}" + x, Fields(b, kb, 0) + "}" + y);
    FieldsEnd(a, ka, b, kb, 0, x, y);
    assert ka[0..] == ka && kb[0..] == kb;
    SameFields(a.fields, b.fields, ka);
  }

  lemma SameFields(m: map<string, J>, n: map<string, J>, keys: seq<string>)
    requires Lists(keys, m.Keys) && Lists(keys, n.Keys) && forall k | k in keys :: m[k] == n[k]
    ensures m == n
  {
    assert forall k :: k in m <==> k in keys;
    assert forall k :: k in n <==> k in keys;
  }

  lemma Wrapped(open_: string, s: string, close_: string, x: string)
    ensures open_ + s + close_ + x == open_ + (s + close_ + x)
  {
  }

  lemma Behind(s: string, x: string, y: string)
    requires s + x == s + y
    ensures x == y
  {
    assert x == (s + x)[|s|..] && y == (s + y)[|s|..];
  }

  /** What follows a separator, or nothing. */
  function Comma(i: nat): string {
    if i > 0 then "," else ""
  }

  lemma {:induction false} ItemsEnd(a: J, b: J, i: nat, x: string, y: string)
    requires a.Arr? && b.Arr? && i <= |a.items| && i <= |b.items|
    requires Closes(x) && Closes(y) && Items(a, i) + "]" + x == Items(b, i) + "]" + y
    ensures a.items[i..] == b.items[i..] && x == y
    decreases a, 0, |a.items| - i
  {
    ItemsHead(a, i, x);
    ItemsHead(b, i, y);
    if i < |a.items| {
      var l, r := Items(a, i + 1) + "]" + x, Items(b, i + 1) + "]" + y;
      ItemsUnfold(a, i, x);
      ItemsUnfold(b, i, y);
      Behind(Comma(i), Canon(a.items[i]) + l, Canon(b.items[i]) + r);
      ItemsHead(a, i + 1, x);
      ItemsHead(b, i + 1, y);
      CanonEnds(a.items[i], b.items[i], l, r);
      ItemsEnd(a, b, i + 1, x, y);
      assert a.items[i..] == [a.items[i]] + a.items[i + 1..] && b.items[i..] == [b.items[i]] + b.items[i + 1..];
    } else {
      Behind("]", x, y);
    }
  }

  lemma ItemsUnfold(j: J, i: nat, x: string)
    requires j.Arr? && i < |j.items|
    ensures Items(j, i) + "]" + x == Comma(i) + (Canon(j.items[i]) + (Items(j, i + 1) + "]" + x))
  {
  }

  /** The closing bracket shows exactly when the items are over. */
  lemma ItemsHead(j: J, i: nat, x: string)
    requires j.Arr? && i <= |j.items|
    ensures var s := Items(j, i) + "]" + x;
            s != "" && (s[0] == ']' <==> i == |j.items|) && (i > 0 ==> Closes(s)) && (i == |j.items| ==> s == "]" + x)
  {
    if i < |j.items| {
      HeadTellsKind(j.items[i], "");
      assert Canon(j.items[i]) + "" == Canon(j.items[i]);
    }
  }

  lemma {:induction false} FieldsEnd(a: J, ka: seq<string>, b: J, kb: seq<string>, i: nat, x: string, y: string)
    requires a.Obj? && (forall k | k in ka :: k in a.fields) && i <= |ka|
    requires b.Obj? && (forall k | k in kb :: k in b.fields) && i <= |kb|
    requires Closes(x) && Closes(y) && Fields(a, ka, i) + "}" + x == Fields(b, kb, i) + "}" + y
    ensures ka[i..] == kb[i..] && x == y && forall k | k in ka[i..] :: a.fields[k] == b.fields[k]
    decreases a, 0, |ka| - i
  {
    FieldsHead(a, ka, i, x);
    FieldsHead(b, kb, i, y);
    if i < |ka| {
      var l, r := Fields(a, ka, i + 1) + "}" + x, Fields(b, kb, i + 1) + "}" + y;
      FieldsUnfold(a, ka, i, x);
      FieldsUnfold(b, kb, i, y);
      Behind(Comma(i), Field(a, ka[i]) + l, Field(b, kb[i]) + r);
      FieldsHead(a, ka, i + 1, x);
      FieldsHead(b, kb, i + 1, y);
      FieldEnds(a, ka[i], b, kb[i], l, r);
      FieldsEnd(a, ka, b, kb, i + 1, x, y);
      assert ka[i..] == [ka[i]] + ka[i + 1..] && kb[i..] == [kb[i]] + kb[i + 1..];
    } else {
      Behind("}", x, y);
    }
  }

  lemma {:induction false} FieldEnds(a: J, k: string, b: J, l: string, x: string, y: string)
    requires a.Obj? && k in a.fields && b.Obj? && l in b.fields
    requires Closes(x) && Closes(y) && Field(a, k) + x == Field(b, l) + y
    ensures k == l && a.fields[k] == b.fields[l] && x == y
    decreases a, 0, 0
  {
    var va, vb := Canon(a.fields[k]), Canon(b.fields[l]);
    Wrapped(Quote(k), ":", va, x);
    Wrapped(Quote(l), ":", vb, y);
    QuoteEnds(k, l, ":" + va + x, ":" + vb + y);
    Assoc(":", va, x);
    Assoc(":", vb, y);
    Behind(":", va + x, vb + y);
    CanonEnds(a.fields[k], b.fields[l], x, y);
  }

  lemma FieldsUnfold(j: J, keys: seq<string>, i: nat, x: string)
    requires j.Obj? && (forall k | k in keys :: k in j.fields) && i < |keys|
    ensures Fields(j, keys, i) + "}" + x == Comma(i) + (Field(j, keys[i]) + (Fields(j, keys, i + 1) + "}" + x))
  {
  }

  lemma FieldsHead(j: J, keys: seq<string>, i: nat, x: string)
    requires j.Obj? && (forall k | k in keys :: k in j.fields) && i <= |keys|
    ensures var s := Fields(j, keys, i) + "}" + x;
            s != "" && (s[0] == '}' <==> i == |keys|) && (i > 0 ==> Closes(s)) && (i == |keys| ==> s == "}" + x)
  {
  }

  /** Canonical JSON is injective: different values never give the same bytes. */
  lemma CanonIsInjective(a: J, b: J)
    requires Canon(a) == Canon(b)
    ensures a == b
  {
    assert Canon(a) + "" == Canon(a) && Canon(b) + "" == Canon(b);
    CanonEnds(a, b, "", "");
  }

  // ------------------------------------------------------------------
  // The writer
  // ------------------------------------------------------------------

  /** Sorts distinct strings; what it leaves depends only on which strings they are. */
  method SortStrings(keys: seq<string>, ghost ids: set<string>) returns (s: seq<string>)
    requires Lists(keys, ids)
    ensures s == SortedKeys(ids)
  {
    s := [];
    ghost var done: set<string> := {};
    for i := 0 to |keys|
      invariant Increasing(s) && Lists(s, done) && Lists(keys[..i], done) && done <= ids
    {
      var at := Place(s, keys[i]);
      assert keys[..i + 1] == keys[..i] + [keys[i]];
      if at == |s| || s[at] != keys[i] {
        PutAt(s, done, at, keys[i]);
        s := s[..at] + [keys[i]] + s[at..];
      }
      assert keys[i] in keys;
      done := done + {keys[i]};
    }
    assert keys[..|keys|] == keys;
    assert done == ids;
    SortedIsUnique(s, SortedKeys(ids), ids);
  }

  method Place(s: seq<string>, key: string) returns (at: nat)
    requires Increasing(s)
    ensures at <= |s| && (forall i | 0 <= i < at :: StringLess(s[i], key))
    ensures at < |s| ==> s[at] == key || StringLess(key, s[at])
  {
    at := 0;
    while at < |s| && StringLess(s[at], key)
      invariant at <= |s| && forall i | 0 <= i < at :: StringLess(s[i], key)
    {
      at := at + 1;
    }
    if at < |s| {
      StringTrichotomy(s[at], key);
    }
  }

  lemma PutAt(s: seq<string>, ids: set<string>, at: nat, key: string)
    requires Increasing(s) && Lists(s, ids) && at <= |s|
    requires forall i | 0 <= i < at :: StringLess(s[i], key)
    requires at < |s| ==> StringLess(key, s[at])
    ensures Increasing(s[..at] + [key] + s[at..]) && Lists(s[..at] + [key] + s[at..], ids + {key})
  {
    forall j | at <= j < |s|
      ensures StringLess(key, s[j])
    {
      if j > at {
        StringLessTransitive(key, s[at], s[j]);
      }
    }
    assert s == s[..at] + s[at..];
  }

  /** The keys of a map as a range over it meets them: in no particular order. */
  method AnyKeys(m: map<string, J>) returns (keys: seq<string>)
    ensures Lists(keys, m.Keys)
  {
    keys := [];
    var todo := m.Keys;
    while todo != {}
      invariant todo <= m.Keys && Lists(keys, m.Keys - todo)
      decreases todo
    {
      var k :| k in todo;
      keys, todo := keys + [k], todo - {k};
    }
  }

  /** The recursive writer; whatever order a map yields its keys in, the bytes are the same. */
  method Write(j: J) returns (s: string)
    ensures s == Canon(j)
    decreases j
  {
    match j {
      case Null => s := "null";
      case Bool(b) => s := if b then "true" else "false";
      case Str(t) => s := Quote(t);
      case Int(n) => s := Decimal(n);
      case Arr(items) =>
        s := "[";
        for i := 0 to |items|
          invariant s + Items(j, i) == "[" + Items(j, 0)
        {
          var item := Write(items[i]);
          Joined(s, Comma(i), item, Items(j, i + 1));
          if i > 0 {
            s := s + ",";
          }
          s := s + item;
        }
        assert s + "" == s;
        s := s + "]";
      case Obj(fields) =>
        var keys := AnyKeys(fields);
        keys := SortStrings(keys, fields.Keys);
        s := "{";
        for i := 0 to |keys|
          invariant s + Fields(j, keys, i) == "{" + Fields(j, keys, 0)
        {
          var value := Write(fields[keys[i]]);
          Joined(s, Comma(i), Quote(keys[i]) + ":" + value, Fields(j, keys, i + 1));
          if i > 0 {
            s := s + ",";
          }
          s := s + (Quote(keys[i]) + ":" + value);
        }
        assert s + "" == s;
        s := s + "}";
    }
  }

  lemma Joined(s: string, comma: string, part: string, rest: string)
    ensures s + (comma + part + rest) == (if comma == "" then s else s + comma) + part + rest
  {
    if comma == "" {
      assert comma + part == part;
    }
  }

  // ------------------------------------------------------------------
  // The bytes the event set hash is taken over
  // ------------------------------------------------------------------

  datatype HashEntry = HashEntry(path: string, pinId: string, height: int, txIndex: int)

  const PATH_PREFIX := "/protocols/metatask/"

  function EntryJson(e: HashEntry): J {
    Obj(map["path" := Str(PATH_PREFIX + e.path), "pinId" := Str(e.pinId), "height" := Int(e.height), "txIndex" := Int(e.txIndex)])
  }

  function EntriesJson(entries: seq<HashEntry>): J {
    Arr(seq(|entries|, i requires 0 <= i < |entries| => EntryJson(entries[i])))
  }

  /** Two lists of hash entries with the same pre-hash bytes are the same list. */
  lemma EventSetBytesAreInjective(a: seq<HashEntry>, b: seq<HashEntry>)
    requires Canon(EntriesJson(a)) == Canon(EntriesJson(b))
    ensures a == b
  {
    CanonIsInjective(EntriesJson(a), EntriesJson(b));
    assert |a| == |EntriesJson(a).items| == |EntriesJson(b).items| == |b|;
    forall i | 0 <= i < |a|
      ensures a[i] == b[i]
    {
      assert EntriesJson(a).items[i] == EntriesJson(b).items[i];
      EntryJsonIsInjective(a[i], b[i]);
    }
  }

  lemma EntryJsonIsInjective(e: HashEntry, f: HashEntry)
    requires EntryJson(e) == EntryJson(f)
    ensures e == f
  {
    assert "path" != "pinId" && "path" != "height" && "path" != "txIndex";
    assert "pinId" != "height" && "pinId" != "txIndex" && "height" != "txIndex";
    var m, n := EntryJson(e).fields, EntryJson(f).fields;
    assert m["path"] == Str(PATH_PREFIX + e.path) && n["path"] == Str(PATH_PREFIX + f.path);
    Behind(PATH_PREFIX, e.path, f.path);
    assert m["pinId"] == Str(e.pinId) && n["pinId"] == Str(f.pinId);
    assert m["height"] == Int(e.height) && n["height"] == Int(f.height);
    assert m["txIndex"] == Int(e.txIndex) && n["txIndex"] == Int(f.txIndex);
  }
}
