/** ID addresses: "id", a version letter, "1", the payload in base 32 and six
  * checksum characters. Encoding and decoding, their round trips, and what the
  * checksum catches.
  *
  * A `string` is a sequence of Unicode characters. The decoder's table is
  * indexed by bytes of the text and looks a character up by its low eight
  * bits, so a character of `Width` w takes w symbols, the last w - 1 zero.
  */
module IdAddress {
  import opened BitStrings
  import opened ChainEvents
  import opened BitRegroup
  import opened Checksum

  // ---- The alphabet ----

  const Charset: string := "qpzry9x8gf2tvdw0s3jn54khce6mua7l"

  /** The first index from `i` on that holds `c`. */
  function IndexFrom(c: char, i: nat): (r: Option<nat>)
    requires i <= |Charset|
    ensures r == None ==> forall k :: i <= k < |Charset| ==> Charset[k] != c
    ensures r.Some? ==> i <= r.value < |Charset| && Charset[r.value] == c
    decreases |Charset| - i, c
  {
    if i == |Charset| then None
    else if Charset[i] == c then Some(i)
    else IndexFrom(c, i + 1)
  }

  /** The value of a charset character. */
  function ValueOf(c: char): (r: Option<nat>)
    ensures r.Some? ==> r.value < 32 && Charset[r.value] == c
  {
    IndexFrom(c, 0)
  }

  /** The segwit codec's own table, written out. */
  function TableValue(c: char): (r: Option<nat>)
    ensures r.Some? ==> r.value < 32 && Charset[r.value] == c
  {
    match c
    case 'q' => Some(0)
    case 'p' => Some(1)
    case 'z' => Some(2)
    case 'r' => Some(3)
    case 'y' => Some(4)
    case '9' => Some(5)
    case 'x' => Some(6)
    case '8' => Some(7)
    case 'g' => Some(8)
    case 'f' => Some(9)
    case '2' => Some(10)
    case 't' => Some(11)
    case 'v' => Some(12)
    case 'd' => Some(13)
    case 'w' => Some(14)
    case '0' => Some(15)
    case 's' => Some(16)
    case '3' => Some(17)
    case 'j' => Some(18)
    case 'n' => Some(19)
    case '5' => Some(20)
    case '4' => Some(21)
    case 'k' => Some(22)
    case 'h' => Some(23)
    case 'c' => Some(24)
    case 'e' => Some(25)
    case '6' => Some(26)
    case 'm' => Some(27)
    case 'u' => Some(28)
    case 'a' => Some(29)
    case '7' => Some(30)
    case 'l' => Some(31)
    case _ => None
  }

  lemma TableOfCharset(i: nat)
    requires i < 32
    ensures TableValue(Charset[i]) == Some(i)
  {
    if i < 8 {
      assert TableValue("qpzry9x8"[i]) == Some(i);
    } else if i < 16 {
      assert TableValue("gf2tvdw0"[i - 8]) == Some(i);
    } else if i < 24 {
      assert TableValue("s3jn54kh"[i - 16]) == Some(i);
    } else {
      assert TableValue("ce6mua7l"[i - 24]) == Some(i);
    }
  }

  lemma ValueOfCharset(i: nat)
    requires i < 32
    ensures ValueOf(Charset[i]) == Some(i)
  {
    TableOfCharset(i);
    TableOfCharset(ValueOf(Charset[i]).value);
  }

  /** Both codecs read characters alike. */
  lemma TablesAgree(c: char)
    ensures TableValue(c) == ValueOf(c)
  {
    if TableValue(c).Some? {
      ValueOfCharset(TableValue(c).value);
    }
    if ValueOf(c).Some? {
      TableOfCharset(ValueOf(c).value);
    }
  }

  /** The decoder's table, filled from the charset, is `ValueOf`. */
  method FillTable() returns (table: map<char, nat>)
    ensures forall c: char :: c in table <==> ValueOf(c).Some?
    ensures forall c: char :: c in table ==> ValueOf(c) == Some(table[c])
  {
    table := map[];
    for i := 0 to |Charset|
      invariant forall c: char :: c in table <==> ValueOf(c).Some? && ValueOf(c).value < i
      invariant forall c: char :: c in table ==> ValueOf(c) == Some(table[c])
    {
      ValueOfCharset(i);
      table := table[Charset[i] := i];
    }
  }

  lemma CharsetIsPlain(c: char)
    requires ValueOf(c).Some?
    ensures c != '1' && Ascii(c) && !('A' <= c <= 'Z')
  {
    TablesAgree(c);
  }

  // ---- Text ----

  predicate Ascii(c: char) {
    (c as int) < 128
  }

  /** Lower-casing beyond ASCII, which keeps a character beyond ASCII. */
  type Lowering = f: char -> char | forall c :: !Ascii(c) ==> !Ascii(f(c)) witness (c: char) => c

  /** The lower case of the characters not listed in `Lower`: no table is given. */
  const OtherLower: Lowering

  /** Two characters beyond ASCII, the Kelvin sign and the dotted capital I, have
    * a lower case in ASCII. `Double` is the lower case of U+0170. */
  function Lower(c: char): (r: char)
    ensures Ascii(r) <==> Ascii(c) || c == '\U{212a}' || c == '\U{130}'
  {
    if 'A' <= c <= 'Z' then c + 32 as char
    else if Ascii(c) then c
    else if c == '\U{212a}' then 'k'
    else if c == '\U{130}' then 'i'
    else if c == '\U{170}' || c == Double then Double
    else OtherLower(c)
  }

  /** The character U+0171 ends in the byte of 'q' and takes two bytes, so it
    * reads as "qq". */
  const Double: char := '\U{171}'

  function ToLower(s: string): (t: string)
    ensures |t| == |s|
    ensures forall i :: 0 <= i < |s| ==> t[i] == Lower(s[i])
  {
    seq(|s|, i requires 0 <= i < |s| => Lower(s[i]))
  }

  predicate IsAscii(s: string) {
    forall i :: 0 <= i < |s| ==> Ascii(s[i])
  }

  /** Bytes of a character's UTF-8 encoding. */
  function Width(c: char): nat {
    if (c as int) < 0x80 then 1 else if (c as int) < 0x800 then 2 else if (c as int) < 0x10000 then 3 else 4
  }

  function ByteLength(s: string): nat {
    if s == "" then 0 else ByteLength(s[..|s| - 1]) + Width(s[|s| - 1])
  }

  /** What a conversion to a byte keeps of a character. */
  function Truncated(c: char): char {
    (c as int % 256) as char
  }

  function ZeroSymbols(n: nat): (d: seq<nat>)
    ensures |d| == n
    ensures forall i :: 0 <= i < n ==> d[i] == 0
  {
    seq(n, i => 0)
  }

  function CharSymbols(c: char): (r: Option<seq<nat>>)
    ensures r.Some? ==> |r.value| == Width(c)
  {
    match ValueOf(Truncated(c))
    case None => None
    case Some(v) => Some([v] + ZeroSymbols(Width(c) - 1))
  }

  /** The symbols the decoder reads off a text, one per byte. */
  function SymbolsOf(s: string): (r: Option<seq<nat>>)
    ensures r.Some? ==> |r.value| == ByteLength(s)
  {
    if s == "" then Some([]) else
      match SymbolsOf(s[..|s| - 1])
      case None => None
      case Some(d) =>
        match CharSymbols(s[|s| - 1])
        case None => None
        case Some(e) => Some(d + e)
  }

  /** The charset characters of some symbols. */
  function Text(d: seq<nat>): (s: string)
    requires InRange(5, d)
    ensures |s| == |d|
    ensures forall i :: 0 <= i < |d| ==> d[i] < |Charset| && s[i] == Charset[d[i]]
  {
    seq(|d|, i requires 0 <= i < |d| => assert d[i] < Pow2(5) == 32; Charset[d[i]])
  }

  function LastOne(s: string): (r: Option<nat>)
    ensures r.Some? ==> r.value < |s| && s[r.value] == '1'
  {
    if s == "" then None
    else if s[|s| - 1] == '1' then Some(|s| - 1)
    else LastOne(s[..|s| - 1])
  }

  /** The symbols of a human-readable part: high bits, a zero, low bits. */
  function Expand(hrp: string): (d: seq<nat>)
    ensures |d| == 2 * |hrp| + 1
  {
    seq(|hrp|, i requires 0 <= i < |hrp| => hrp[i] as int / 32) + [0]
    + seq(|hrp|, i requires 0 <= i < |hrp| => hrp[i] as int % 32)
  }

  // ---- Versions ----

  function VersionChar(version: nat): Option<char> {
    if version < 6 then Some("qpzryt"[version]) else None
  }

  function Hrp(version: nat): string
    requires VersionChar(version).Some?
  {
    "id" + [VersionChar(version).value]
  }

  function CharVersion(s: string): Option<nat> {
    if |s| != 1 then None else
    match s[0]
    case 'q' => Some(0)
    case 'p' => Some(1)
    case 'z' => Some(2)
    case 'r' => Some(3)
    case 'y' => Some(4)
    case 't' => Some(5)
    case _ => None
  }

  predicate ValidLength(version: nat, data: seq<nat>) {
    match version
    case 0 => |data| == 20
    case 1 => |data| == 20
    case 2 => |data| == 20
    case 3 => |data| == 32
    case 5 => |data| == 32
    case 4 =>
      |data| >= 2 && data[0] != 0 && data[1] != 0 && data[0] <= data[1] <= 15 && |data| == 2 + data[1] * 33
    case _ => false
  }

  // ---- The codec ----

  datatype Info = Info(version: nat, data: seq<nat>, address: string)

  datatype Error =
    | BadVersion | BadLength | BadHrp | NoSeparator | BadFormat
    | TooShort | BadCharacter | WrongChecksum | WrongPadding

  datatype Encoded = Address(text: string) | Unencodable(error: Error)

  datatype Decoded = Decoded(info: Info) | Undecodable(error: Error)

  function Encode(version: nat, data: seq<nat>): Encoded
    requires InRange(8, data)
  {
    match VersionChar(version)
    case None => Unencodable(BadVersion)
    case Some(c) =>
      if !ValidLength(version, data) then Unencodable(BadLength) else
        GatherUndoesSpread(data);
        Address(Sealed("id" + [c], Spread(data)))
  }

  /** A human-readable part and some symbols, with their checksum. */
  function Sealed(hrp: string, d: seq<nat>): string
    requires InRange(5, d)
  {
    hrp + "1" + Text(d + ChecksumOf(Expand(hrp), d, One))
  }

  function Decode(addr: string): Decoded {
    var a := ToLower(addr);
    if !("id" <= a) then Undecodable(BadHrp) else
    match LastOne(a)
    case None => Undecodable(NoSeparator)
    case Some(k) =>
      if k < 3 then Undecodable(BadFormat) else
      match CharVersion(a[2..k])
      case None => Undecodable(BadVersion)
      case Some(version) => DecodeData(version, a, a[..k], a[k + 1..])
  }

  function DecodeData(version: nat, a: string, hrp: string, t: string): Decoded {
    if ByteLength(t) < 6 then Undecodable(TooShort) else
    match SymbolsOf(t)
    case None => Undecodable(BadCharacter)
    case Some(d) => DecodeSymbols(version, a, hrp, d)
  }

  function DecodeSymbols(version: nat, a: string, hrp: string, d: seq<nat>): Decoded
    requires |d| >= 6
  {
    if Poly(One, Words(Expand(hrp) + d)) != One then Undecodable(WrongChecksum) else
    match Gather(d[..|d| - 6])
    case Groups(b) =>
      if ValidLength(version, b) then Decoded(Info(version, b, a)) else Undecodable(BadLength)
    case _ => Undecodable(WrongPadding)
  }

  // ---- The loops ----

  method HrpExpand(hrp: string) returns (ret: seq<nat>)
    ensures ret == Expand(hrp)
  {
    var n := |hrp|;
    var cells := new nat[2 * n + 1];
    for i := 0 to n
      invariant forall k :: 0 <= k < i ==> cells[k] == hrp[k] as int / 32 && cells[k + n + 1] == hrp[k] as int % 32
    {
      cells[i] := hrp[i] as int / 32;
      cells[i + n + 1] := hrp[i] as int % 32;
    }
    cells[n] := 0;
    ret := cells[..];
  }

  method EncodeIDAddress(version: nat, data: seq<nat>) returns (r: Encoded)
    requires InRange(8, data)
    ensures r == Encode(version, data)
  {
    var c := VersionChar(version);
    if c == None {
      return Unencodable(BadVersion);
    }
    if !ValidLength(version, data) {
      return Unencodable(BadLength);
    }
    var converted := ConvertBits(data, 8, 5, true);
    SpreadIsTheResult(data, converted);
    GatherUndoesSpread(data);
    var text := Seal("id" + [c.value], converted.d);
    r := Address(text);
  }

  method Seal(hrp: string, d: seq<nat>) returns (s: string)
    requires InRange(5, d)
    ensures s == Sealed(hrp, d)
  {
    var expanded := HrpExpand(hrp);
    var checksum := CreateChecksum(expanded, d, One);
    var encoded := Spell(d + checksum);
    s := hrp + "1" + encoded;
  }

  method Spell(combined: seq<nat>) returns (s: string)
    requires InRange(5, combined)
    ensures s == Text(combined)
  {
    var encoded := new char[|combined|];
    for i := 0 to |combined|
      invariant encoded[..i] == Text(combined)[..i]
    {
      encoded[i] := Charset[combined[i]];
    }
    s := encoded[..];
  }

  method ReadSymbols(t: string) returns (r: Option<seq<nat>>)
    ensures r == SymbolsOf(t)
  {
    var table := FillTable();
    var decoded := new nat[ByteLength(t)](i => 0);
    var at := 0;
    ghost var read: seq<nat> := [];
    for i := 0 to |t|
      invariant at == ByteLength(t[..i]) <= decoded.Length
      invariant SymbolsOf(t[..i]) == Some(read) && decoded[..at] == read
      invariant forall k :: at <= k < decoded.Length ==> decoded[k] == 0
    {
      LongerText(t, i);
      if Truncated(t[i]) !in table {
        SymbolsGrow(t, i);
        NoSymbols(t, i + 1);
        return None;
      }
      ghost var before := decoded[..];
      assert before[..at] == read;
      var v := table[Truncated(t[i])];
      decoded[at] := v;
      SymbolPut(before, at, Width(t[i]), v);
      assert decoded[..] == before[at := v];
      NextSymbols(t, i, read, v);
      read := read + ([v] + ZeroSymbols(Width(t[i]) - 1));
      at := at + Width(t[i]);
      assert decoded[..][..at] == decoded[..at];
    }
    assert t[..|t|] == t;
    assert decoded[..at] == decoded[..];
    r := Some(decoded[..]);
  }

  lemma SymbolPut(d: seq<nat>, at: nat, width: nat, v: nat)
    requires 0 < width && at + width <= |d| && forall k :: at <= k < |d| ==> d[k] == 0
    ensures d[at := v][..at + width] == d[..at] + ([v] + ZeroSymbols(width - 1))
  {
  }

  lemma NextSymbols(t: string, i: nat, read: seq<nat>, v: nat)
    requires i < |t| && SymbolsOf(t[..i]) == Some(read) && ValueOf(Truncated(t[i])) == Some(v)
    ensures SymbolsOf(t[..i + 1]) == Some(read + ([v] + ZeroSymbols(Width(t[i]) - 1)))
  {
    SymbolsGrow(t, i);
  }

  lemma LongerText(t: string, i: nat)
    requires i < |t|
    ensures t[..i + 1] == t[..i] + [t[i]]
    ensures ByteLength(t[..i + 1]) == ByteLength(t[..i]) + Width(t[i]) <= ByteLength(t)
  {
    OneMore(t, i);
    PrefixIsShorter(t, i + 1);
    LongerBy(t[..i], t[i], t[..i + 1]);
  }

  lemma OneMore(t: string, i: nat)
    requires i < |t|
    ensures t[..i + 1] == t[..i] + [t[i]]
  {
  }

  lemma LongerBy(s: string, c: char, longer: string)
    requires longer == s + [c]
    ensures ByteLength(longer) == ByteLength(s) + Width(c)
  {
    BytesSnoc(s, c);
  }

  lemma BytesSnoc(s: string, c: char)
    ensures ByteLength(s + [c]) == ByteLength(s) + Width(c)
  {
    assert (s + [c])[..|s|] == s;
  }

  lemma SymbolsGrow(t: string, i: nat)
    requires i < |t| && SymbolsOf(t[..i]).Some?
    ensures SymbolsOf(t[..i + 1]) == (match CharSymbols(t[i])
      case None => None
      case Some(e) => Some(SymbolsOf(t[..i]).value + e))
  {
    assert t[..i + 1][..i] == t[..i];
  }

  lemma {:induction false} PrefixIsShorter(t: string, i: nat)
    requires i <= |t|
    ensures ByteLength(t[..i]) <= ByteLength(t)
  {
    if i < |t| {
      assert t[..|t| - 1][..i] == t[..i];
      PrefixIsShorter(t[..|t| - 1], i);
    } else {
      assert t[..i] == t;
    }
  }

  lemma {:induction false} NoSymbols(t: string, i: nat)
    requires i <= |t| && SymbolsOf(t[..i]) == None
    ensures SymbolsOf(t) == None
  {
    if i < |t| {
      assert t[..|t| - 1][..i] == t[..i];
      NoSymbols(t[..|t| - 1], i);
    } else {
      assert t[..i] == t;
    }
  }

  method LastIndex(a: string) returns (r: Option<nat>)
    ensures r == LastOne(a)
  {
    var k := |a|;
    assert a[..k] == a;
    while k > 0
      invariant 0 <= k <= |a|
      invariant LastOne(a) == LastOne(a[..k])
    {
      if a[k - 1] == '1' {
        return Some(k - 1);
      }
      assert a[..k][..k - 1] == a[..k - 1];
      k := k - 1;
    }
    r := None;
  }

  method DecodeIDAddress(addr: string) returns (r: Decoded)
    ensures r == Decode(addr)
  {
    var a := ToLower(addr);
    if !("id" <= a) {
      return Undecodable(BadHrp);
    }
    var sep := LastIndex(a);
    if sep == None {
      return Undecodable(NoSeparator);
    }
    var k := sep.value;
    if k < 3 {
      return Undecodable(BadFormat);
    }
    var version := CharVersion(a[2..k]);
    if version == None {
      return Undecodable(BadVersion);
    }
    r := ReadData(version.value, a, a[..k], a[k + 1..]);
  }

  method ReadData(version: nat, a: string, hrp: string, t: string) returns (r: Decoded)
    ensures r == DecodeData(version, a, hrp, t)
  {
    if ByteLength(t) < 6 {
      return Undecodable(TooShort);
    }
    var symbols := ReadSymbols(t);
    if symbols == None {
      return Undecodable(BadCharacter);
    }
    var d := symbols.value;
    var expanded := HrpExpand(hrp);
    var ok := VerifyChecksum(expanded, d, One);
    if !ok {
      return Undecodable(WrongChecksum);
    }
    var converted := ConvertBits(d[..|d| - 6], 5, 8, false);
    GatherIsTheResult(d[..|d| - 6], converted);
    if !converted.Groups? {
      return Undecodable(WrongPadding);
    }
    if !ValidLength(version, converted.d) {
      return Undecodable(BadLength);
    }
    r := Decoded(Info(version, converted.d, a));
  }

  // ---- Reading what was written ----

  lemma {:induction false} LastOneAt(h: string, t: string)
    requires forall i :: 0 <= i < |t| ==> t[i] != '1'
    ensures LastOne(h + "1" + t) == Some(|h|)
  {
    var s := h + "1" + t;
    if t == "" {
      assert s == h + "1";
    } else {
      var n := |t| - 1;
      assert s[..|s| - 1] == h + "1" + t[..n];
      LastOneAt(h, t[..n]);
    }
  }

  lemma TextIsPlain(d: seq<nat>)
    requires InRange(5, d)
    ensures IsAscii(Text(d)) && ToLower(Text(d)) == Text(d)
    ensures forall i :: 0 <= i < |d| ==> Text(d)[i] != '1'
  {
    forall i | 0 <= i < |d| ensures Plain(Text(d)[i]) {
      assert d[i] < Pow2(5) == 32;
      ValueOfCharset(d[i]);
      CharsetIsPlain(Text(d)[i]);
    }
    assert forall i :: 0 <= i < |d| ==> Plain(Text(d)[i]);
  }

  predicate Plain(c: char) {
    c != '1' && Ascii(c) && Lower(c) == c
  }

  lemma CharSymbolsOfCharset(i: nat)
    requires i < 32
    ensures CharSymbols(Charset[i]) == Some([i]) && Width(Charset[i]) == 1
  {
    ValueOfCharset(i);
    CharsetIsPlain(Charset[i]);
    assert [i] + ZeroSymbols(0) == [i];
  }

  lemma CharsetOfCharSymbols(c: char)
    requires Ascii(c) && CharSymbols(c).Some?
    ensures var e := CharSymbols(c).value; |e| == 1 && e[0] < 32 && Charset[e[0]] == c
  {
  }

  lemma TextGrows(d: seq<nat>, x: nat)
    requires InRange(5, d) && x < 32
    ensures InRange(5, d + [x])
    ensures Text(d + [x]) == Text(d) + [Charset[x]]
  {
    assert Pow2(5) == 32;
  }

  lemma {:induction false} SymbolsOfText(d: seq<nat>)
    requires InRange(5, d)
    ensures SymbolsOf(Text(d)) == Some(d) && ByteLength(Text(d)) == |d|
  {
    if d != [] {
      var front, x := d[..|d| - 1], d[|d| - 1];
      assert d == front + [x] && x < Pow2(5) == 32;
      TextGrows(front, x);
      SymbolsOfText(front);
      CharSymbolsOfCharset(x);
      assert (Text(front) + [Charset[x]])[..|front|] == Text(front);
    }
  }

  lemma {:induction false} SymbolsInRange(t: string)
    ensures SymbolsOf(t).Some? ==> InRange(5, SymbolsOf(t).value)
  {
    if t != "" {
      SymbolsInRange(t[..|t| - 1]);
      assert Pow2(5) == 32;
    }
  }

  lemma {:induction false} TextOfSymbols(t: string)
    requires IsAscii(t) && SymbolsOf(t).Some?
    ensures InRange(5, SymbolsOf(t).value) && Text(SymbolsOf(t).value) == t
  {
    SymbolsInRange(t);
    if t != "" {
      var front, c := t[..|t| - 1], t[|t| - 1];
      TextOfSymbols(front);
      CharsetOfCharSymbols(c);
      var x := CharSymbols(c).value[0];
      assert CharSymbols(c).value == [x];
      TextGrows(SymbolsOf(front).value, x);
    }
  }

  lemma VersionLetters(version: nat)
    requires VersionChar(version).Some?
    ensures var c := VersionChar(version).value; CharVersion([c]) == Some(version) && Plain(c)
  {
  }

  lemma LettersOfVersions(s: string)
    requires CharVersion(s).Some?
    ensures VersionChar(CharVersion(s).value).Some? && s == [VersionChar(CharVersion(s).value).value]
  {
  }

  lemma PartsOfText(c: char, t: string)
    ensures var a := "id" + [c] + "1" + t; "id" <= a && a[..3] == "id" + [c] && a[2..3] == [c] && a[4..] == t
  {
  }

  /** Decoding an address whose parts are plain. */
  lemma DecodeOf(version: nat, t: string)
    requires VersionChar(version).Some?
    requires ToLower(t) == t && forall i :: 0 <= i < |t| ==> t[i] != '1'
    ensures var a := Hrp(version) + "1" + t; ToLower(a) == a && Decode(a) == DecodeData(version, a, Hrp(version), t)
  {
    var hrp := Hrp(version);
    var a := hrp + "1" + t;
    VersionLetters(version);
    assert ToLower(a) == a;
    LastOneAt(hrp, t);
    PartsOfText(VersionChar(version).value, t);
  }

  lemma DecodeOfText(version: nat, d: seq<nat>)
    requires VersionChar(version).Some? && InRange(5, d) && |d| >= 6
    ensures var hrp := Hrp(version); var a := hrp + "1" + Text(d);
      Decode(a) == DecodeSymbols(version, a, hrp, d)
  {
    TextIsPlain(d);
    SymbolsOfText(d);
    DecodeOf(version, Text(d));
  }

  /** Sealed symbols pass the checksum, and are the only ones that do. */
  lemma SealedPasses(hrp: string, d: seq<nat>, check: seq<nat>)
    requires |check| == 6 && InRange(5, check)
    ensures Poly(One, Words(Expand(hrp) + (d + check))) == One <==> check == ChecksumOf(Expand(hrp), d, One)
    ensures (d + check)[..|d + check| - 6] == d
  {
    ChecksumIsUnique(Expand(hrp), d, check, One);
  }

  /** Every address that can be made decodes to exactly what it was made of. */
  lemma DecodeUndoesEncode(version: nat, data: seq<nat>)
    requires InRange(8, data)
    ensures Encode(version, data).Address? <==> VersionChar(version).Some? && ValidLength(version, data)
    ensures var e := Encode(version, data);
      e.Address? ==> Decode(e.text) == Decoded(Info(version, data, e.text))
  {
    var e := Encode(version, data);
    if e.Address? {
      GatherUndoesSpread(data);
      var hrp, d := Hrp(version), Spread(data);
      var check := ChecksumOf(Expand(hrp), d, One);
      DecodeOfText(version, d + check);
      SealedPasses(hrp, d, check);
    }
  }

  // ---- Writing what was read ----

  lemma {:induction false} LastOneSplits(s: string)
    requires LastOne(s).Some?
    ensures var k := LastOne(s).value; s == s[..k] + "1" + s[k + 1..]
  {
  }

  lemma HeadOf(addr: string) returns (k: nat, version: nat)
    requires Decode(addr).Decoded?
    ensures 3 <= k < |addr| && LastOne(ToLower(addr)) == Some(k)
    ensures "id" <= ToLower(addr) && CharVersion(ToLower(addr)[2..k]) == Some(version)
    ensures Decode(addr) == DecodeData(version, ToLower(addr), ToLower(addr)[..k], ToLower(addr)[k + 1..])
  {
    k := LastOne(ToLower(addr)).value;
    version := CharVersion(ToLower(addr)[2..k]).value;
  }

  lemma HeadParts(a: string, k: nat, c: char)
    requires "id" <= a && 3 <= k < |a| && a[2..k] == [c]
    ensures a[..k] == "id" + [c]
  {
    assert a[..k] == a[..2] + a[2..k];
  }

  lemma TailOf(version: nat, a: string, hrp: string, t: string)
    requires DecodeData(version, a, hrp, t).Decoded?
    ensures ByteLength(t) >= 6 && SymbolsOf(t).Some?
    ensures DecodeData(version, a, hrp, t) == DecodeSymbols(version, a, hrp, SymbolsOf(t).value)
  {
  }

  /** The parts of an address that decodes. */
  lemma PartsOf(addr: string) returns (version: nat, t: string)
    requires Decode(addr).Decoded?
    ensures VersionChar(version).Some? && ToLower(addr) == Hrp(version) + "1" + t
    ensures ByteLength(t) >= 6 && SymbolsOf(t).Some?
    ensures Decode(addr) == DecodeSymbols(version, ToLower(addr), Hrp(version), SymbolsOf(t).value)
  {
    var k, v := HeadOf(addr);
    var a := ToLower(addr);
    version, t := v, a[k + 1..];
    LettersOfVersions(a[2..k]);
    LastOneSplits(a);
    HeadParts(a, k, VersionChar(v).value);
    TailOf(version, a, a[..k], t);
  }

  lemma EncodeOfSymbols(version: nat, a: string, d: seq<nat>)
    requires VersionChar(version).Some? && |d| >= 6 && InRange(5, d)
    requires DecodeSymbols(version, a, Hrp(version), d).Decoded?
    ensures var info := DecodeSymbols(version, a, Hrp(version), d).info;
      info.version == version && info.address == a && InRange(8, info.data)
      && Encode(version, info.data) == Address(Hrp(version) + "1" + Text(d))
  {
    var hrp := Hrp(version);
    var n := |d| - 6;
    SpreadUndoesGather(d[..n]);
    assert d == d[..n] + d[n..];
    SealedPasses(hrp, d[..n], d[n..]);
  }

  lemma SpelledAlike(t: string, d: seq<nat>)
    requires SymbolsOf(t) == Some(d) && InRange(5, d)
    ensures Text(d) == t <==> IsAscii(t)
  {
    TextIsPlain(d);
    if IsAscii(t) {
      TextOfSymbols(t);
    }
  }

  /** What decodes encodes back to the lower-cased address exactly when that is
    * ASCII. */
  lemma EncodeUndoesDecode(addr: string)
    requires Decode(addr).Decoded?
    ensures var info := Decode(addr).info;
      InRange(8, info.data) && info.address == ToLower(addr)
      && Encode(info.version, info.data).Address?
      && (Encode(info.version, info.data).text == ToLower(addr) <==> IsAscii(ToLower(addr)))
  {
    var version, t := PartsOf(addr);
    SymbolsInRange(t);
    var d := SymbolsOf(t).value;
    EncodeOfSymbols(version, ToLower(addr), d);
    AsciiAddress(addr, version, t, d);
  }

  lemma AsciiAddress(addr: string, version: nat, t: string, d: seq<nat>)
    requires VersionChar(version).Some? && ToLower(addr) == Hrp(version) + "1" + t
    requires SymbolsOf(t) == Some(d) && InRange(5, d)
    ensures Hrp(version) + "1" + Text(d) == ToLower(addr) <==> IsAscii(ToLower(addr))
  {
    SpelledAlike(t, d);
    SameTail(Hrp(version) + "1", Text(d), t);
    VersionLetters(version);
    AsciiOfParts(Hrp(version), t);
  }

  lemma SameTail(h: string, x: string, y: string)
    ensures h + x == h + y <==> x == y
  {
    assert (h + x)[|h|..] == x && (h + y)[|h|..] == y;
  }

  /** The lower-cased text is ASCII exactly when every character is ASCII or one
    * of the two with a lower case in ASCII. */
  lemma AsciiOfLower(s: string)
    ensures IsAscii(ToLower(s)) <==> forall i :: 0 <= i < |s| ==> Ascii(s[i]) || s[i] in {'\U{212a}', '\U{130}'}
  {
    assert forall i :: 0 <= i < |s| ==> ToLower(s)[i] == Lower(s[i]);
  }

  /** An ASCII address with a 'k' in it still decodes to the same, and encodes to
    * its lower case, when the 'k' is the Kelvin sign. */
  lemma KelvinAddress(addr: string, i: nat)
    requires Decode(addr).Decoded? && IsAscii(addr) && i < |addr| && addr[i] == 'k'
    ensures !IsAscii(addr[i := '\U{212a}'])
    ensures Decode(addr[i := '\U{212a}']) == Decode(addr)
    ensures var info := Decode(addr).info;
      InRange(8, info.data) && Encode(info.version, info.data) == Address(ToLower(addr[i := '\U{212a}']))
  {
    var kelvin := addr[i := '\U{212a}'];
    assert kelvin[i] == '\U{212a}';
    assert ToLower(kelvin) == ToLower(addr);
    AsciiOfLower(addr);
    EncodeUndoesDecode(addr);
  }

  lemma AsciiOfParts(hrp: string, t: string)
    requires IsAscii(hrp)
    ensures IsAscii(hrp + "1" + t) <==> IsAscii(t)
  {
    var a := hrp + "1" + t;
    assert forall i :: 0 <= i < |t| ==> a[|hrp| + 1 + i] == t[i];
  }

  lemma SymbolsSnoc(s: string, c: char, d: seq<nat>, e: seq<nat>)
    requires SymbolsOf(s) == Some(d) && CharSymbols(c) == Some(e)
    ensures SymbolsOf(s + [c]) == Some(d + e)
  {
    assert (s + [c])[..|s|] == s;
  }

  lemma DoubleReadsAsTwo()
    ensures CharSymbols(Double) == Some([0, 0])
  {
    assert Truncated(Double) == Charset[0];
    ValueOfCharset(0);
    assert [0] + ZeroSymbols(1) == [0, 0];
  }

  lemma {:induction false} SymbolsAfterDouble(d: seq<nat>)
    requires InRange(5, d)
    ensures SymbolsOf([Double] + Text(d)) == Some([0, 0] + d)
  {
    DoubleReadsAsTwo();
    if d == [] {
      SymbolsSnoc("", Double, [], [0, 0]);
      assert "" + [Double] == [Double] + Text(d);
      assert [] + [0, 0] == [0, 0] + d;
    } else {
      var front, x := d[..|d| - 1], d[|d| - 1];
      assert d == front + [x] && x < Pow2(5) == 32;
      SymbolsAfterDouble(front);
      OneMoreAfterDouble(front, x);
    }
  }

  lemma OneMoreAfterDouble(front: seq<nat>, x: nat)
    requires InRange(5, front) && x < 32 && SymbolsOf([Double] + Text(front)) == Some([0, 0] + front)
    ensures InRange(5, front + [x]) && SymbolsOf([Double] + Text(front + [x])) == Some([0, 0] + (front + [x]))
  {
    TextGrows(front, x);
    CharSymbolsOfCharset(x);
    SymbolsSnoc([Double] + Text(front), Charset[x], [0, 0] + front, [x]);
    assert [Double] + Text(front) + [Charset[x]] == [Double] + (Text(front) + [Charset[x]]);
    assert [0, 0] + front + [x] == [0, 0] + (front + [x]);
  }

  lemma DecodeDouble(version: nat, rest: seq<nat>)
    requires VersionChar(version).Some? && InRange(5, rest) && |rest| >= 4
    ensures var a := Hrp(version) + "1" + ([Double] + Text(rest));
      Decode(a) == DecodeSymbols(version, a, Hrp(version), [0, 0] + rest) && ToLower(a) == a && !IsAscii(a)
  {
    assert (Hrp(version) + "1" + ([Double] + Text(rest)))[4] == Double;
    var t := [Double] + Text(rest);
    TextIsPlain(rest);
    SymbolsAfterDouble(rest);
    assert ToLower(t) == t;
    DecodeOf(version, t);
  }

  function Sealing(version: nat, data: seq<nat>): (d: seq<nat>)
    requires InRange(8, data) && VersionChar(version).Some?
    ensures |d| == |Spread(data)| + 6 && InRange(5, d)
  {
    GatherUndoesSpread(data);
    Spread(data) + ChecksumOf(Expand(Hrp(version)), Spread(data), One)
  }

  lemma DoubledDecodes(version: nat, data: seq<nat>, rest: seq<nat>)
    requires InRange(8, data) && Encode(version, data).Address?
    requires Sealing(version, data) == [0, 0] + rest && InRange(5, rest)
    ensures var a := Hrp(version) + "1" + ([Double] + Text(rest));
      Decode(a) == Decoded(Info(version, data, a)) && ToLower(a) == a && !IsAscii(a)
  {
    assert |rest| >= 4;
    DecodeDouble(version, rest);
    DecodeSealed(version, Hrp(version) + "1" + ([Double] + Text(rest)), data);
  }

  /** Whatever encodes to an address whose data begin "qq" also has an address
    * that is not ASCII, which therefore does not encode back. */
  lemma DoubledAddress(version: nat, data: seq<nat>) returns (addr: string)
    requires InRange(8, data) && Encode(version, data).Address?
    requires |Spread(data)| >= 2 && Spread(data)[..2] == [0, 0]
    ensures Decode(addr) == Decoded(Info(version, data, addr))
    ensures Encode(version, data).text != addr
  {
    var rest := Sealing(version, data)[2..];
    BeginsAlike(Spread(data), ChecksumOf(Expand(Hrp(version)), Spread(data), One), [0, 0]);
    addr := DoubledFrom(version, data, rest);
    NotAsciiIsAnother(version, data, addr);
  }

  lemma BeginsAlike(s: seq<nat>, t: seq<nat>, front: seq<nat>)
    requires front <= s
    ensures s + t == front + (s + t)[|front|..]
  {
  }

  lemma DoubledFrom(version: nat, data: seq<nat>, rest: seq<nat>) returns (addr: string)
    requires InRange(8, data) && Encode(version, data).Address?
    requires Sealing(version, data) == [0, 0] + rest && InRange(5, rest)
    ensures Decode(addr) == Decoded(Info(version, data, addr)) && ToLower(addr) == addr && !IsAscii(addr)
  {
    DoubledDecodes(version, data, rest);
    addr := Hrp(version) + "1" + ([Double] + Text(rest));
  }

  lemma NotAsciiIsAnother(version: nat, data: seq<nat>, addr: string)
    requires InRange(8, data) && Encode(version, data).Address?
    requires Decode(addr) == Decoded(Info(version, data, addr)) && ToLower(addr) == addr && !IsAscii(addr)
    ensures Encode(version, data).text != addr
  {
    EncodeUndoesDecode(addr);
  }

  lemma DecodeSealed(version: nat, a: string, data: seq<nat>)
    requires InRange(8, data) && Encode(version, data).Address?
    ensures DecodeSymbols(version, a, Hrp(version), Sealing(version, data)) == Decoded(Info(version, data, a))
  {
    GatherUndoesSpread(data);
    SealedPasses(Hrp(version), Spread(data), ChecksumOf(Expand(Hrp(version)), Spread(data), One));
  }

  /** Twenty zero bytes are such data. */
  lemma NonAsciiAddressDecodes(data: seq<nat>) returns (addr: string)
    requires data == ZeroSymbols(20) && InRange(8, data)
    ensures Decode(addr) == Decoded(Info(0, data, addr))
    ensures Encode(0, data).Address? && Encode(0, data).text != addr
  {
    FirstSymbolsAreZero(data);
    DecodeUndoesEncode(0, data);
    addr := DoubledAddress(0, data);
  }

  lemma FirstSymbolsAreZero(data: seq<nat>)
    requires data == ZeroSymbols(20) && InRange(8, data)
    ensures Spread(data)[..2] == [0, 0] && |Spread(data)| == 32
  {
    var zeros := ZeroSymbols(32);
    FlatOfZeros(8, 20);
    FlatOfZeros(5, 32);
    SpreadPads(data);
    assert Flat(5, zeros) == Flat(8, data) + Zeros(0);
    PaddedIsUnique(Flat(8, data), 5, Spread(data), zeros);
  }

  lemma {:induction false} FlatOfZeros(k: nat, n: nat)
    ensures Flat(k, ZeroSymbols(n)) == Zeros(k * n)
  {
    if n > 0 {
      assert ZeroSymbols(n)[..n - 1] == ZeroSymbols(n - 1);
      FlatOfZeros(k, n - 1);
      BitsOfZero(k);
      assert k * n == k * (n - 1) + k;
    }
  }

  // ---- Six consecutive characters ----

  /** Two texts of one length that differ, but only inside positions
    * `p .. p + 6`. */
  predicate DifferWithin(t: string, u: string, p: nat) {
    |t| == |u| && t != u && forall i :: 0 <= i < |t| && !(p <= i < p + 6) ==> t[i] == u[i]
  }

  predicate InCharset(t: string) {
    forall i :: 0 <= i < |t| ==> ValueOf(t[i]).Some?
  }

  lemma CharsetText(t: string) returns (d: seq<nat>)
    requires InCharset(t)
    ensures InRange(5, d) && Text(d) == t
    ensures |d| == |t| && forall i :: 0 <= i < |t| ==> ValueOf(t[i]) == Some(d[i])
  {
    d := seq(|t|, i requires 0 <= i < |t| => ValueOf(t[i]).value);
    assert Pow2(5) == 32;
  }

  /** Replacing characters inside six consecutive ones of the data and checksum
    * is always caught, by the checksum, in an address of any length. */
  lemma BurstsAreCaught(version: nat, t: string, u: string, p: nat)
    requires VersionChar(version).Some? && InCharset(t) && InCharset(u) && DifferWithin(t, u, p)
    requires Decode(Hrp(version) + "1" + t).Decoded?
    ensures Decode(Hrp(version) + "1" + u) == Undecodable(WrongChecksum)
  {
    var d := CharsetText(t);
    var e := CharsetText(u);
    var hrp := Hrp(version);
    TextIsPlain(d);
    TextIsPlain(e);
    SymbolsOfText(d);
    SymbolsOfText(e);
    DecodeOf(version, t);
    DecodeOf(version, u);
    assert AgreeOutside(d, e, p);
    BurstIsCaughtInside(Expand(hrp), d, e, p);
  }

  lemma PolyOfFront(front: seq<nat>, d: seq<nat>)
    ensures Poly(One, Words(front + d)) == Poly(Poly(One, Words(front)), Words(d))
  {
    assert Words(front + d) == Words(front) + Words(d);
    PolyConcat(One, Words(front), Words(d));
  }

  lemma BurstIsCaughtInside(front: seq<nat>, d: seq<nat>, e: seq<nat>, p: nat)
    requires InRange(5, d) && InRange(5, e) && AgreeOutside(d, e, p) && d != e
    ensures Poly(One, Words(front + d)) != Poly(One, Words(front + e))
  {
    PolyOfFront(front, d);
    PolyOfFront(front, e);
    BurstsChangeTheRemainder(Poly(One, Words(front)), d, e, p);
  }
}
