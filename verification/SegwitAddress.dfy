/** The segwit codec (Bech32 for witness version 0, Bech32m above) and the way
  * from a segwit address to an ID address and back.
  */
module SegwitAddress {
  import opened BitStrings
  import opened ChainEvents
  import opened BitRegroup
  import opened Checksum
  import Id = IdAddress

  datatype Encoding = Bech32 | Bech32m

  const MTarget: Word := Words([0x2bc830a3])[0]

  /** The remainder each encoding seals with. */
  function Target(e: Encoding): Word {
    match e
    case Bech32 => One
    case Bech32m => MTarget
  }

  function EncodingFor(version: nat): Encoding {
    if version == 0 then Bech32 else Bech32m
  }

  datatype Fault =
    | BadFormat | BadCharacter | WrongChecksum | TooShort | WrongPadding | BadLength | WrongEncoding

  datatype Program = Program(hrp: string, version: nat, program: seq<nat>, encoding: Encoding)

  datatype Parsed = Parsed(p: Program) | Unreadable(fault: Fault)

  /** `Crash` is an index out of the charset. */
  datatype Written = Written(text: string) | Unwritable(fault: Fault) | Crash

  // ---- Writing ----

  function Payload(version: nat, program: seq<nat>): seq<nat> {
    [version] + Spread(program)
  }

  lemma PayloadInRange(version: nat, program: seq<nat>)
    requires version < 32 && InRange(8, program)
    ensures InRange(5, Payload(version, program))
  {
    GatherUndoesSpread(program);
    assert Pow2(5) == 32;
  }

  function Write(hrp: string, version: nat, program: seq<nat>): Written
    requires InRange(8, program)
  {
    if !(2 <= |program| <= 40) then Unwritable(BadLength)
    else if version >= 32 then Crash
    else
      PayloadInRange(version, program);
      Written(Sealed(hrp, Payload(version, program), EncodingFor(version)))
  }

  function Sealed(hrp: string, d: seq<nat>, e: Encoding): string
    requires InRange(5, d)
  {
    hrp + "1" + Id.Text(d + ChecksumOf(Expand(hrp), d, Target(e)))
  }

  function Expand(hrp: string): seq<nat> {
    Id.Expand(hrp)
  }

  // ---- Reading ----

  /** The symbols of a text, looked up whole character by whole character. */
  function RuneSymbols(t: string): (r: Option<seq<nat>>)
    ensures r.Some? ==> |r.value| == |t| && InRange(5, r.value)
  {
    if t == "" then Some([]) else
      match RuneSymbols(t[..|t| - 1])
      case None => None
      case Some(d) =>
        match Id.TableValue(t[|t| - 1])
        case None => None
        case Some(v) =>
          assert Pow2(5) == 32;
          Some(d + [v])
  }

  function Read(addr: string): Parsed {
    var a := Id.ToLower(addr);
    match Id.LastOne(a)
    case None => Unreadable(BadFormat)
    case Some(k) =>
      var hrp := a[..k];
      if k < 1 || Id.ByteLength(hrp) + 7 > Id.ByteLength(a) || Id.ByteLength(a) > 90 then Unreadable(BadFormat)
      else ReadText(hrp, a[k + 1..])
  }

  function ReadText(hrp: string, t: string): Parsed {
    match RuneSymbols(t)
    case None => Unreadable(BadCharacter)
    case Some(d) =>
      match EncodingOf(hrp, d)
      case None => Unreadable(WrongChecksum)
      case Some(e) => if |d| < 7 then Unreadable(TooShort) else ReadSymbols(hrp, d, e)
  }

  /** Bech32m is tried first. */
  function EncodingOf(hrp: string, d: seq<nat>): Option<Encoding> {
    var chk := Poly(One, Words(Expand(hrp) + d));
    if chk == Target(Bech32m) then Some(Bech32m)
    else if chk == Target(Bech32) then Some(Bech32)
    else None
  }

  function ReadSymbols(hrp: string, d: seq<nat>, e: Encoding): Parsed
    requires |d| >= 7
  {
    var version := d[0];
    match Gather(d[1..|d| - 6])
    case Groups(program) =>
      if !(2 <= |program| <= 40) then Unreadable(BadLength)
      else if e != EncodingFor(version) then Unreadable(WrongEncoding)
      else Parsed(Program(hrp, version, program, e))
    case _ => Unreadable(WrongPadding)
  }

  // ---- The loops ----

  method Bech32Encode(hrp: string, version: nat, program: seq<nat>) returns (r: Written)
    requires InRange(8, program)
    ensures r == Write(hrp, version, program)
  {
    var encoding := Bech32;
    if version != 0 {
      encoding := Bech32m;
    }
    if |program| < 2 || |program| > 40 {
      return Unwritable(BadLength);
    }
    var converted := ConvertBits8to5(program, 8, 5, true);
    SpreadIsTheResult(program, converted);
    if version >= 32 {
      return Crash;
    }
    PayloadInRange(version, program);
    var data := [version] + converted.d;
    var text := Seal(hrp, data, encoding);
    r := Written(text);
  }

  method Seal(hrp: string, d: seq<nat>, e: Encoding) returns (s: string)
    requires InRange(5, d)
    ensures s == Sealed(hrp, d, e)
  {
    var expanded := Id.HrpExpand(hrp);
    var checksum := CreateChecksum(expanded, d, Target(e));
    var encoded := Id.Spell(d + checksum);
    s := hrp + "1" + encoded;
  }

  method RunesToSymbols(t: string) returns (r: Option<seq<nat>>)
    ensures r == RuneSymbols(t)
  {
    var decoded := [];
    for i := 0 to |t|
      invariant RuneSymbols(t[..i]) == Some(decoded)
    {
      assert t[..i + 1][..i] == t[..i];
      var v := Id.TableValue(t[i]);
      if v == None {
        NoRunes(t, i + 1);
        return None;
      }
      decoded := decoded + [v.value];
    }
    assert t[..|t|] == t;
    r := Some(decoded);
  }

  lemma {:induction false} NoRunes(t: string, i: nat)
    requires i <= |t| && RuneSymbols(t[..i]) == None
    ensures RuneSymbols(t) == None
  {
    if i < |t| {
      assert t[..|t| - 1][..i] == t[..i];
      NoRunes(t[..|t| - 1], i);
    } else {
      assert t[..i] == t;
    }
  }

  method Bech32Decode(addr: string) returns (r: Parsed)
    ensures r == Read(addr)
  {
    var a := Id.ToLower(addr);
    var pos := Id.LastIndex(a);
    if pos == None {
      return Unreadable(BadFormat);
    }
    var k := pos.value;
    var hrp := a[..k];
    if k < 1 || Id.ByteLength(hrp) + 7 > Id.ByteLength(a) || Id.ByteLength(a) > 90 {
      return Unreadable(BadFormat);
    }
    r := DecodeText(hrp, a[k + 1..]);
  }

  method DecodeText(hrp: string, t: string) returns (r: Parsed)
    ensures r == ReadText(hrp, t)
  {
    var symbols := RunesToSymbols(t);
    if symbols == None {
      return Unreadable(BadCharacter);
    }
    var decoded := symbols.value;
    var expanded := Id.HrpExpand(hrp);
    var encoding := Bech32m;
    var ok := VerifyChecksum(expanded, decoded, Target(Bech32m));
    if !ok {
      encoding := Bech32;
      ok := VerifyChecksum(expanded, decoded, Target(Bech32));
      if !ok {
        return Unreadable(WrongChecksum);
      }
    }
    if |decoded| < 7 {
      return Unreadable(TooShort);
    }
    r := DecodeProgram(hrp, decoded, encoding);
  }

  method DecodeProgram(hrp: string, decoded: seq<nat>, encoding: Encoding) returns (r: Parsed)
    requires |decoded| >= 7 && InRange(5, decoded)
    ensures r == ReadSymbols(hrp, decoded, encoding)
  {
    var version := decoded[0];
    var groups := decoded[1..|decoded| - 6];
    var converted := ConvertBits8to5(groups, 5, 8, false);
    GatherIsTheResult(groups, converted);
    if !converted.Groups? {
      return Unreadable(WrongPadding);
    }
    var program := converted.d;
    if |program| < 2 || |program| > 40 {
      return Unreadable(BadLength);
    }
    if version == 0 && encoding != Bech32 {
      return Unreadable(WrongEncoding);
    }
    if version != 0 && encoding != Bech32m {
      return Unreadable(WrongEncoding);
    }
    r := Parsed(Program(hrp, version, program, encoding));
  }

  // ---- Round trips ----

  lemma EndsInThree(h: nat)
    ensures BitsOf(30, Append(Append(h, true), true))[28]
  {
    LastBit(29, Append(h, true), true);
    LastBit(28, h, true);
  }

  lemma TargetsDiffer()
    ensures Target(Bech32) != Target(Bech32m)
  {
    EndsInThree(0xaf20c28);
    assert MTarget[28] && !One[28];
  }

  lemma RemainderDecides(hrp: string, d: seq<nat>, e: Encoding)
    ensures EncodingOf(hrp, d) == Some(e) <==> Poly(One, Words(Expand(hrp) + d)) == Target(e)
  {
    TargetsDiffer();
  }

  /** Six symbols make the encoding read off a sealed text the one it was
    * sealed with, and no other six do. */
  lemma SealDecides(hrp: string, d: seq<nat>, check: seq<nat>, e: Encoding)
    requires |check| == 6 && InRange(5, check)
    ensures EncodingOf(hrp, d + check) == Some(e) <==> check == ChecksumOf(Expand(hrp), d, Target(e))
  {
    RemainderDecides(hrp, d + check, e);
    ChecksumIsUnique(Expand(hrp), d, check, Target(e));
  }

  lemma {:induction false} RunesOfText(d: seq<nat>)
    requires InRange(5, d)
    ensures RuneSymbols(Id.Text(d)) == Some(d)
  {
    if d != [] {
      var front, x := d[..|d| - 1], d[|d| - 1];
      assert d == front + [x] && x < Pow2(5) == 32;
      Id.TextGrows(front, x);
      RunesOfText(front);
      Id.TableOfCharset(x);
      assert Id.Text(d)[..|front|] == Id.Text(front);
    }
  }

  lemma {:induction false} TextOfRunes(t: string)
    requires RuneSymbols(t).Some?
    ensures Id.Text(RuneSymbols(t).value) == t
  {
    if t != "" {
      var front, c := t[..|t| - 1], t[|t| - 1];
      TextOfRunes(front);
      Id.TextGrows(RuneSymbols(front).value, Id.TableValue(c).value);
    }
  }

  lemma {:induction false} LengthOfConcat(s: string, t: string)
    ensures Id.ByteLength(s + t) == Id.ByteLength(s) + Id.ByteLength(t)
  {
    if t == "" {
      assert s + t == s;
    } else {
      var n := |t| - 1;
      assert (s + t)[..|s| + n] == s + t[..n];
      LengthOfConcat(s, t[..n]);
    }
  }

  /** A human-readable part that lower-casing leaves alone and a short enough text. */
  predicate Readable(hrp: string, text: string) {
    hrp != "" && Id.ToLower(hrp) == hrp && Id.ByteLength(text) <= 90
  }

  lemma LengthOfText(hrp: string, d: seq<nat>)
    requires InRange(5, d)
    ensures Id.ByteLength(hrp + "1" + Id.Text(d)) == Id.ByteLength(hrp) + 1 + |d|
  {
    Id.SymbolsOfText(d);
    LengthOfConcat(hrp + "1", Id.Text(d));
    LengthOfConcat(hrp, "1");
    assert "1"[..0] == "";
  }

  lemma SplitText(low: string, t: string)
    ensures (low + "1" + t)[..|low|] == low && (low + "1" + t)[|low| + 1..] == t
  {
  }

  lemma ReadOf(hrp: string, d: seq<nat>)
    requires InRange(5, d) && |d| >= 6
    ensures var t, low := Id.Text(d), Id.ToLower(hrp);
      Read(hrp + "1" + t) == if hrp != "" && Id.ByteLength(low + "1" + t) <= 90
                             then ReadText(low, t) else Unreadable(BadFormat)
  {
    var t, low := Id.Text(d), Id.ToLower(hrp);
    Id.TextIsPlain(d);
    assert Id.ToLower(hrp + "1" + t) == low + "1" + t;
    Id.LastOneAt(low, t);
    LengthOfText(low, d);
    SplitText(low, t);
  }

  lemma TextOfSealed(hrp: string, version: nat, program: seq<nat>)
    requires InRange(8, program) && 2 <= |program| <= 40 && version < 32
    ensures InRange(5, Payload(version, program))
    ensures ReadText(hrp, Id.Text(Payload(version, program)
        + ChecksumOf(Expand(hrp), Payload(version, program), Target(EncodingFor(version)))))
      == Parsed(Program(hrp, version, program, EncodingFor(version)))
  {
    PayloadInRange(version, program);
    var d, e := Payload(version, program), EncodingFor(version);
    var check := ChecksumOf(Expand(hrp), d, Target(e));
    RunesOfText(d + check);
    SealDecides(hrp, d, check, e);
    ReadOfPayload(hrp, version, program, check);
  }

  lemma ReadOfPayload(hrp: string, version: nat, program: seq<nat>, check: seq<nat>)
    requires InRange(8, program) && 2 <= |program| <= 40 && |check| == 6
    ensures ReadSymbols(hrp, Payload(version, program) + check, EncodingFor(version))
      == Parsed(Program(hrp, version, program, EncodingFor(version)))
  {
    var d := Payload(version, program) + check;
    GatherUndoesSpread(program);
    assert d[1..|d| - 6] == Spread(program);
  }

  /** A written address reads back as what it was written from exactly when its
    * human-readable part is not empty and unchanged by lower-casing and the
    * text has at most ninety bytes. */
  lemma ReadUndoesWrite(hrp: string, version: nat, program: seq<nat>)
    requires InRange(8, program)
    ensures var w := Write(hrp, version, program);
      w.Written? ==>
        (Read(w.text) == Parsed(Program(hrp, version, program, EncodingFor(version))) <==> Readable(hrp, w.text))
  {
    var w := Write(hrp, version, program);
    if w.Written? {
      PayloadInRange(version, program);
      var d := Payload(version, program);
      ReadOf(hrp, d + ChecksumOf(Expand(hrp), d, Target(EncodingFor(version))));
      TextOfSealed(hrp, version, program);
      HrpOfRead(Id.ToLower(hrp), Id.Text(d + ChecksumOf(Expand(hrp), d, Target(EncodingFor(version)))));
    }
  }

  lemma HrpOfRead(hrp: string, t: string)
    ensures ReadText(hrp, t).Parsed? ==> ReadText(hrp, t).p.hrp == hrp
  {
    match RuneSymbols(t)
    case None =>
    case Some(d) =>
      match EncodingOf(hrp, d)
      case None =>
      case Some(e) =>
        if |d| >= 7 {
          HrpOfSymbols(hrp, d, e);
        }
  }

  lemma HrpOfSymbols(hrp: string, d: seq<nat>, e: Encoding)
    requires |d| >= 7
    ensures ReadSymbols(hrp, d, e).Parsed? ==>
      var p := ReadSymbols(hrp, d, e).p;
      p == Program(hrp, d[0], p.program, e) && e == EncodingFor(d[0])
      && Gather(d[1..|d| - 6]) == Groups(p.program) && 2 <= |p.program| <= 40
  {
  }

  /** Whatever reads writes back to its lower-cased text. */
  lemma WriteUndoesRead(addr: string)
    requires Read(addr).Parsed?
    ensures var p := Read(addr).p;
      InRange(8, p.program) && p.version < 32 && p.encoding == EncodingFor(p.version)
      && Write(p.hrp, p.version, p.program) == Written(Id.ToLower(addr))
  {
    var a := Id.ToLower(addr);
    var k := Id.LastOne(a).value;
    Id.LastOneSplits(a);
    WriteOfText(a[..k], a[k + 1..]);
  }

  lemma WriteOfText(hrp: string, t: string)
    requires ReadText(hrp, t).Parsed?
    ensures var p := ReadText(hrp, t).p;
      p.hrp == hrp && InRange(8, p.program) && p.version < 32 && p.encoding == EncodingFor(p.version)
      && Write(hrp, p.version, p.program) == Written(hrp + "1" + t)
  {
    var d := RuneSymbols(t).value;
    TextOfRunes(t);
    WriteOfSymbols(hrp, d, EncodingOf(hrp, d).value);
  }

  lemma SealedOf(hrp: string, d: seq<nat>, n: nat, e: Encoding)
    requires InRange(5, d) && n + 6 == |d| && EncodingOf(hrp, d) == Some(e)
    ensures Sealed(hrp, d[..n], e) == hrp + "1" + Id.Text(d)
  {
    assert d == d[..n] + d[n..];
    SealDecides(hrp, d[..n], d[n..], e);
  }

  lemma PayloadOf(d: seq<nat>, n: nat)
    requires InRange(5, d) && 1 <= n <= |d| && Gather(d[1..n]).Groups?
    ensures d[0] < 32 && InRange(8, Gather(d[1..n]).d) && Payload(d[0], Gather(d[1..n]).d) == d[..n]
  {
    SpreadUndoesGather(d[1..n]);
    assert d[0] < Pow2(5) == 32;
  }

  lemma WriteOfSymbols(hrp: string, d: seq<nat>, e: Encoding)
    requires InRange(5, d) && EncodingOf(hrp, d) == Some(e) && |d| >= 7
    requires ReadSymbols(hrp, d, e).Parsed?
    ensures var p := ReadSymbols(hrp, d, e).p;
      p.hrp == hrp && InRange(8, p.program) && p.version < 32 && p.encoding == EncodingFor(p.version)
      && Write(hrp, p.version, p.program) == Written(hrp + "1" + Id.Text(d))
  {
    HrpOfSymbols(hrp, d, e);
    WriteOfParts(hrp, d, e, ReadSymbols(hrp, d, e).p.program);
  }

  lemma WriteOfParts(hrp: string, d: seq<nat>, e: Encoding, program: seq<nat>)
    requires InRange(5, d) && EncodingOf(hrp, d) == Some(e) && |d| >= 7 && e == EncodingFor(d[0])
    requires Gather(d[1..|d| - 6]) == Groups(program) && 2 <= |program| <= 40
    ensures InRange(8, program) && d[0] < 32
    ensures Write(hrp, d[0], program) == Written(hrp + "1" + Id.Text(d))
  {
    PayloadOf(d, |d| - 6);
    SealedOf(hrp, d, |d| - 6, e);
  }

  // ---- To an ID address and back ----

  datatype Network = Mainnet | Testnet

  /** A base-58 address stands for its version byte and payload. */
  datatype Converted = Segwit(text: string) | Base58(version: nat, payload: seq<nat>) | Failed

  function HrpOf(network: Network): string {
    match network
    case Mainnet => "bc"
    case Testnet => "tb"
  }

  /** The version of the ID address of a segwit program, if it has one. */
  function IdVersion(segwit: nat, length: nat): Option<nat> {
    if segwit == 0 && length == 20 then Some(2)
    else if segwit == 0 && length == 32 then Some(3)
    else if segwit == 1 && length == 32 then Some(5)
    else None
  }

  function FromSegwit(hrp: string, version: nat, program: seq<nat>): Option<string>
    requires InRange(8, program)
  {
    if hrp != "bc" && hrp != "tb" then None else
    match IdVersion(version, |program|)
    case None => None
    case Some(v) => TextOf(Id.Encode(v, program))
  }

  function TextOf(e: Id.Encoded): Option<string> {
    match e
    case Address(text) => Some(text)
    case Unencodable(_) => None
  }

  function ToBitcoin(addr: string, network: Network): Converted {
    match Id.Decode(addr)
    case Undecodable(_) => Failed
    case Decoded(info) =>
      if !InRange(8, info.data) then Failed else
      match info.version
      case 0 => Base58(if network == Mainnet then 0x00 else 0x6F, info.data)
      case 1 => Base58(if network == Mainnet then 0x05 else 0xC4, info.data)
      case 2 => ToSegwit(network, 0, info.data)
      case 3 => ToSegwit(network, 0, info.data)
      case 5 => ToSegwit(network, 1, info.data)
      case _ => Failed
  }

  function ToSegwit(network: Network, version: nat, program: seq<nat>): Converted
    requires InRange(8, program)
  {
    match Write(HrpOf(network), version, program)
    case Written(text) => Segwit(text)
    case _ => Failed
  }

  lemma ComesBack(version: nat, network: Network, segwit: nat, program: seq<nat>, text: string)
    requires InRange(8, program) && Id.VersionChar(version).Some? && Id.ValidLength(version, program)
    requires version == 2 || version == 3 || version == 5
    requires segwit == if version == 5 then 1 else 0
    requires Write(HrpOf(network), segwit, program) == Written(text)
    ensures TextOf(Id.Encode(version, program)).Some?
    ensures ToBitcoin(TextOf(Id.Encode(version, program)).value, network) == Segwit(text)
  {
    Id.DecodeUndoesEncode(version, program);
  }

  lemma IdOfNetwork(network: Network, version: nat, program: seq<nat>)
    requires InRange(8, program)
    ensures FromSegwit(HrpOf(network), version, program) == match IdVersion(version, |program|)
      case None => None
      case Some(v) => TextOf(Id.Encode(v, program))
  {
    assert HrpOf(network) == "bc" || HrpOf(network) == "tb";
  }

  lemma ProgramComesBack(p: Program, network: Network, text: string)
    requires InRange(8, p.program) && p.hrp == HrpOf(network)
    requires Write(p.hrp, p.version, p.program) == Written(text)
    ensures ComesBackFrom(p, network, text)
  {
    IdOfNetwork(network, p.version, p.program);
    var v := IdVersion(p.version, |p.program|);
    if v.Some? {
      ComesBack(v.value, network, p.version, p.program, text);
    }
  }

  /** If `p` has an ID address it converts to `text`, and it has one unless its
    * version and length have no ID version. */
  predicate ComesBackFrom(p: Program, network: Network, text: string)
    requires InRange(8, p.program)
  {
    match FromSegwit(p.hrp, p.version, p.program)
    case Some(id) => ToBitcoin(id, network) == Segwit(text)
    case None => IdVersion(p.version, |p.program|) == None
  }

  /** A segwit address that converts to an ID address comes back lower-cased,
    * on the network its human-readable part names. */
  lemma SegwitComesBack(addr: string, network: Network)
    requires Read(addr).Parsed? && Read(addr).p.hrp == HrpOf(network)
    ensures InRange(8, Read(addr).p.program) && ComesBackFrom(Read(addr).p, network, Id.ToLower(addr))
  {
    WriteUndoesRead(addr);
    ProgramComesBack(Read(addr).p, network, Id.ToLower(addr));
  }
}
