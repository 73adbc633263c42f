/**
 The argon2id PHC string: what it prints, what it accepts, and what a password verified against it gets.
 argon2 itself is a parameter.
 */
module Phc {
  import opened Options
  import opened Text
  import Base64

  datatype Params = Params(memory: nat, time: nat, parallelism: nat, saltLen: nat, keyLen: nat)

  datatype Decoded = Malformed | Phc(params: Params, salt: seq<Byte>, key: seq<Byte>)

  const PREFIX: string := "$argon2id$"
  const VERSION: nat := 19

  /** The parameter list, `m=65536,t=2,p=4`. */
  function CostFields(p: Params): seq<string> {
    ["m" + "=" + Decimal(p.memory), "t" + "=" + Decimal(p.time), "p" + "=" + Decimal(p.parallelism)]
  }

  function Sections(p: Params, salt: seq<Byte>, key: seq<Byte>): seq<string> {
    ["v=" + Decimal(VERSION), Join(CostFields(p), ','), Base64.Encode(salt), Base64.Encode(key)]
  }

  /** `$argon2id$v=19$m=65536,t=2,p=4$<salt>$<key>`. */
  function Encode(p: Params, salt: seq<Byte>, key: seq<Byte>): string {
    PREFIX + Join(Sections(p, salt, key), '$')
  }

  // ---------------------------------------------------------------- the parser

  /** `Sscanf` skips every space but a line feed, which ends the scan. */
  function SkipSpaces(s: string): string {
    if s != "" && IsUnicodeSpace(s[0]) && s[0] != '\n' then SkipSpaces(s[1..]) else s
  }

  function DigitRun(s: string): (d: string)
    ensures forall c :: c in d ==> IsDigit(c)
  {
    if s != "" && IsDigit(s[0]) then [s[0]] + DigitRun(s[1..]) else ""
  }

  /** `Sscanf(s, "v=%d", &version)`: spaces, a sign, a run of digits, and anything after that. */
  function ScanVersion(s: string): Option<int> {
    if !HasPrefix(s, "v=") then None
    else
      var t := SkipSpaces(s[2..]);
      var signed := t != "" && (t[0] == '+' || t[0] == '-');
      var digits := DigitRun(if signed then t[1..] else t);
      if digits == "" then None
      else
        var n := if signed && t[0] == '-' then -(DigitsValue(digits) as int) else DigitsValue(digits);
        if -0x8000_0000_0000_0000 <= n < 0x8000_0000_0000_0000 then Some(n) else None
  }

  datatype Fields = Bad | Fields(m: nat, t: nat, p: nat)

  /** One parameter onto the ones read so far; a later one of the same name wins. */
  function Assign(acc: Fields, f: string): Fields {
    if acc.Bad? then Bad
    else match Cut(f, '=')
      case None => Bad
      case Some((name, value)) =>
        var n := ParseUint32(value);
        if n.None? then Bad
        else if name == "m" then acc.(m := n.value)
        else if name == "t" then acc.(t := n.value)
        else if name == "p" then acc.(p := n.value)
        else Bad
  }

  function AssignAll(fields: seq<string>): Fields {
    if fields == [] then Fields(0, 0, 0) else Assign(AssignAll(fields[..|fields| - 1]), fields[|fields| - 1])
  }

  function InRange(f: Fields): bool { f.Fields? && f.m != 0 && f.t != 0 && 0 < f.p <= 255 }

  function Payload(f: Fields, salt64: string, key64: string): Decoded
    requires InRange(f)
  {
    var salt, key := Base64.Decode(salt64), Base64.Decode(key64);
    if salt.None? || salt.value == [] || key.None? || key.value == [] then Malformed
    else Phc(Params(f.m, f.t, f.p, |salt.value|, |key.value| % 0x1_0000_0000), salt.value, key.value)
  }

  function Decode(encoded: string): Decoded {
    if !HasPrefix(encoded, PREFIX) then Malformed
    else
      var parts := Split(encoded[|PREFIX|..], '$');
      if |parts| != 4 || ScanVersion(parts[0]) != Some(VERSION) then Malformed
      else
        var fields := Split(parts[1], ',');
        if |fields| != 3 || !InRange(AssignAll(fields)) then Malformed
        else Payload(AssignAll(fields), parts[2], parts[3])
  }

  method DecodePhc(encoded: string) returns (out: Decoded)
    ensures out == Decode(encoded)
  {
    if !HasPrefix(encoded, PREFIX) {
      return Malformed;
    }
    var parts := Split(encoded[|PREFIX|..], '$');
    if |parts| != 4 || ScanVersion(parts[0]) != Some(VERSION) {
      return Malformed;
    }
    var fields := Split(parts[1], ',');
    if |fields| != 3 {
      return Malformed;
    }
    var costs := ReadCosts(fields);
    if !InRange(costs) {
      return Malformed;
    }
    out := Payload(costs, parts[2], parts[3]);
  }

  method ReadCosts(fields: seq<string>) returns (out: Fields)
    ensures out == AssignAll(fields)
  {
    var mem, t, par: nat := 0, 0, 0;
    for i := 0 to |fields|
      invariant AssignAll(fields[..i]) == Fields(mem, t, par)
    {
      assert fields[..i + 1][..i] == fields[..i];
      var halves := Cut(fields[i], '=');
      var n := if halves.Some? then ParseUint32(halves.value.1) else None;
      if n.None? || (halves.value.0 != "m" && halves.value.0 != "t" && halves.value.0 != "p") {
        AssignAllBad(fields, i + 1);
        return Bad;
      }
      match halves.value.0
      case "m" => mem := n.value;
      case "t" => t := n.value;
      case _ => par := n.value;
    }
    assert fields[..|fields|] == fields;
    out := Fields(mem, t, par);
  }

  lemma {:induction false} AssignAllBad(fields: seq<string>, n: nat)
    requires n <= |fields| && AssignAll(fields[..n]).Bad?
    ensures AssignAll(fields).Bad?
    decreases |fields| - n
  {
    if n < |fields| {
      assert fields[..n + 1][..n] == fields[..n];
      AssignAllBad(fields, n + 1);
    } else {
      assert fields[..n] == fields;
    }
  }

  // ---------------------------------------------------------------- the round trip

  lemma {:induction false} CutCost(name: string, n: nat)
    requires '=' !in name
    ensures Cut(name + "=" + Decimal(n), '=') == Some((name, Decimal(n)))
  {
    CutFirst(name, '=', Decimal(n));
  }

  lemma {:induction false} ParseDecimal(n: nat)
    requires n < 0x1_0000_0000
    ensures ParseUint32(Decimal(n)) == Some(n)
  {
    ValueOfDecimal(n);
  }

  lemma {:induction false} CostsSplit(p: Params)
    ensures Split(Join(CostFields(p), ','), ',') == CostFields(p)
  {
    SplitOfJoin(CostFields(p), ',');
  }

  lemma {:induction false} AssignThree(a: string, b: string, c: string)
    ensures AssignAll([a, b, c]) == Assign(Assign(Assign(Fields(0, 0, 0), a), b), c)
  {
    var fs := [a, b, c];
    assert fs[..2] == [a, b] && [a, b][..1] == [a] && [a][..0] == [];
    assert AssignAll([a]) == Assign(Fields(0, 0, 0), a);
    assert AssignAll([a, b]) == Assign(AssignAll([a]), b);
  }

  lemma {:induction false} CostsAssign(p: Params)
    requires p.memory < 0x1_0000_0000 && p.time < 0x1_0000_0000 && p.parallelism <= 255
    ensures AssignAll(CostFields(p)) == Fields(p.memory, p.time, p.parallelism)
  {
    var fs := CostFields(p);
    CutCost("m", p.memory);
    CutCost("t", p.time);
    CutCost("p", p.parallelism);
    ParseDecimal(p.memory);
    ParseDecimal(p.time);
    ParseDecimal(p.parallelism);
    AssignThree(fs[0], fs[1], fs[2]);
  }

  lemma {:induction false} DigitRunOfDigits(d: string)
    requires forall c :: c in d ==> IsDigit(c)
    ensures DigitRun(d) == d
  {
    if d != "" {
      assert d[0] in d;
      DigitRunOfDigits(d[1..]);
    }
  }

  lemma {:induction false} ScanPrintedVersion()
    ensures ScanVersion("v=" + Decimal(VERSION)) == Some(VERSION)
  {
    var s := "v=" + Decimal(VERSION);
    assert s[2..] == Decimal(VERSION);
    assert Decimal(VERSION)[0] in Decimal(VERSION);
    ValueOfDecimal(VERSION);
    DigitRunOfDigits(Decimal(VERSION));
  }

  lemma {:induction false} Base64HasNoDollar(b: seq<Byte>)
    ensures '$' !in Base64.Encode(b)
  {
    assert Base64.SextetOf('$') == None;
  }

  lemma {:induction false} EncodeSplits(p: Params, salt: seq<Byte>, key: seq<Byte>)
    ensures HasPrefix(Encode(p, salt, key), PREFIX)
    ensures Split(Encode(p, salt, key)[|PREFIX|..], '$') == Sections(p, salt, key)
  {
    var ss := Sections(p, salt, key);
    Base64HasNoDollar(salt);
    Base64HasNoDollar(key);
    JoinLacks(CostFields(p), ',', '$');
    assert Encode(p, salt, key)[|PREFIX|..] == Join(ss, '$');
    SplitOfJoin(ss, '$');
  }

  /** What is printed is read back: the same costs, salt and key. */
  lemma {:induction false} DecodeEncode(p: Params, salt: seq<Byte>, key: seq<Byte>)
    requires 0 < p.memory < 0x1_0000_0000 && 0 < p.time < 0x1_0000_0000 && 0 < p.parallelism <= 255
    requires salt != [] && 0 < |key| < 0x1_0000_0000
    ensures Decode(Encode(p, salt, key)) == Phc(p.(saltLen := |salt|, keyLen := |key|), salt, key)
  {
    EncodeSplits(p, salt, key);
    ScanPrintedVersion();
    CostsSplit(p);
    CostsAssign(p);
    DecodeOfSections(Encode(p, salt, key), Sections(p, salt, key), CostFields(p));
    PrintedPayload(Fields(p.memory, p.time, p.parallelism), salt, key);
  }

  lemma {:induction false} DecodeOfSections(encoded: string, sections: seq<string>, fields: seq<string>)
    requires HasPrefix(encoded, PREFIX) && Split(encoded[|PREFIX|..], '$') == sections && |sections| == 4
    requires ScanVersion(sections[0]) == Some(VERSION) && Split(sections[1], ',') == fields && |fields| == 3
    requires InRange(AssignAll(fields))
    ensures Decode(encoded) == Payload(AssignAll(fields), sections[2], sections[3])
  {
  }

  lemma {:induction false} PrintedPayload(f: Fields, salt: seq<Byte>, key: seq<Byte>)
    requires InRange(f) && salt != [] && 0 < |key| < 0x1_0000_0000
    ensures Payload(f, Base64.Encode(salt), Base64.Encode(key)) == Phc(Params(f.m, f.t, f.p, |salt|, |key|), salt, key)
  {
    Base64.DecodeEncode(salt);
    Base64.DecodeEncode(key);
  }

  // ---------------------------------------------------------------- strictness

  /** What is accepted is of version 19, has costs of its range, and a salt and a key that are not empty. */
  lemma {:induction false} DecodedIsSane(encoded: string)
    requires Decode(encoded).Phc?
    ensures var d := Decode(encoded); var parts := Split(encoded[|PREFIX|..], '$');
      && HasPrefix(encoded, "$argon2id$") && |parts| == 4 && ScanVersion(parts[0]) == Some(19)
      && 0 < d.params.memory < 0x1_0000_0000 && 0 < d.params.time < 0x1_0000_0000 && 0 < d.params.parallelism <= 255
      && d.salt != [] && Base64.Decode(parts[2]) == Some(d.salt) && d.params.saltLen == |d.salt|
      && d.key != [] && Base64.Decode(parts[3]) == Some(d.key) && d.params.keyLen == |d.key| % 0x1_0000_0000
  {
    var fs := Split(Split(encoded[|PREFIX|..], '$')[1], ',');
    assert fs == [fs[0], fs[1], fs[2]];
    AssignThree(fs[0], fs[1], fs[2]);
    CostsAreShort(Fields(0, 0, 0), fs[0]);
    CostsAreShort(Assign(Fields(0, 0, 0), fs[0]), fs[1]);
    CostsAreShort(Assign(Assign(Fields(0, 0, 0), fs[0]), fs[1]), fs[2]);
  }

  lemma {:induction false} CostsAreShort(acc: Fields, f: string)
    requires acc.Fields? ==> acc.m < 0x1_0000_0000 && acc.t < 0x1_0000_0000
    ensures var next := Assign(acc, f); next.Fields? ==> acc.Fields? && next.m < 0x1_0000_0000 && next.t < 0x1_0000_0000
  {
  }

  lemma {:induction false} DigitRunStops(d: string, rest: string)
    requires forall c :: c in d ==> IsDigit(c)
    requires rest == "" || !IsDigit(rest[0])
    ensures DigitRun(d + rest) == d
  {
    if d == "" {
      assert d + rest == rest;
    } else {
      assert (d + rest)[0] == d[0] && d[0] in d && (d + rest)[1..] == d[1..] + rest;
      DigitRunStops(d[1..], rest);
    }
  }

  lemma {:induction false} SpacesSkipped(spaces: string, rest: string)
    requires forall c :: c in spaces ==> IsUnicodeSpace(c) && c != '\n'
    requires rest == "" || !IsUnicodeSpace(rest[0]) || rest[0] == '\n'
    ensures SkipSpaces(spaces + rest) == rest
  {
    if spaces == "" {
      assert spaces + rest == rest;
    } else {
      assert (spaces + rest)[0] == spaces[0] && spaces[0] in spaces && (spaces + rest)[1..] == spaces[1..] + rest;
      SpacesSkipped(spaces[1..], rest);
    }
  }

  /** The version may have spaces in front and anything behind, but a line feed in front ends the scan. */
  lemma {:induction false} VersionIsScanned(spaces: string, n: nat, rest: string)
    requires forall c :: c in spaces ==> IsUnicodeSpace(c) && c != '\n'
    requires n < 0x8000_0000_0000_0000 && (rest == "" || !IsDigit(rest[0]))
    ensures ScanVersion("v=" + (spaces + (Decimal(n) + rest))) == Some(n)
    ensures ScanVersion("v=" + (spaces + ("\n" + rest))) == None
  {
    ValueOfDecimal(n);
    assert Decimal(n)[0] in Decimal(n);
    var s := "v=" + (spaces + (Decimal(n) + rest));
    assert s[2..] == spaces + (Decimal(n) + rest);
    SpacesSkipped(spaces, Decimal(n) + rest);
    DigitRunStops(Decimal(n), rest);
    var t := "v=" + (spaces + ("\n" + rest));
    assert t[2..] == spaces + ("\n" + rest);
    SpacesSkipped(spaces, "\n" + rest);
  }

  function NameOf(f: string): string { if Cut(f, '=').Some? then Cut(f, '=').value.0 else "" }

  /** Every accepted string names each of `m`, `t` and `p` exactly once, in some order. */
  lemma {:induction false} EachCostIsNamedOnce(encoded: string)
    requires Decode(encoded).Phc?
    ensures var parts := Split(encoded[|PREFIX|..], '$');
            && |parts| == 4
            && var fields := Split(parts[1], ',');
            |fields| == 3 && multiset([NameOf(fields[0]), NameOf(fields[1]), NameOf(fields[2])]) == multiset{"m", "t", "p"}
  {
    var fs := Split(Split(encoded[|PREFIX|..], '$')[1], ',');
    assert fs == [fs[0], fs[1], fs[2]];
    AssignThree(fs[0], fs[1], fs[2]);
    NamedFields(fs[0], fs[1], fs[2]);
  }

  lemma {:induction false} NamedFields(a: string, b: string, c: string)
    requires InRange(Assign(Assign(Assign(Fields(0, 0, 0), a), b), c))
    ensures multiset([NameOf(a), NameOf(b), NameOf(c)]) == multiset{"m", "t", "p"}
  {
  }

  // ---------------------------------------------------------------- hashing and verifying

  /** `argon2.IDKey`, any function of its arguments whose result is as long as asked for. */
  type Kdf = (string, seq<Byte>, Params) -> seq<Byte>

  ghost predicate Lawful(kdf: Kdf) { forall password, salt, p :: |kdf(password, salt, p)| == p.keyLen }

  function WithDefaults(p: Params, d: Params): Params {
    Params(if p.memory == 0 then d.memory else p.memory,
           if p.time == 0 then d.time else p.time,
           if p.parallelism == 0 then d.parallelism else p.parallelism,
           if p.saltLen == 0 then d.saltLen else p.saltLen,
           if p.keyLen == 0 then d.keyLen else p.keyLen)
  }

  /** `DefaultParams` on a host with `cpus` processors. */
  function Defaults(cpus: nat): Params {
    Params(65536, 2, if cpus < 1 then 1 else if cpus < 4 then cpus else 4, 16, 32)
  }

  predicate WeakerThan(p: Params, want: Params) {
    p.memory < want.memory || p.time < want.time || p.keyLen < want.keyLen
  }

  /** The field ranges of the source's unsigned types. */
  predicate Typed(p: Params) {
    p.memory < 0x1_0000_0000 && p.time < 0x1_0000_0000 && p.parallelism <= 255 && p.keyLen < 0x1_0000_0000
  }

  function Hash(kdf: Kdf, p: Params, cpus: nat, password: string, salt: seq<Byte>): string {
    var q := WithDefaults(p, Defaults(cpus));
    Encode(q, salt, kdf(password, salt, q))
  }

  /** The hash as it is spelled; what is not set is 64 MiB, 2 passes, as many lanes as processors from 1 to 4, and 32 bytes. */
  lemma {:induction false} HashIsSpelled(kdf: Kdf, p: Params, cpus: nat, password: string, salt: seq<Byte>)
    ensures var lanes := if cpus == 0 then 1 else if cpus > 4 then 4 else cpus;
      var q := Params(if p.memory == 0 then 65536 else p.memory, if p.time == 0 then 2 else p.time,
                      if p.parallelism == 0 then lanes else p.parallelism, if p.saltLen == 0 then 16 else p.saltLen,
                      if p.keyLen == 0 then 32 else p.keyLen);
      Hash(kdf, p, cpus, password, salt) ==
        "$argon2id$" + ("v=19" + "$" + (("m=" + Decimal(q.memory) + "," + ("t=" + Decimal(q.time) + "," + ("p=" + Decimal(q.parallelism))))
        + "$" + (Base64.Encode(salt) + "$" + Base64.Encode(kdf(password, salt, q)))))
  {
    var q := WithDefaults(p, Defaults(cpus));
    var fs, ss := CostFields(q), Sections(q, salt, kdf(password, salt, q));
    NineteenIs();
    assert "m" + "=" + Decimal(q.memory) == "m=" + Decimal(q.memory);
    assert "t" + "=" + Decimal(q.time) == "t=" + Decimal(q.time);
    assert "p" + "=" + Decimal(q.parallelism) == "p=" + Decimal(q.parallelism);
    JoinThree(fs[0], fs[1], fs[2], ',');
    JoinTwo(ss[2], ss[3], '$');
    assert ss[1..] == [ss[1], ss[2], ss[3]];
    JoinThree(ss[1], ss[2], ss[3], '$');
    assert Join(ss, '$') == ss[0] + ['$'] + Join(ss[1..], '$');
  }

  lemma {:induction false} NineteenIs()
    ensures "v=" + Decimal(VERSION) == "v=19"
  {
    assert Decimal(1) == "1";
    assert Decimal(19) == Decimal(1) + "9";
  }

  lemma {:induction false} JoinTwo(a: string, b: string, sep: char)
    ensures Join([a, b], sep) == a + [sep] + b
  {
    assert [a, b][1..] == [b];
  }

  lemma {:induction false} JoinThree(a: string, b: string, c: string, sep: char)
    ensures Join([a, b, c], sep) == a + [sep] + (b + [sep] + c)
  {
    assert [a, b, c][1..] == [b, c];
    JoinTwo(b, c, sep);
  }

  datatype Verdict = Unreadable | Mismatch | Matches(rehash: bool)

  function Verify(kdf: Kdf, p: Params, cpus: nat, encoded: string, password: string): Verdict {
    match Decode(encoded)
    case Malformed => Unreadable
    case Phc(stored, salt, key) =>
      if kdf(password, salt, stored) != key then Mismatch
      else Matches(WeakerThan(stored, WithDefaults(p, Defaults(cpus))))
  }

  /**
   What a later `Verify`, under the same or other parameters, says of a hash made here: it matches exactly the
   passwords argon2 maps to the same key, and asks for a rehash exactly if the making was weaker.
   */
  lemma {:induction false} VerifyOfHash(
    kdf: Kdf, made: Params, madeOn: nat, password: string, salt: seq<Byte>, asked: Params, askedOn: nat, tried: string)
    requires Lawful(kdf) && Typed(made)
    requires |salt| == WithDefaults(made, Defaults(madeOn)).saltLen
    ensures Verify(kdf, asked, askedOn, Hash(kdf, made, madeOn, password, salt), tried)
         == var q := WithDefaults(made, Defaults(madeOn));
            if kdf(tried, salt, q) != kdf(password, salt, q) then Mismatch
            else Matches(
              || q.memory < (if asked.memory == 0 then 65536 else asked.memory)
              || q.time < (if asked.time == 0 then 2 else asked.time)
              || q.keyLen < (if asked.keyLen == 0 then 32 else asked.keyLen))
  {
    var q := WithDefaults(made, Defaults(madeOn));
    var key := kdf(password, salt, q);
    assert |key| == q.keyLen;
    DecodeEncode(q, salt, key);
  }

  /** A fresh hash verifies, with nothing to upgrade. */
  lemma {:induction false} FreshHashVerifies(kdf: Kdf, p: Params, cpus: nat, password: string, salt: seq<Byte>)
    requires Lawful(kdf) && Typed(p) && |salt| == WithDefaults(p, Defaults(cpus)).saltLen
    ensures Verify(kdf, p, cpus, Hash(kdf, p, cpus, password, salt), password) == Matches(false)
  {
    VerifyOfHash(kdf, p, cpus, password, salt, p, cpus, password);
  }
}
