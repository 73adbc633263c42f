/** Unpadded base64 (sections 3.2 and 4 of RFC 4648), with the decoder's tolerance for line breaks. */
module Base64 {
  import opened Options
  import opened Text

  type Sextet = v: nat | v < 64

  function Letter(v: Sextet): (c: char)
    ensures 'A' <= c <= 'Z' || 'a' <= c <= 'z' || '0' <= c <= '9' || c == '+' || c == '/'
  {
    if v < 26 then 'A' + v as char
    else if v < 52 then 'a' + (v - 26) as char
    else if v < 62 then '0' + (v - 52) as char
    else if v == 62 then '+' else '/'
  }

  function SextetOf(c: char): Option<Sextet> {
    if 'A' <= c <= 'Z' then Some((c - 'A') as nat)
    else if 'a' <= c <= 'z' then Some(26 + (c - 'a') as nat)
    else if '0' <= c <= '9' then Some(52 + (c - '0') as nat)
    else if c == '+' then Some(62)
    else if c == '/' then Some(63)
    else None
  }

  lemma {:induction false} SextetOfLetter(v: Sextet)
    ensures SextetOf(Letter(v)) == Some(v)
  {
  }

  /** The six-bit groups of the bytes, the last one filled up with zero bits. */
  function SextetsOf(b: seq<Byte>): (v: seq<Sextet>)
    ensures b != [] ==> v != []
  {
    if b == [] then []
    else if |b| == 1 then [b[0] / 4, b[0] % 4 * 16]
    else if |b| == 2 then [b[0] / 4, b[0] % 4 * 16 + b[1] / 16, b[1] % 16 * 4]
    else [b[0] / 4, b[0] % 4 * 16 + b[1] / 16, b[1] % 16 * 4 + b[2] / 64, b[2] % 64] + SextetsOf(b[3..])
  }

  function Letters(v: seq<Sextet>): (s: string)
    ensures |s| == |v| && forall c :: c in s ==> SextetOf(c).Some?
  {
    if v == [] then "" else [Letter(v[0])] + Letters(v[1..])
  }

  function Encode(b: seq<Byte>): string { Letters(SextetsOf(b)) }

  predicate LineBreak(c: char) { c == '\n' || c == '\r' }

  /** The decoder skips line breaks wherever they are. */
  function WithoutBreaks(s: string): string {
    if s == "" then "" else (if LineBreak(s[0]) then "" else [s[0]]) + WithoutBreaks(s[1..])
  }

  function Sextets(s: string): Option<seq<Sextet>> {
    if s == "" then Some([])
    else if SextetOf(s[0]).None? || Sextets(s[1..]).None? then None
    else Some([SextetOf(s[0]).value] + Sextets(s[1..]).value)
  }

  /** Four sextets to three bytes; a last group of one is an error, and spare low bits are dropped. */
  function Bytes(v: seq<Sextet>): Option<seq<Byte>> {
    if v == [] then Some([])
    else if |v| == 1 then None
    else
      var b0: Byte := v[0] as nat * 4 + v[1] / 16;
      if |v| == 2 then Some([b0])
      else
        var b1: Byte := v[1] as nat % 16 * 16 + v[2] / 4;
        if |v| == 3 then Some([b0, b1])
        else if Bytes(v[4..]).None? then None
        else
          var b2: Byte := v[2] as nat % 4 * 64 + v[3];
          Some([b0, b1, b2] + Bytes(v[4..]).value)
  }

  function Decode(s: string): Option<seq<Byte>> {
    var v := Sextets(WithoutBreaks(s));
    if v.None? then None else Bytes(v.value)
  }

  lemma {:induction false} NoBreaks(s: string)
    requires forall c :: c in s ==> SextetOf(c).Some?
    ensures WithoutBreaks(s) == s
  {
    if s != "" {
      assert s[0] in s;
      NoBreaks(s[1..]);
    }
  }

  lemma {:induction false} SextetsOfLetters(v: seq<Sextet>)
    ensures Sextets(Letters(v)) == Some(v)
  {
    if v != [] {
      SextetsOfLetters(v[1..]);
      SextetOfLetter(v[0]);
      assert Letters(v)[1..] == Letters(v[1..]);
      assert [v[0]] + v[1..] == v;
    }
  }

  lemma {:induction false} BytesOfSextets(b: seq<Byte>)
    ensures Bytes(SextetsOf(b)) == Some(b)
  {
    var v := SextetsOf(b);
    if |b| == 1 {
      assert [b[0]] == b;
    } else if |b| == 2 {
      assert [b[0], b[1]] == b;
    } else if |b| >= 3 {
      BytesOfSextets(b[3..]);
      assert v[4..] == SextetsOf(b[3..]);
      assert b == [b[0], b[1], b[2]] + b[3..];
    }
  }

  lemma {:induction false} DecodeEncode(b: seq<Byte>)
    ensures Decode(Encode(b)) == Some(b)
  {
    NoBreaks(Encode(b));
    SextetsOfLetters(SextetsOf(b));
    BytesOfSextets(b);
  }
}
