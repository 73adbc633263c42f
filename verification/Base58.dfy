/**
 The base58 encoding of the setup token: its length bound, and a reference decoder that inverts it.
 */
module Base58 {
  import opened Arithmetic
  import opened Options
  import opened SetupToken
  import opened Text

  /** The two radixes in play; products and quotients by either are linear. */
  type Radix = r: nat | r == 58 || r == 256 witness 58

  /** The letters and digits without `0`, `O`, `I` and `l`. */
  const ALPHABET: string := "123456789" + "ABCDEFGH" + "JKLMN" + "PQRSTUVWXYZ" + "abcdefghijk" + "mnopqrstuvwxyz"

  function Letter(d: nat): (c: char)
    requires d < 58
    ensures '1' <= c <= 'z' && (d > 0 ==> c != '1')
  {
    if d < 9 then '1' + d as char
    else if d < 17 then 'A' + (d - 9) as char
    else if d < 22 then 'J' + (d - 17) as char
    else if d < 33 then 'P' + (d - 22) as char
    else if d < 44 then 'a' + (d - 33) as char
    else 'm' + (d - 44) as char
  }

  lemma {:induction false} FirstLetters()
    ensures forall i :: 0 <= i < 9 ==> "123456789"[i] == '1' + i as char
    ensures forall i :: 0 <= i < 8 ==> "ABCDEFGH"[i] == 'A' + i as char
    ensures forall i :: 0 <= i < 5 ==> "JKLMN"[i] == 'J' + i as char
  {
  }

  lemma {:induction false} MiddleLetters()
    ensures forall i :: 0 <= i < 11 ==> "PQRSTUVWXYZ"[i] == 'P' + i as char
    ensures forall i :: 0 <= i < 11 ==> "abcdefghijk"[i] == 'a' + i as char
  {
  }

  lemma {:induction false} LastLetters()
    ensures forall i :: 0 <= i < 14 ==> "mnopqrstuvwxyz"[i] == 'm' + i as char
  {
  }

  lemma {:induction false} AlphabetLetters()
    ensures |ALPHABET| == 58 && forall d :: 0 <= d < 58 ==> ALPHABET[d] == Letter(d)
  {
    FirstLetters();
    MiddleLetters();
    LastLetters();
  }

  // ---------------------------------------------------------------- positional numbers

  /** Most significant digit first. */
  function Number(radix: Radix, digits: seq<nat>): nat {
    if digits == [] then 0 else Number(radix, digits[..|digits| - 1]) * radix + digits[|digits| - 1]
  }

  /** The digits of a number without leading zeros; none for zero. */
  function Digits(radix: Radix, n: nat): (digits: seq<nat>)
    ensures forall d :: d in digits ==> d < radix
    ensures n > 0 <==> digits != []
    ensures digits != [] ==> digits[0] != 0
  {
    if n == 0 then [] else Digits(radix, n / radix) + [n % radix]
  }

  lemma {:induction false} NumberOfDigits(radix: Radix, n: nat)
    ensures Number(radix, Digits(radix, n)) == n
  {
    if n > 0 {
      NumberOfDigits(radix, n / radix);
      var ds := Digits(radix, n);
      assert ds[..|ds| - 1] == Digits(radix, n / radix);
      Recomposed(radix, n);
    }
  }

  lemma {:induction false} Recomposed(radix: Radix, n: nat)
    ensures n / radix * radix + n % radix == n
  {
    if radix == 58 {
      assert n / 58 * 58 + n % 58 == n;
    } else {
      assert n / 256 * 256 + n % 256 == n;
    }
  }

  lemma {:induction false} Shifted(radix: Radix, q: nat, d: nat)
    requires d < radix
    ensures (q * radix + d) / radix == q && (q * radix + d) % radix == d
  {
    if radix == 58 {
      assert (q * 58 + d) / 58 == q;
    } else {
      assert (q * 256 + d) / 256 == q;
    }
  }

  lemma {:induction false} DigitsOfNumber(radix: Radix, digits: seq<nat>)
    requires forall d :: d in digits ==> d < radix
    requires digits != [] ==> digits[0] != 0
    ensures Digits(radix, Number(radix, digits)) == digits
  {
    if digits != [] {
      var init, d := digits[..|digits| - 1], digits[|digits| - 1];
      assert forall x :: x in init ==> x in digits;
      assert d in digits;
      DigitsOfNumber(radix, init);
      Shifted(radix, Number(radix, init), d);
      assert digits == init + [d];
    }
  }

  lemma {:induction false} LeadingZerosCountNothing(radix: Radix, n: nat, digits: seq<nat>)
    ensures Number(radix, Zeros(n) + digits) == Number(radix, digits)
    decreases |digits|, n
  {
    var all := Zeros(n) + digits;
    if digits != [] {
      assert all[..|all| - 1] == Zeros(n) + digits[..|digits| - 1];
      LeadingZerosCountNothing(radix, n, digits[..|digits| - 1]);
    } else if n > 0 {
      assert all[..|all| - 1] == Zeros(n - 1) + [];
      LeadingZerosCountNothing(radix, n - 1, []);
    }
  }

  // ---------------------------------------------------------------- the encoding and a decoder

  function LeadingZeros(b: seq<nat>): (z: nat)
    ensures z <= |b| && (forall i :: 0 <= i < z ==> b[i] == 0) && (z < |b| ==> b[z] != 0)
  {
    if b == [] || b[0] != 0 then 0 else 1 + LeadingZeros(b[1..])
  }

  function Chars(digits: seq<nat>): (s: string)
    requires forall d :: d in digits ==> d < 58
    ensures |s| == |digits| && forall i :: 0 <= i < |s| ==> digits[i] in digits && s[i] == Letter(digits[i])
  {
    seq(|digits|, i requires 0 <= i < |digits| => assert digits[i] in digits; Letter(digits[i]))
  }

  /** One `1` per leading zero byte, then the number the bytes spell, in base 58. */
  function Encode(b: seq<Byte>): string {
    Chars(Zeros(LeadingZeros(b))) + Chars(Digits(58, Number(256, b)))
  }

  /** The value of a character, if it is in the alphabet. */
  function DigitOf(c: char): (d: Option<nat>)
    ensures d.Some? ==> d.value < 58 && Letter(d.value) == c
  {
    if '1' <= c <= '9' then Some((c - '1') as nat)
    else if 'A' <= c <= 'H' then Some(9 + (c - 'A') as nat)
    else if 'J' <= c <= 'N' then Some(17 + (c - 'J') as nat)
    else if 'P' <= c <= 'Z' then Some(22 + (c - 'P') as nat)
    else if 'a' <= c <= 'k' then Some(33 + (c - 'a') as nat)
    else if 'm' <= c <= 'z' then Some(44 + (c - 'm') as nat)
    else None
  }

  lemma {:induction false} DigitOfLetter(d: nat)
    requires d < 58
    ensures DigitOf(Letter(d)) == Some(d)
  {
  }

  predicate Spelled(s: string) { forall c :: c in s ==> DigitOf(c).Some? }

  function DigitsOf(s: string): (ds: seq<nat>)
    requires Spelled(s)
    ensures |ds| == |s| && forall i :: 0 <= i < |s| ==> ds[i] == DigitOf(s[i]).value
  {
    seq(|s|, i requires 0 <= i < |s| => DigitOf(s[i]).value)
  }

  /** The reference decoder: as many zero bytes as there are leading `1`s, then the bytes of the number. */
  function Decode(s: string): seq<Byte>
    requires Spelled(s)
  {
    var b := Zeros(LeadingZeros(DigitsOf(s))) + Digits(256, Number(58, DigitsOf(s)));
    assert forall i :: 0 <= i < |b| ==> b[i] in b;
    b
  }

  lemma {:induction false} DigitsOfChars(digits: seq<nat>)
    requires forall d :: d in digits ==> d < 58
    ensures Spelled(Chars(digits)) && DigitsOf(Chars(digits)) == digits
  {
    forall i | 0 <= i < |digits|
      ensures DigitOf(Chars(digits)[i]) == Some(digits[i])
    {
      assert digits[i] in digits;
      DigitOfLetter(digits[i]);
    }
  }

  lemma {:induction false} SplitZeros(b: seq<nat>)
    ensures b == Zeros(LeadingZeros(b)) + b[LeadingZeros(b)..]
  {
    var z := LeadingZeros(b);
  }

  lemma {:induction false} LeadingZerosOf(z: nat, digits: seq<nat>)
    requires digits != [] ==> digits[0] != 0
    ensures LeadingZeros(Zeros(z) + digits) == z
  {
    var all := Zeros(z) + digits;
    assert digits != [] ==> all[z] == digits[0];
  }

  /** A number is spelled by its digits behind the leading zeros, and by them alone. */
  lemma {:induction false} SpelledByTail(radix: Radix, digits: seq<nat>)
    requires forall d :: d in digits ==> d < radix
    ensures var tail := digits[LeadingZeros(digits)..];
            Number(radix, digits) == Number(radix, tail) && Digits(radix, Number(radix, digits)) == tail
  {
    var z := LeadingZeros(digits);
    var tail := digits[z..];
    SplitZeros(digits);
    LeadingZerosCountNothing(radix, z, tail);
    assert forall d :: d in tail ==> d in digits;
    DigitsOfNumber(radix, tail);
  }

  lemma {:induction false} NumberBehindZeros(radix: Radix, z: nat, n: nat)
    ensures var digits := Zeros(z) + Digits(radix, n);
            LeadingZeros(digits) == z && Number(radix, digits) == n
  {
    LeadingZerosOf(z, Digits(radix, n));
    LeadingZerosCountNothing(radix, z, Digits(radix, n));
    NumberOfDigits(radix, n);
  }

  lemma {:induction false} CharsJoin(a: seq<nat>, b: seq<nat>)
    requires forall d :: d in a + b ==> d < 58
    ensures (forall d :: d in a ==> d < 58) && (forall d :: d in b ==> d < 58)
    ensures Chars(a) + Chars(b) == Chars(a + b)
  {
    assert forall d :: d in a ==> d in a + b;
    assert forall d :: d in b ==> d in a + b;
  }

  /** The decoder inverts the encoder on every byte string, leading zero bytes included. */
  lemma {:induction false} DecodeEncode(b: seq<Byte>)
    ensures Spelled(Encode(b)) && Decode(Encode(b)) == b
  {
    var z, n := LeadingZeros(b), Number(256, b);
    var digits := Zeros(z) + Digits(58, n);
    CharsJoin(Zeros(z), Digits(58, n));
    DigitsOfChars(digits);
    NumberBehindZeros(58, z, n);
    SpelledByTail(256, b);
    SplitZeros(b);
  }

  lemma {:induction false} CharsOfDigits(s: string)
    requires Spelled(s)
    ensures (forall d :: d in DigitsOf(s) ==> d < 58) && Chars(DigitsOf(s)) == s
  {
    assert forall i :: 0 <= i < |s| ==> DigitOf(s[i]).Some? && DigitsOf(s)[i] == DigitOf(s[i]).value;
  }

  /** And the encoder inverts the decoder on every string over the alphabet. */
  lemma {:induction false} EncodeDecode(s: string)
    requires Spelled(s)
    ensures Encode(Decode(s)) == s
  {
    var ds := DigitsOf(s);
    var z, n := LeadingZeros(ds), Number(58, ds);
    CharsOfDigits(s);
    NumberBehindZeros(256, z, n);
    SpelledByTail(58, ds);
    SplitZeros(ds);
    assert Decode(s) == Zeros(z) + Digits(256, n);
    assert Zeros(z) + Digits(58, n) == ds;
    CharsJoin(Zeros(z), Digits(58, n));
  }

  lemma {:induction false} EncodeInjective(a: seq<Byte>, b: seq<Byte>)
    requires Encode(a) == Encode(b)
    ensures a == b
  {
    DecodeEncode(a);
    DecodeEncode(b);
  }

  // ---------------------------------------------------------------- the length bound

  function Pow2(n: nat): nat { if n == 0 then 1 else 2 * Pow2(n - 1) }

  function Pow58(n: nat): nat { if n == 0 then 1 else 58 * Pow58(n - 1) }

  lemma {:induction false} Pow2Byte(n: nat)
    ensures Pow2(n + 8) == 256 * Pow2(n)
  {
    assert Pow2(n + 4) == 2 * Pow2(n + 3) == 4 * Pow2(n + 2) == 8 * Pow2(n + 1) == 16 * Pow2(n);
    assert Pow2(n + 8) == 2 * Pow2(n + 7) == 4 * Pow2(n + 6) == 8 * Pow2(n + 5) == 16 * Pow2(n + 4);
  }

  lemma {:induction false} Pow2By41(n: nat)
    ensures Pow2(n + 41) == 2199023255552 * Pow2(n)
  {
    Pow2Byte(n);
    Pow2Byte(n + 8);
    Pow2Byte(n + 16);
    Pow2Byte(n + 24);
    Pow2Byte(n + 32);
    assert Pow2(n + 41) == 2 * Pow2(n + 40);
  }

  lemma {:induction false} Pow58By7(n: nat)
    ensures Pow58(n + 7) == 2207984167552 * Pow58(n)
  {
    assert Pow58(n + 3) == 58 * Pow58(n + 2) == 3364 * Pow58(n + 1) == 195112 * Pow58(n);
    assert Pow58(n + 7) == 58 * Pow58(n + 6) == 3364 * Pow58(n + 5) == 195112 * Pow58(n + 4) == 11316496 * Pow58(n + 3);
  }

  lemma {:induction false} Pow2Grows(m: nat, n: nat)
    requires m <= n
    ensures 0 < Pow2(m) <= Pow2(n)
    decreases n
  {
    if m < n {
      Pow2Grows(m, n - 1);
    } else if m > 0 {
      Pow2Grows(m - 1, n - 1);
    }
  }

  /** `58^7 > 2^41`, lifted to every exponent: `58^e >= 2^(41 e / 7)`. */
  lemma {:induction false} Pow58Bits(e: nat)
    ensures Pow58(e) >= Pow2(41 * e / 7)
  {
    if e >= 7 {
      Pow58Bits(e - 7);
      Pow58By7(e - 7);
      Pow2By41(41 * (e - 7) / 7);
      assert 41 * e / 7 == 41 * (e - 7) / 7 + 41;
    } else {
      SmallPowers();
    }
  }

  lemma {:induction false} SmallPowers()
    ensures Pow58(0) == 1 && Pow58(1) == 58 && Pow58(2) == 3364 && Pow58(3) == 195112
    ensures Pow58(4) == 11316496 && Pow58(5) == 656356768 && Pow58(6) == 38068692544
    ensures Pow2(0) == 1 && Pow2(5) == 32 && Pow2(11) == 2048 && Pow2(17) == 131072
    ensures Pow2(23) == 8388608 && Pow2(29) == 536870912 && Pow2(35) == 34359738368
  {
    assert Pow58(3) == 195112;
    assert Pow58(4) == 58 * Pow58(3);
    assert Pow58(5) == 58 * Pow58(4);
    assert Pow58(6) == 58 * Pow58(5);
    assert Pow2(3) == 8;
    assert Pow2(5) == 2 * Pow2(4) == 4 * Pow2(3);
    Pow2Byte(3);
    Pow2Byte(5);
    assert Pow2(17 - 6) == Pow2(11) == 256 * Pow2(3);
    assert Pow2(12) == 2 * Pow2(11);
    assert Pow2(13) == 256 * Pow2(5);
    assert Pow2(17) == 2 * Pow2(16) == 4 * Pow2(15) == 8 * Pow2(14) == 16 * Pow2(13);
    Pow2Byte(13);
    assert Pow2(23) == 2 * Pow2(22) == 4 * Pow2(21);
    Pow2Byte(21);
    Pow2Byte(27);
    assert Pow2(27) == 2 * Pow2(26) == 4 * Pow2(25) == 8 * Pow2(24) == 16 * Pow2(23);
    assert Pow2(29) == 2 * Pow2(28) == 4 * Pow2(27);
  }

  lemma {:induction false} BytesBelow(b: seq<nat>)
    requires forall d :: d in b ==> d < 256
    ensures Number(256, b) < Pow2(8 * |b|)
  {
    if b != [] {
      var init := b[..|b| - 1];
      assert forall d :: d in init ==> d in b;
      assert b[|b| - 1] in b;
      BytesBelow(init);
      Pow2Byte(8 * |init|);
    }
  }

  lemma {:induction false} DigitsReach(n: nat)
    requires n > 0
    ensures n >= Pow58(|Digits(58, n)| - 1)
  {
    if n >= 58 {
      DigitsReach(n / 58);
    } else {
      assert Digits(58, n / 58) == [];
    }
  }

  lemma {:induction false} MoreDigitsThanBytes(e: nat, m: nat)
    requires 100 * e >= 138 * m
    ensures Pow58(e) >= Pow2(8 * m)
  {
    Pow58Bits(e);
    Pow2Grows(8 * m, 41 * e / 7);
  }

  lemma {:induction false} DigitsPerByte(b: seq<nat>)
    requires forall d :: d in b ==> d < 256
    ensures var n := Number(256, b); n > 0 ==> 100 * (|Digits(58, n)| - 1) < 138 * |b|
  {
    var n := Number(256, b);
    BytesBelow(b);
    if n > 0 {
      var e := |Digits(58, n)| - 1;
      DigitsReach(n);
      if 100 * e >= 138 * |b| {
        MoreDigitsThanBytes(e, |b|);
      }
    }
  }

  /** The output, leading ones included, is never longer than the buffer `len(b)*138/100 + 1` made for it. */
  lemma {:induction false} EncodeFits(b: seq<Byte>)
    ensures |Encode(b)| == LeadingZeros(b) + |Digits(58, Number(256, b))| <= |b| * 138 / 100 + 1
  {
    var z := LeadingZeros(b);
    var tail := b[z..];
    SpelledByTail(256, b);
    assert forall d :: d in tail ==> d in b;
    DigitsPerByte(tail);
  }

  // ---------------------------------------------------------------- the method

  function Reversed(s: string): (r: string)
    ensures |r| == |s|
  {
    if s == "" then "" else [s[|s| - 1]] + Reversed(s[..|s| - 1])
  }

  lemma {:induction false} ReversedAt(s: string, i: nat)
    requires i < |s|
    ensures Reversed(s)[i] == s[|s| - 1 - i]
    decreases |s|
  {
    if i > 0 {
      ReversedAt(s[..|s| - 1], i - 1);
    }
  }

  lemma {:induction false} ReversedPush(s: string, c: char)
    ensures Reversed(s + [c]) == [c] + Reversed(s)
  {
    assert (s + [c])[..|s|] == s;
  }

  method Base58Encode(b: seq<Byte>) returns (s: string)
    ensures s == Encode(b)
  {
    var zeros := 0;
    while zeros < |b| && b[zeros] == 0
      invariant zeros <= |b| && forall i :: 0 <= i < zeros ==> b[i] == 0
    {
      zeros := zeros + 1;
    }
    assert zeros == LeadingZeros(b);
    EncodeFits(b);

    var out := new char[|b| * 138 / 100 + 1];
    var used := AppendDigits(out, Number(256, b));
    used := AppendOnes(out, used, zeros);
    ReverseInPlace(out, used);
    s := out[..used];
  }

  /** The digits of `n` into the buffer, least significant first. */
  method AppendDigits(out: array<char>, n: nat) returns (used: nat)
    requires |Digits(58, n)| <= out.Length
    modifies out
    ensures used == |Digits(58, n)| && Reversed(out[..used]) == Chars(Digits(58, n))
  {
    var left := n;
    used := 0;
    while left > 0
      invariant used + |Digits(58, left)| == |Digits(58, n)|
      invariant Chars(Digits(58, left)) + Reversed(out[..used]) == Chars(Digits(58, n))
    {
      ghost var before := out[..used];
      AlphabetLetters();
      out[used] := ALPHABET[left % 58];
      assert Digits(58, left) == Digits(58, left / 58) + [left % 58];
      DigitMoves(Digits(58, left / 58), left % 58, before);
      assert out[..used + 1] == before + [Letter(left % 58)];
      left, used := left / 58, used + 1;
    }
  }

  lemma {:induction false} DigitMoves(rest: seq<nat>, d: nat, written: string)
    requires forall x :: x in rest + [d] ==> x < 58
    ensures d < 58 && forall x :: x in rest ==> x < 58
    ensures Chars(rest) + Reversed(written + [Letter(d)]) == Chars(rest + [d]) + Reversed(written)
  {
    CharsJoin(rest, [d]);
    assert d in [d];
    ReversedPush(written, Letter(d));
    assert Chars([d]) == [Letter(d)];
    assert (Chars(rest) + [Letter(d)]) + Reversed(written) == Chars(rest) + ([Letter(d)] + Reversed(written));
  }

  method AppendOnes(out: array<char>, start: nat, zeros: nat) returns (used: nat)
    requires start + zeros <= out.Length
    modifies out
    ensures used == start + zeros && Reversed(out[..used]) == Chars(Zeros(zeros)) + Reversed(old(out[..start]))
  {
    used := start;
    ghost var i, tail := 0, Reversed(out[..start]);
    var one := ALPHABET[0];
    OneIsLetter(one);
    NoneYet(tail);
    while used < start + zeros
      invariant used == start + i && i <= zeros
      invariant Reversed(out[..used]) == Chars(Zeros(i)) + tail
    {
      ghost var before := out[..used];
      out[used] := one;
      assert out[..used + 1] == before + [one];
      OneMoreAhead(before, i, one, tail);
      used, i := used + 1, i + 1;
    }
  }

  lemma {:induction false} NoneYet(tail: string)
    ensures Chars(Zeros(0)) + tail == tail
  {
  }

  lemma {:induction false} OneMoreAhead(before: string, i: nat, one: char, tail: string)
    requires Reversed(before) == Chars(Zeros(i)) + tail && one == Letter(0)
    ensures Reversed(before + [one]) == Chars(Zeros(i + 1)) + tail
  {
    ReversedPush(before, one);
    OneMore(i);
    assert [one] + (Chars(Zeros(i)) + tail) == ([one] + Chars(Zeros(i))) + tail;
  }

  lemma {:induction false} OneIsLetter(one: char)
    requires one == ALPHABET[0]
    ensures one == Letter(0)
  {
    AlphabetLetters();
  }

  lemma {:induction false} OneMore(i: nat)
    ensures Chars(Zeros(i + 1)) == [Letter(0)] + Chars(Zeros(i))
  {
  }

  /** The first `used` characters of the buffer, turned around by swapping from both ends. */
  method ReverseInPlace(out: array<char>, used: nat)
    requires used <= out.Length
    modifies out
    ensures out[..used] == Reversed(old(out[..used]))
  {
    var i, j := 0, used as int - 1;
    ghost var was := out[..used];
    while i < j
      invariant 0 <= i <= used && j == used - 1 - i && i <= j + 1
      invariant forall k :: 0 <= k < i ==> out[k] == was[used - 1 - k] && out[used - 1 - k] == was[k]
      invariant forall k :: i <= k <= j ==> out[k] == was[k]
    {
      out[i], out[j] := out[j], out[i];
      i, j := i + 1, j - 1;
    }
    forall k | 0 <= k < used
      ensures out[k] == Reversed(was)[k]
    {
      ReversedAt(was, k);
    }
  }

  // ---------------------------------------------------------------- the token

  lemma {:induction false} EncodeUsesAlphabet(b: seq<Byte>)
    ensures forall c :: c in Encode(b) ==> c in ALPHABET && !IsSpace(c)
  {
    DecodeEncode(b);
    AlphabetLetters();
    forall c | c in Encode(b)
      ensures c in ALPHABET
    {
      assert c == ALPHABET[DigitOf(c).value];
    }
  }

  lemma {:induction false} EncodeNonEmpty(b: seq<Byte>)
    requires b != []
    ensures Encode(b) != ""
  {
    DecodeEncode(b);
    assert DigitsOf("") == [];
    assert Decode("") == [];
  }

  /** A minted token survives the trip through its file: written with a newline, read back and trimmed. */
  lemma {:induction false} TokenSurvivesItsFile(raw: seq<Byte>)
    requires raw != []
    ensures Solid(Encode(raw)) && ReadToken(Some(Encode(raw) + "\n")) == Some(Encode(raw))
  {
    var token := Encode(raw);
    EncodeUsesAlphabet(raw);
    EncodeNonEmpty(raw);
    ReadPrefix(token, |token| + 1);
    assert (token + "\n")[..|token| + 1] == token + "\n";
  }
}
