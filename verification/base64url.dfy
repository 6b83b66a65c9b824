/** base64 with the URL-safe alphabet (section 5 of RFC 4648), with and without its padding. */
module Base64Url {
  import opened Basics
  import opened Wrappers

  newtype byte = x: int | 0 <= x < 256

  function Letter(v: nat): char
    requires v < 64
  {
    if v < 26 then ('A' as int + v) as char
    else if v < 52 then ('a' as int + (v - 26)) as char
    else if v < 62 then ('0' as int + (v - 52)) as char
    else if v == 62 then '-' else '_'
  }

  function Value(c: char): (v: Option<nat>)
    ensures v.Some? ==> v.value < 64
  {
    if 'A' <= c <= 'Z' then Some(c as int - 'A' as int)
    else if 'a' <= c <= 'z' then Some(26 + (c as int - 'a' as int))
    else if '0' <= c <= '9' then Some(52 + (c as int - '0' as int))
    else if c == '-' then Some(62)
    else if c == '_' then Some(63)
    else None
  }

  lemma LetterIsALetter(v: nat)
    requires v < 64
    ensures Value(Letter(v)) == Some(v)
  {
  }

  /** Text of the alphabet alone; in particular it holds no pad and no separator. */
  ghost predicate AllLetters(s: string) {
    forall i | 0 <= i < |s| :: Value(s[i]).Some?
  }

  lemma LettersAreNoSeparators(s: string)
    requires AllLetters(s)
    ensures '=' !in s && '$' !in s && '.' !in s
  {
  }

  // ---------------------------------------------------------- one group of bytes

  /** Two, three or four letters for one, two or three bytes. */
  function EncodeGroup(b: seq<byte>): (s: string)
    requires 1 <= |b| <= 3
    ensures |s| == |b| + 1
  {
    var x := b[0] as int;
    if |b| == 1 then [Letter(x / 4), Letter(x % 4 * 16)]
    else
      var y := b[1] as int;
      if |b| == 2 then [Letter(x / 4), Letter(x % 4 * 16 + y / 16), Letter(y % 16 * 4)]
      else
        var z := b[2] as int;
        [Letter(x / 4), Letter(x % 4 * 16 + y / 16), Letter(y % 16 * 4 + z / 64), Letter(z % 64)]
  }

  function DecodeGroup(s: string): Option<seq<byte>>
    requires 2 <= |s| <= 4
  {
    var p, q := Value(s[0]), Value(s[1]);
    if p.None? || q.None? then None
    else
      var x := (p.value * 4 + q.value / 16) as byte;
      if |s| == 2 then Some([x])
      else
        var r := Value(s[2]);
        if r.None? then None
        else
          var y := (q.value % 16 * 16 + r.value / 4) as byte;
          if |s| == 3 then Some([x, y])
          else
            var t := Value(s[3]);
            if t.None? then None else Some([x, y, (r.value % 4 * 64 + t.value) as byte])
  }

  /** Splitting three bytes into four sextets and back. */
  lemma Sextets(x: nat, y: nat, z: nat)
    requires x < 256 && y < 256 && z < 256
    ensures var p, q, r, t := x / 4, x % 4 * 16 + y / 16, y % 16 * 4 + z / 64, z % 64;
            && p < 64 && q < 64 && r < 64 && t < 64
            && p * 4 + q / 16 == x && q % 16 * 16 + r / 4 == y && r % 4 * 64 + t == z
  {
    assert (x % 4 * 16 + y / 16) / 16 == x % 4 && (x % 4 * 16 + y / 16) % 16 == y / 16;
    assert (y % 16 * 4 + z / 64) / 4 == y % 16 && (y % 16 * 4 + z / 64) % 4 == z / 64;
  }

  lemma GroupOfOne(x: byte)
    ensures DecodeGroup(EncodeGroup([x])) == Some([x]) && AllLetters(EncodeGroup([x]))
  {
    Sextets(x as int, 0, 0);
    LetterIsALetter(x as int / 4);
    LetterIsALetter(x as int % 4 * 16);
  }

  lemma GroupOfTwo(x: byte, y: byte)
    ensures DecodeGroup(EncodeGroup([x, y])) == Some([x, y]) && AllLetters(EncodeGroup([x, y]))
  {
    Sextets(x as int, y as int, 0);
    LetterIsALetter(x as int / 4);
    LetterIsALetter(x as int % 4 * 16 + y as int / 16);
    LetterIsALetter(y as int % 16 * 4);
  }

  lemma FourLetters(p: nat, q: nat, r: nat, t: nat, x: byte, y: byte, z: byte)
    requires p < 64 && q < 64 && r < 64 && t < 64
    requires p * 4 + q / 16 == x as int && q % 16 * 16 + r / 4 == y as int && r % 4 * 64 + t == z as int
    ensures AllLetters([Letter(p), Letter(q), Letter(r), Letter(t)])
    ensures DecodeGroup([Letter(p), Letter(q), Letter(r), Letter(t)]) == Some([x, y, z])
  {
    LetterIsALetter(p);
    LetterIsALetter(q);
    LetterIsALetter(r);
    LetterIsALetter(t);
  }

  lemma EncodeThree(x: byte, y: byte, z: byte, p: nat, q: nat, r: nat, t: nat)
    requires p == x as int / 4 && q == x as int % 4 * 16 + y as int / 16
    requires r == y as int % 16 * 4 + z as int / 64 && t == z as int % 64
    requires p < 64 && q < 64 && r < 64 && t < 64
    ensures EncodeGroup([x, y, z]) == [Letter(p), Letter(q), Letter(r), Letter(t)]
  {
  }

  lemma GroupOfThree(x: byte, y: byte, z: byte)
    ensures DecodeGroup(EncodeGroup([x, y, z])) == Some([x, y, z]) && AllLetters(EncodeGroup([x, y, z]))
  {
    var p, q := x as int / 4, x as int % 4 * 16 + y as int / 16;
    var r, t := y as int % 16 * 4 + z as int / 64, z as int % 64;
    Sextets(x as int, y as int, z as int);
    EncodeThree(x, y, z, p, q, r, t);
    FourLetters(p, q, r, t, x, y, z);
  }

  lemma GroupRoundTrip(b: seq<byte>)
    requires 1 <= |b| <= 3
    ensures DecodeGroup(EncodeGroup(b)) == Some(b)
    ensures AllLetters(EncodeGroup(b))
  {
    if |b| == 1 {
      GroupOfOne(b[0]);
      assert b == [b[0]];
    } else if |b| == 2 {
      GroupOfTwo(b[0], b[1]);
      assert b == [b[0], b[1]];
    } else {
      GroupOfThree(b[0], b[1], b[2]);
      assert b == [b[0], b[1], b[2]];
    }
  }

  // ------------------------------------------------------------- whole strings

  function Pads(n: nat): string {
    if n == 0 then "" else Pads(n - 1) + "="
  }

  /** `urlsafe_b64encode`: the last group is filled up with `=`. */
  function Encode(b: seq<byte>): string {
    if b == [] then ""
    else if |b| < 3 then EncodeGroup(b) + Pads(3 - |b|)
    else EncodeGroup(b[..3]) + Encode(b[3..])
  }

  /** `urlsafe_b64decode` of text in that alphabet; anything else is refused. */
  function Decode(s: string): Option<seq<byte>> {
    if s == "" then Some([])
    else if |s| < 4 then None
    else if |s| == 4 && s[3] == '=' then
      if s[2] == '=' then DecodeGroup(s[..2]) else DecodeGroup(s[..3])
    else
      var head, rest := DecodeGroup(s[..4]), Decode(s[4..]);
      if head.None? || rest.None? then None else Some(head.value + rest.value)
  }

  /** `rstrip(b"=")`. */
  function Unpad(s: string): string {
    if s != "" && s[|s| - 1] == '=' then Unpad(s[..|s| - 1]) else s
  }

  /** `value + "=" * (-len(value) % 4)`. */
  function Repad(s: string): string {
    s + Pads((4 - |s| % 4) % 4)
  }

  lemma DecodePadded(s: string, n: nat)
    requires 1 <= n <= 2 && |s| == 4 - n && AllLetters(s)
    ensures Decode(s + Pads(n)) == DecodeGroup(s)
  {
    LettersAreNoSeparators(s);
    assert Pads(1) == "=" && Pads(2) == Pads(1) + "=";
    assert (s + Pads(n))[..4 - n] == s;
  }

  lemma LastGroup(b: seq<byte>)
    requires 1 <= |b| < 3
    ensures Decode(EncodeGroup(b) + Pads(3 - |b|)) == Some(b)
  {
    GroupRoundTrip(b);
    DecodePadded(EncodeGroup(b), 3 - |b|);
  }

  lemma FullGroup(b: seq<byte>, rest: string)
    requires |b| == 3
    ensures Decode(EncodeGroup(b) + rest) == if Decode(rest).None? then None else Some(b + Decode(rest).value)
  {
    GroupRoundTrip(b);
    var s := EncodeGroup(b);
    assert (s + rest)[..4] == s && (s + rest)[4..] == rest;
    assert Value(s[3]).Some?;
  }

  lemma {:induction false} EncodeRoundTrip(b: seq<byte>)
    ensures Decode(Encode(b)) == Some(b)
  {
    if 0 < |b| < 3 {
      LastGroup(b);
    } else if |b| >= 3 {
      EncodeRoundTrip(b[3..]);
      FullGroup(b[..3], Encode(b[3..]));
      assert b == b[..3] + b[3..];
    }
  }

  lemma {:induction false} UnpadOfPads(s: string, n: nat)
    requires AllLetters(s)
    ensures Unpad(s + Pads(n)) == s
  {
    if n == 0 {
      assert s + Pads(0) == s;
    } else {
      var padded := s + Pads(n);
      assert padded[..|padded| - 1] == s + Pads(n - 1);
      UnpadOfPads(s, n - 1);
    }
  }

  /** The letters of an encoding, without the padding. */
  ghost function Letters(b: seq<byte>): string {
    if b == [] then "" else if |b| < 3 then EncodeGroup(b) else EncodeGroup(b[..3]) + Letters(b[3..])
  }

  ghost function Missing(n: nat): nat {
    (3 - n % 3) % 3
  }

  lemma MissingStep(n: nat, m: nat)
    requires n >= 3
    ensures Missing(n) == Missing(n - 3) && (4 - (4 + m) % 4) % 4 == (4 - m % 4) % 4
  {
  }

  lemma LettersAppend(a: string, b: string)
    requires AllLetters(a) && AllLetters(b)
    ensures AllLetters(a + b)
  {
  }

  lemma {:induction false} LettersAreLetters(b: seq<byte>)
    ensures AllLetters(Letters(b))
  {
    if 0 < |b| < 3 {
      GroupRoundTrip(b);
    } else if |b| >= 3 {
      GroupRoundTrip(b[..3]);
      LettersAreLetters(b[3..]);
      LettersAppend(EncodeGroup(b[..3]), Letters(b[3..]));
    }
  }

  lemma {:induction false} LettersLack(b: seq<byte>)
    ensures Missing(|b|) == (4 - |Letters(b)| % 4) % 4
  {
    if |b| >= 3 {
      LettersLack(b[3..]);
      MissingStep(|b|, |Letters(b[3..])|);
    }
  }

  /** An encoding is letters, and as many pads as they lack to a multiple of four. */
  lemma {:induction false} EncodeIsLettersAndPads(b: seq<byte>)
    ensures Encode(b) == Letters(b) + Pads(Missing(|b|))
  {
    if |b| >= 3 {
      EncodeIsLettersAndPads(b[3..]);
      MissingStep(|b|, 0);
      Associate(EncodeGroup(b[..3]), Letters(b[3..]), Pads(Missing(|b[3..]|)));
    }
  }

  /** Dropping the padding and putting it back loses nothing, for every byte string. */
  lemma UnpaddedRoundTrip(b: seq<byte>)
    ensures Decode(Repad(Unpad(Encode(b)))) == Some(b)
    ensures AllLetters(Unpad(Encode(b)))
  {
    EncodeIsLettersAndPads(b);
    LettersAreLetters(b);
    LettersLack(b);
    UnpadOfPads(Letters(b), Missing(|b|));
    assert Repad(Letters(b)) == Encode(b);
    EncodeRoundTrip(b);
  }

  /** Three of the test vectors of section 10 of RFC 4648. */
  lemma KnownEncodings()
    ensures Encode([0x66]) == "Zg==" && Encode([0x66, 0x6F]) == "Zm8="
  {
    assert Pads(1) == "=" && Pads(2) == Pads(1) + "=";
  }

  lemma KnownGroup()
    ensures Encode([0x66, 0x6F, 0x6F]) == "Zm9v"
  {
    var b: seq<byte> := [0x66, 0x6F, 0x6F];
    assert b[..3] == b && b[3..] == [];
    assert EncodeGroup(b) == "Zm9v";
    assert Encode(b) == EncodeGroup(b) + "";
  }

  /** Two bytes that need the two URL-safe letters. */
  lemma KnownSafeLetters()
    ensures Encode([0xFB, 0xFF]) == "-_8="
  {
    assert Pads(1) == "=";
  }
}
