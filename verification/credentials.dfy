/** The texts in which credentials are stored or handed out, and what reading them back gives. */
module Credentials {
  import opened Base64Url
  import opened Decimals
  import opened Wrappers

  // ------------------------------------------------------- cutting at separators

  /** `s.split(c, 1)`: the parts around the first separator, if there is one. */
  function Cut(s: string, c: char): (r: Option<(string, string)>)
    ensures r.None? <==> c !in s
    ensures r.Some? ==> c !in r.value.0 && s == r.value.0 + [c] + r.value.1
  {
    if s == "" then None
    else if s[0] == c then Some(("", s[1..]))
    else
      var rest := Cut(s[1..], c);
      if rest.None? then None else Some(([s[0]] + rest.value.0, rest.value.1))
  }

  lemma FirstOfThree(a: string, m: string, b: string)
    requires a != ""
    ensures (a + m + b)[0] == a[0] && (a + m + b)[1..] == a[1..] + m + b && [a[0]] + a[1..] == a
  {
  }

  lemma {:induction false} CutAtFirst(a: string, c: char, b: string)
    requires c !in a
    ensures Cut(a + [c] + b, c) == Some((a, b))
  {
    if a == "" {
      assert a + [c] + b == [c] + b;
      assert ([c] + b)[1..] == b;
    } else {
      CutAtFirst(a[1..], c, b);
      FirstOfThree(a, [c], b);
    }
  }

  // ------------------------------------------------------------- sealed sessions

  /** AES-GCM and JSON, as far as they are used: `verify` is `None` when authentication fails. */
  datatype Cipher<!P> = Cipher(
    dump: P -> seq<byte>,
    load: seq<byte> -> Option<P>,
    seal: (seq<byte>, seq<byte>) -> (seq<byte>, seq<byte>),
    verify: (seq<byte>, seq<byte>, seq<byte>) -> Option<seq<byte>>)

  /** What the libraries promise: tags of 16 bytes, and opening what was sealed under the same nonce. */
  ghost predicate Dependable<P(!new)>(cipher: Cipher<P>) {
    && (forall p :: cipher.load(cipher.dump(p)) == Some(p))
    && forall nonce, raw :: |cipher.seal(nonce, raw).1| == 16
                            && cipher.verify(nonce, cipher.seal(nonce, raw).1, cipher.seal(nonce, raw).0) == Some(raw)
  }

  function Encrypt<P>(payload: P, nonce: seq<byte>, cipher: Cipher<P>): string {
    var (ciphertext, tag) := cipher.seal(nonce, cipher.dump(payload));
    "v1" + ['.'] + Unpad(Encode(nonce + tag + ciphertext))
  }

  /** Slices clip at the end, as in the source. */
  function Slice(raw: seq<byte>, from: nat, to: nat): seq<byte>
    requires from <= to
  {
    if from >= |raw| then [] else if to >= |raw| then raw[from..] else raw[from..to]
  }

  /** The three parts of the frame, or `None` where the source raises. */
  function Frame(value: string): Option<(seq<byte>, seq<byte>, seq<byte>)> {
    var parts := Cut(value, '.');
    if parts.None? || parts.value.0 != "v1" then None
    else
      var raw := Decode(Repad(parts.value.1));
      if raw.None? then None
      else Some((Slice(raw.value, 0, 12), Slice(raw.value, 12, 28), Slice(raw.value, 28, 28 + |raw.value|)))
  }

  function Decrypt<P>(value: string, cipher: Cipher<P>): Option<P> {
    var frame := Frame(value);
    if frame.None? then None
    else
      var raw := cipher.verify(frame.value.0, frame.value.1, frame.value.2);
      if raw.None? then None else cipher.load(raw.value)
  }

  lemma Slices(nonce: seq<byte>, tag: seq<byte>, ciphertext: seq<byte>)
    requires |nonce| == 12 && |tag| == 16
    ensures var raw := nonce + tag + ciphertext;
            Slice(raw, 0, 12) == nonce && Slice(raw, 12, 28) == tag && Slice(raw, 28, 28 + |raw|) == ciphertext
  {
    var raw := nonce + tag + ciphertext;
    assert raw[0..12] == nonce && raw[12..28] == tag && raw[28..] == ciphertext;
  }

  /** The frame gives back the nonce, the tag and the ciphertext that were put into it. */
  lemma FrameRoundTrip(nonce: seq<byte>, tag: seq<byte>, ciphertext: seq<byte>)
    requires |nonce| == 12 && |tag| == 16
    ensures Frame("v1" + ['.'] + Unpad(Encode(nonce + tag + ciphertext))) == Some((nonce, tag, ciphertext))
  {
    UnpaddedRoundTrip(nonce + tag + ciphertext);
    CutAtFirst("v1", '.', Unpad(Encode(nonce + tag + ciphertext)));
    Slices(nonce, tag, ciphertext);
  }

  /** `raw` cut into a nonce of 12 bytes, a tag of 16 and the rest, as far as it goes. */
  ghost predicate IsFrame(raw: seq<byte>, nonce: seq<byte>, tag: seq<byte>, ciphertext: seq<byte>) {
    && raw == nonce + tag + ciphertext && |nonce| <= 12 && |tag| <= 16
    && (|nonce| < 12 ==> tag == []) && (|tag| < 16 ==> ciphertext == [])
  }

  lemma FrameParts(raw: seq<byte>, nonce: seq<byte>, tag: seq<byte>, ciphertext: seq<byte>)
    ensures IsFrame(raw, nonce, tag, ciphertext)
       <==> (nonce, tag, ciphertext) == (Slice(raw, 0, 12), Slice(raw, 12, 28), Slice(raw, 28, 28 + |raw|))
  {
    var n, m := if |raw| < 12 then |raw| else 12, if |raw| < 28 then |raw| else 28;
    assert raw == raw[..n] + raw[n..m] + raw[m..];
    assert Slice(raw, 0, 12) == raw[..n] && Slice(raw, 12, 28) == raw[n..m] && Slice(raw, 28, 28 + |raw|) == raw[m..];
    if IsFrame(raw, nonce, tag, ciphertext) {
      assert raw[..|nonce|] == nonce && raw[|nonce|..|nonce| + |tag|] == tag && raw[|nonce| + |tag|..] == ciphertext;
    }
  }

  /** What is read as a frame: the version, a dot, and unpadded base64 of the three parts. */
  lemma FrameIff(value: string, nonce: seq<byte>, tag: seq<byte>, ciphertext: seq<byte>)
    ensures Frame(value) == Some((nonce, tag, ciphertext))
       <==> exists body, raw :: value == "v1" + ['.'] + body && Decode(Repad(body)) == Some(raw)
                                && IsFrame(raw, nonce, tag, ciphertext)
  {
    if Frame(value) == Some((nonce, tag, ciphertext)) {
      FrameParts(Decode(Repad(Cut(value, '.').value.1)).value, nonce, tag, ciphertext);
    }
    if body, raw :| && value == "v1" + ['.'] + body && Decode(Repad(body)) == Some(raw)
                    && IsFrame(raw, nonce, tag, ciphertext) {
      CutAtFirst("v1", '.', body);
      FrameParts(raw, nonce, tag, ciphertext);
    }
  }

  /** Reading back a stored session gives the session. */
  lemma SessionRoundTrip<P(!new)>(payload: P, nonce: seq<byte>, cipher: Cipher<P>)
    requires Dependable(cipher) && |nonce| == 12
    ensures Decrypt(Encrypt(payload, nonce, cipher), cipher) == Some(payload)
  {
    var sealed := cipher.seal(nonce, cipher.dump(payload));
    FrameRoundTrip(nonce, sealed.1, sealed.0);
  }

  // ------------------------------------------------------ service-account records

  const ALGORITHM := "pbkdf2-sha256"

  /** `kdf` is PBKDF2 of a secret with a salt and a number of iterations. */
  type Kdf = (string, seq<byte>, nat) -> seq<byte>

  /** A secret under 32 characters is refused. */
  function HashSecret(secret: string, iterations: nat, salt: seq<byte>, kdf: Kdf): Option<string> {
    if |secret| < 32 then None
    else Some(ALGORITHM + ['$'] + (Decimal(iterations) + ['$'] + (Encode(salt) + ['$'] + Encode(kdf(secret, salt, iterations)))))
  }

  /** `encoded.split("$", 3)` into exactly four parts. */
  function Fields(encoded: string): Option<(string, string, string, string)> {
    var a := Cut(encoded, '$');
    if a.None? then None
    else
      var b := Cut(a.value.1, '$');
      if b.None? then None
      else
        var c := Cut(b.value.1, '$');
        if c.None? then None else Some((a.value.0, b.value.0, c.value.0, c.value.1))
  }

  predicate VerifySecret(secret: string, encoded: string, kdf: Kdf) {
    var fields := Fields(encoded);
    if fields.None? || fields.value.0 != ALGORITHM then false
    else
      var iterations := ParseDecimal(fields.value.1);
      if iterations.None? || iterations.value < 100_000 || iterations.value > 2_000_000 then false
      else
        var salt, expected := Decode(fields.value.2), Decode(fields.value.3);
        salt.Some? && expected.Some? && kdf(secret, salt.value, iterations.value) == expected.value
  }

  lemma FieldsOfRecord(a: string, b: string, c: string, d: string)
    requires '$' !in a && '$' !in b && '$' !in c
    ensures Fields(a + ['$'] + (b + ['$'] + (c + ['$'] + d))) == Some((a, b, c, d))
  {
    CutAtFirst(a, '$', b + ['$'] + (c + ['$'] + d));
    CutAtFirst(b, '$', c + ['$'] + d);
    CutAtFirst(c, '$', d);
  }

  lemma EncodedHoldsNoDollar(b: seq<byte>)
    ensures '$' !in Encode(b)
  {
    EncodeIsLettersAndPads(b);
    LettersAreLetters(b);
    LettersAreNoSeparators(Letters(b));
    PadsHoldNoDollar(Missing(|b|));
  }

  lemma {:induction false} PadsHoldNoDollar(n: nat)
    ensures '$' !in Pads(n)
  {
    if n > 0 {
      PadsHoldNoDollar(n - 1);
    }
  }

  /** A record verifies a secret exactly when its iterations are in range and the secret derives the
      same key as the one it was made from; so it verifies that one exactly when they are in range. */
  lemma RecordVerifies(secret: string, presented: string, iterations: nat, salt: seq<byte>, kdf: Kdf)
    requires |secret| >= 32
    ensures HashSecret(secret, iterations, salt, kdf).Some?
    ensures VerifySecret(presented, HashSecret(secret, iterations, salt, kdf).value, kdf)
       <==> 100_000 <= iterations <= 2_000_000 && kdf(presented, salt, iterations) == kdf(secret, salt, iterations)
  {
    var digest := kdf(secret, salt, iterations);
    DecimalRoundTrip(iterations);
    EncodeRoundTrip(salt);
    EncodeRoundTrip(digest);
    EncodedHoldsNoDollar(salt);
    FieldsOfRecord(ALGORITHM, Decimal(iterations), Encode(salt), Encode(digest));
  }

  ghost predicate IsRecord(encoded: string, a: string, b: string, c: string, d: string) {
    encoded == a + ['$'] + (b + ['$'] + (c + ['$'] + d)) && '$' !in a && '$' !in b && '$' !in c
  }

  ghost predicate Derives(secret: string, number: string, salt: string, key: string, kdf: Kdf) {
    exists n: nat, raw :: && ParseDecimal(number) == Some(n) && 100_000 <= n <= 2_000_000
                          && Decode(salt) == Some(raw) && Decode(key) == Some(kdf(secret, raw, n))
  }

  lemma FieldsIff(encoded: string, a: string, b: string, c: string, d: string)
    ensures Fields(encoded) == Some((a, b, c, d)) <==> IsRecord(encoded, a, b, c, d)
  {
    if IsRecord(encoded, a, b, c, d) {
      FieldsOfRecord(a, b, c, d);
    }
  }

  lemma VerifiesFields(secret: string, encoded: string, kdf: Kdf)
    ensures VerifySecret(secret, encoded, kdf)
       <==> && Fields(encoded).Some? && Fields(encoded).value.0 == ALGORITHM
            && Derives(secret, Fields(encoded).value.1, Fields(encoded).value.2, Fields(encoded).value.3, kdf)
  {
  }

  /** Whatever text is presented as a record: it verifies a secret exactly when it is the algorithm's name, a number in
      range, a salt and the key that the secret derives with them. */
  lemma VerifiesIff(secret: string, encoded: string, kdf: Kdf)
    ensures VerifySecret(secret, encoded, kdf)
       <==> exists b, c, d :: IsRecord(encoded, ALGORITHM, b, c, d) && Derives(secret, b, c, d, kdf)
  {
    VerifiesFields(secret, encoded, kdf);
    if VerifySecret(secret, encoded, kdf) {
      var f := Fields(encoded).value;
      FieldsIff(encoded, f.0, f.1, f.2, f.3);
    }
    if b, c, d :| IsRecord(encoded, ALGORITHM, b, c, d) && Derives(secret, b, c, d, kdf) {
      FieldsIff(encoded, ALGORITHM, b, c, d);
    }
  }

  // -------------------------------------------------------------------- API keys

  const KEY_PREFIX := "sa_"

  /** The key that is shown once. */
  function MakeKey(id: string, secret: string): string {
    KEY_PREFIX + (id + ['_'] + secret)
  }

  /** The account and the secret a key names, when it has the right shape. */
  function ParseKey(key: string): Option<(string, string)> {
    if |key| < 3 || key[..3] != KEY_PREFIX then None
    else
      var parts := Cut(key[3..], '_');
      if parts.None? || |parts.value.0| != 36 || |parts.value.1| < 32 then None else parts
  }

  /** A key names the account and secret it was made from exactly when the identifier has 36 characters
      and no underscore and the secret at least 32 characters, underscores or not. */
  lemma KeyRoundTrip(id: string, secret: string)
    ensures ParseKey(MakeKey(id, secret)) == Some((id, secret)) <==> '_' !in id && |id| == 36 && |secret| >= 32
  {
    var key := MakeKey(id, secret);
    assert key[..3] == KEY_PREFIX && key[3..] == id + ['_'] + secret;
    if '_' !in id {
      CutAtFirst(id, '_', secret);
    }
  }

  /** Nothing else is read as a key. */
  lemma ParsedKeysAreMade(key: string, id: string, secret: string)
    ensures ParseKey(key) == Some((id, secret))
       <==> key == MakeKey(id, secret) && '_' !in id && |id| == 36 && |secret| >= 32
  {
    if ParseKey(key) == Some((id, secret)) {
      assert key == key[..3] + key[3..];
    }
    KeyRoundTrip(id, secret);
  }

  /** Two well-formed accounts never share a key. */
  lemma KeysAreUnambiguous(id: string, secret: string, id': string, secret': string)
    requires '_' !in id && '_' !in id' && MakeKey(id, secret) == MakeKey(id', secret')
    ensures id == id' && secret == secret'
  {
    var key := MakeKey(id, secret);
    assert key[3..] == id + ['_'] + secret && key[3..] == id' + ['_'] + secret';
    CutAtFirst(id, '_', secret);
    CutAtFirst(id', '_', secret');
  }
}
