/** pkg/crypto/encrypt.go: the wire format of an encrypted value, and encryption over an
    abstract pair of AEAD ciphers. */
module Crypto {
  import opened Common
  import opened Base64

  const XCHACHA: Bytes := "xchacha20-poly1305"
  const CHACHA: Bytes := "chacha20-poly1305"
  const PREFIX: Bytes := "tsecret:"
  const KEY_SIZE: nat := 32

  /** Poly1305 appends a tag of 16 bytes. */
  const TAG_SIZE: nat := 16

  /** A cipher as section 2.8 of RFC 8439 presents it; key, nonce and text are the arguments. */
  datatype Aead = Aead(
    nonceSize: nat,
    seal: (Bytes, Bytes, Bytes) -> Bytes,
    open: (Bytes, Bytes, Bytes) -> Option<Bytes>)
  {
    /** What the library promises: opening undoes sealing, and sealing only adds the tag. */
    ghost predicate Lawful() {
      forall key, nonce, text :: |key| == KEY_SIZE && |nonce| == nonceSize ==>
        && open(key, nonce, seal(key, nonce, text)) == Some(text)
        && |seal(key, nonce, text)| == |text| + TAG_SIZE
    }
  }

  /** The two ciphers the package chooses from. */
  datatype Ciphers = Ciphers(xchacha: Aead, chacha: Aead) {
    ghost predicate Lawful() {
      xchacha.Lawful() && xchacha.nonceSize == 24 && chacha.Lawful() && chacha.nonceSize == 12
    }
  }

  /** A cipher that appends a blank tag and hides nothing. */
  function ToyCipher(nonceSize: nat, tag: Bytes): Aead {
    Aead(nonceSize, (key, nonce, text) => text + tag,
         (key, nonce, sealed) => if |sealed| < TAG_SIZE then None else Some(sealed[..|sealed| - TAG_SIZE]))
  }

  lemma ToyIsLawful(nonceSize: nat, tag: Bytes)
    requires |tag| == TAG_SIZE
    ensures ToyCipher(nonceSize, tag).Lawful()
  {
    var c := ToyCipher(nonceSize, tag);
    forall key: Bytes, nonce: Bytes, text: Bytes
      ensures c.open(key, nonce, c.seal(key, nonce, text)) == Some(text)
    {
      assert (text + tag)[..|text|] == text;
    }
  }

  /** The laws can be met, so what is proved under them is not empty. */
  lemma LawsCanBeMet()
    ensures exists ciphers: Ciphers :: ciphers.Lawful()
  {
    var tag: Bytes := seq(TAG_SIZE, i => ' ');
    ToyIsLawful(24, tag);
    ToyIsLawful(12, tag);
    assert Ciphers(ToyCipher(24, tag), ToyCipher(12, tag)).Lawful();
  }

  predicate IsSupported(algorithm: string) {
    algorithm == XCHACHA || algorithm == CHACHA
  }

  function NonceSize(algorithm: string): nat {
    if algorithm == XCHACHA then 24 else 12
  }

  function NewAead(ciphers: Ciphers, key: Bytes, algorithm: string): Result<Aead> {
    if |key| != KEY_SIZE then Err("wrong key size")
    else if algorithm == XCHACHA then Ok(ciphers.xchacha)
    else if algorithm == CHACHA then Ok(ciphers.chacha)
    else Err("unsupported algorithm")
  }

  // ----- Printing -----

  function Parts(algorithm: Bytes, nonceText: Bytes, sealedText: Bytes): Bytes {
    algorithm + [':'] + (nonceText + [':'] + sealedText)
  }

  function Payload(algorithm: Bytes, nonce: Bytes, sealed: Bytes): Bytes {
    PREFIX + Parts(algorithm, Encode(nonce, false), Encode(sealed, false))
  }

  /** The text stored in a TSecret entry. */
  function Print(algorithm: Bytes, nonce: Bytes, sealed: Bytes): Bytes {
    Encode(Payload(algorithm, nonce, sealed), true)
  }

  /** `random` is what the random source yields; a source that runs dry is an error. */
  function Encrypt(ciphers: Ciphers, text: Bytes, key: Bytes, algorithm: Bytes, random: Bytes): Result<Bytes> {
    match NewAead(ciphers, key, algorithm)
    case Err(e) => Err(e)
    case Ok(aead) =>
      if |random| < aead.nonceSize then Err("failed to generate nonce")
      else
        var nonce := random[..aead.nonceSize];
        Ok(Print(algorithm, nonce, aead.seal(key, nonce, text)))
  }

  // ----- Parsing -----

  datatype Parsed = Parsed(algorithm: Bytes, nonce: Bytes, sealed: Bytes)

  /** The text before the first occurrence of c and the text after it. */
  function Cut(s: Bytes, c: char): Option<(Bytes, Bytes)> {
    if s == [] then None
    else if s[0] == c then Some(([], s[1..]))
    else
      match Cut(s[1..], c)
      case Some((before, after)) => Some(([s[0]] + before, after))
      case None => None
  }

  function Parse(value: string): Result<Parsed> {
    match Decode(value, true)
    case None => Err("failed to decode outer base64")
    case Some(raw) =>
      if !(PREFIX <= raw) then Err("missing prefix")
      else ParseParts(raw[|PREFIX|..])
  }

  function ParseParts(body: Bytes): Result<Parsed> {
    match Cut(body, ':')
    case None => Err("expected 3 parts after prefix")
    case Some((algorithm, rest)) =>
      match Cut(rest, ':')
      case None => Err("expected 3 parts after prefix")
      case Some((nonceText, sealedText)) =>
        match (Decode(nonceText, false), Decode(sealedText, false))
        case (None, _) => Err("failed to decode nonce")
        case (_, None) => Err("failed to decode ciphertext")
        case (Some(nonce), Some(sealed)) => Ok(Parsed(algorithm, nonce, sealed))
  }

  predicate IsValidEncryptedValue(value: string) {
    match Parse(value)
    case Ok(p) => IsSupported(p.algorithm)
    case Err(_) => false
  }

  /** The library's Open stops the program on a nonce of the wrong size. */
  datatype Outcome = Plain(text: Bytes) | Failed(error: string) | Panicked

  function Decrypt(ciphers: Ciphers, value: string, key: Bytes): Outcome {
    match Parse(value)
    case Err(e) => Failed(e)
    case Ok(p) =>
      match NewAead(ciphers, key, p.algorithm)
      case Err(e) => Failed(e)
      case Ok(aead) =>
        if |p.nonce| != aead.nonceSize then Panicked
        else
          match aead.open(key, p.nonce, p.sealed)
          case Some(text) => Plain(text)
          case None => Failed("decryption failed")
  }

  // ----- The parser undoes the printer -----

  lemma {:induction false} CutConcat(before: Bytes, c: Byte, after: Bytes)
    requires c !in before
    ensures Cut(before + [c] + after, c) == Some((before, after))
  {
    var s := before + [c] + after;
    if before == [] {
      assert s[1..] == after;
    } else {
      assert s[1..] == before[1..] + [c] + after;
      CutConcat(before[1..], c, after);
      assert [before[0]] + before[1..] == before;
    }
  }

  lemma {:induction false} CutSound(s: Bytes, c: Byte)
    ensures match Cut(s, c)
            case Some((before, after)) => s == before + [c] + after && c !in before
            case None => c !in s
  {
    if s != [] && s[0] != c {
      CutSound(s[1..], c);
    }
  }

  lemma PartsRoundTrip(algorithm: Bytes, nonceText: Bytes, sealedText: Bytes)
    requires ':' !in algorithm && ':' !in nonceText
    requires Decode(nonceText, false).Some? && Decode(sealedText, false).Some?
    ensures ParseParts(Parts(algorithm, nonceText, sealedText))
         == Ok(Parsed(algorithm, Decode(nonceText, false).value, Decode(sealedText, false).value))
  {
    CutConcat(algorithm, ':', nonceText + [':'] + sealedText);
    CutConcat(nonceText, ':', sealedText);
  }

  /** Every triple whose algorithm name holds no colon survives printing and parsing. */
  lemma ParsePrint(algorithm: Bytes, nonce: Bytes, sealed: Bytes)
    requires ':' !in algorithm
    ensures Parse(Print(algorithm, nonce, sealed)) == Ok(Parsed(algorithm, nonce, sealed))
  {
    var raw := Payload(algorithm, nonce, sealed);
    var nonceText, sealedText := Encode(nonce, false), Encode(sealed, false);
    RoundTrip(raw, true);
    RoundTrip(nonce, false);
    RoundTrip(sealed, false);
    EncodedText(nonce, false);
    PrefixAndRest(PREFIX, Parts(algorithm, nonceText, sealedText));
    PartsRoundTrip(algorithm, nonceText, sealedText);
  }

  lemma PrefixAndRest(p: Bytes, rest: Bytes)
    ensures p <= p + rest && (p + rest)[|p|..] == rest
  {
  }

  lemma SupportedHasNoColon(algorithm: Bytes)
    requires IsSupported(algorithm)
    ensures ':' !in algorithm
  {
  }

  /** Encryption succeeds exactly on a key of 32 bytes, a supported algorithm and enough
      randomness; decrypting with the same key then gives the text back, and the value passes
      the format check. */
  lemma DecryptEncrypt(ciphers: Ciphers, text: Bytes, key: Bytes, algorithm: Bytes, random: Bytes)
    requires ciphers.Lawful()
    ensures Encrypt(ciphers, text, key, algorithm, random).Ok?
       <==> |key| == KEY_SIZE && IsSupported(algorithm)
            && |random| >= NonceSize(algorithm)
    ensures Encrypt(ciphers, text, key, algorithm, random).Ok? ==>
              var value := Encrypt(ciphers, text, key, algorithm, random).value;
              Decrypt(ciphers, value, key) == Plain(text) && IsValidEncryptedValue(value)
  {
    var result := Encrypt(ciphers, text, key, algorithm, random);
    if result.Ok? {
      var aead := NewAead(ciphers, key, algorithm).value;
      var nonce := random[..aead.nonceSize];
      SupportedHasNoColon(algorithm);
      ParsePrint(algorithm, nonce, aead.seal(key, nonce, text));
    }
  }

  /** The cipher that an algorithm's name stands for. */
  function CipherFor(ciphers: Ciphers, algorithm: Bytes): Aead {
    if algorithm == "chacha20-poly1305" then ciphers.chacha else ciphers.xchacha
  }

  /** What an encrypted value holds: the algorithm's name, the first bytes of the random source as its nonce,
      24 or 12 of them, and the text that the algorithm's cipher seals with key and nonce. */
  lemma EncryptedParts(ciphers: Ciphers, text: Bytes, key: Bytes, algorithm: Bytes, random: Bytes)
    requires ciphers.Lawful() && Encrypt(ciphers, text, key, algorithm, random).Ok?
    ensures |random| >= if algorithm == "xchacha20-poly1305" then 24 else 12
    ensures var nonce := random[..if algorithm == "xchacha20-poly1305" then 24 else 12];
            Parse(Encrypt(ciphers, text, key, algorithm, random).value)
            == Ok(Parsed(algorithm, nonce, CipherFor(ciphers, algorithm).seal(key, nonce, text)))
  {
    var aead := NewAead(ciphers, key, algorithm).value;
    var nonce := random[..aead.nonceSize];
    SupportedHasNoColon(algorithm);
    NamesDiffer();
    ParsePrint(algorithm, nonce, aead.seal(key, nonce, text));
  }

  /** When decryption gives a text, and which. */
  lemma DecryptIff(ciphers: Ciphers, value: string, key: Bytes, text: Bytes)
    requires ciphers.Lawful()
    ensures Decrypt(ciphers, value, key) == Plain(text)
       <==> (&& Parse(value).Ok? && |key| == 32
             && var p := Parse(value).value;
                && (p.algorithm == "xchacha20-poly1305" || p.algorithm == "chacha20-poly1305")
                && |p.nonce| == (if p.algorithm == "xchacha20-poly1305" then 24 else 12)
                && CipherFor(ciphers, p.algorithm).open(key, p.nonce, p.sealed) == Some(text))
  {
    hide Parse;
    NamesDiffer();
  }

  lemma NamesDiffer()
    ensures XCHACHA != CHACHA
  {
    assert XCHACHA[0] == 'x' && CHACHA[0] == 'c';
  }

  /** Nonces are as fresh as the random source: values made with different random bytes differ, whatever
      the texts and keys, also if one text is encrypted twice. */
  lemma FreshValues(ciphers: Ciphers, text: Bytes, key: Bytes, random: Bytes, text': Bytes, key': Bytes,
                    random': Bytes, algorithm: Bytes)
    requires ciphers.Lawful()
    requires Encrypt(ciphers, text, key, algorithm, random).Ok?
    requires Encrypt(ciphers, text', key', algorithm, random').Ok?
    requires |random| >= NonceSize(algorithm) && |random'| >= NonceSize(algorithm)
    requires random[..NonceSize(algorithm)] != random'[..NonceSize(algorithm)]
    ensures Encrypt(ciphers, text, key, algorithm, random).value
         != Encrypt(ciphers, text', key', algorithm, random').value
  {
    hide Encrypt, Parse;
    EncryptedParts(ciphers, text, key, algorithm, random);
    EncryptedParts(ciphers, text', key', algorithm, random');
  }

  /** Two different triples never print alike. */
  lemma PrintInjective(a: Parsed, b: Parsed)
    requires ':' !in a.algorithm && ':' !in b.algorithm
    requires Print(a.algorithm, a.nonce, a.sealed) == Print(b.algorithm, b.nonce, b.sealed)
    ensures a == b
  {
    ParsePrint(a.algorithm, a.nonce, a.sealed);
    ParsePrint(b.algorithm, b.nonce, b.sealed);
  }

  function WireLength(algorithm: nat, nonce: nat, sealed: nat): nat {
    EncodedLength(|PREFIX| + algorithm + 2 + EncodedLength(nonce, false) + EncodedLength(sealed, false), true)
  }

  /** An encrypted value's length depends on nothing but the algorithm and the length of the text: not on
      the text itself, the key or the randomness. */
  lemma EncryptLength(ciphers: Ciphers, text: Bytes, key: Bytes, algorithm: Bytes, random: Bytes)
    requires ciphers.Lawful()
    requires |key| == KEY_SIZE && IsSupported(algorithm) && |random| >= NonceSize(algorithm)
    ensures Encrypt(ciphers, text, key, algorithm, random).Ok?
    ensures |Encrypt(ciphers, text, key, algorithm, random).value|
         == WireLength(|algorithm|, NonceSize(algorithm), |text| + TAG_SIZE)
  {
    hide Print, WireLength;
    var aead := NewAead(ciphers, key, algorithm).value;
    var nonce := random[..aead.nonceSize];
    PrintLength(algorithm, nonce, aead.seal(key, nonce, text));
  }

  lemma PrintLength(algorithm: Bytes, nonce: Bytes, sealed: Bytes)
    ensures |Print(algorithm, nonce, sealed)|
         == WireLength(|algorithm|, |nonce|, |sealed|)
  {
    hide Encode, EncodedLength;
    LengthOfEncoding(nonce, false);
    LengthOfEncoding(sealed, false);
    LengthOfEncoding(Payload(algorithm, nonce, sealed), true);
  }

  // ----- The grammar the parser accepts -----

  /** raw is the prefix, an algorithm name and two parts in unpadded base64, separated by colons. */
  ghost predicate Grammar(raw: Bytes, algorithm: Bytes, nonceText: Bytes, sealedText: Bytes) {
    && raw == "tsecret:" + (algorithm + ":" + (nonceText + ":" + sealedText))
    && ':' !in algorithm
    && Decode(nonceText, false).Some?
    && Decode(sealedText, false).Some?
  }

  lemma ParseSound(value: string) returns (nonceText: Bytes, sealedText: Bytes)
    requires Parse(value).Ok?
    ensures Decode(value, true).Some?
    ensures Grammar(Decode(value, true).value, Parse(value).value.algorithm, nonceText, sealedText)
    ensures Decode(nonceText, false) == Some(Parse(value).value.nonce)
    ensures Decode(sealedText, false) == Some(Parse(value).value.sealed)
  {
    var raw := Decode(value, true).value;
    var body := raw[|PREFIX|..];
    assert raw == PREFIX + body;
    CutSound(body, ':');
    var (algorithm, rest) := Cut(body, ':').value;
    CutSound(rest, ':');
    var pair := Cut(rest, ':').value;
    nonceText, sealedText := pair.0, pair.1;
    assert body == Parts(algorithm, nonceText, sealedText);
  }

  lemma ParseComplete(value: string, algorithm: Bytes, nonceText: Bytes, sealedText: Bytes)
    requires Decode(value, true).Some?
    requires Grammar(Decode(value, true).value, algorithm, nonceText, sealedText)
    ensures Parse(value)
         == Ok(Parsed(algorithm, Decode(nonceText, false).value, Decode(sealedText, false).value))
  {
    if ':' in nonceText {
      ColonRejected(nonceText, false);
    }
    PrefixAndRest(PREFIX, Parts(algorithm, nonceText, sealedText));
    PartsRoundTrip(algorithm, nonceText, sealedText);
  }

  /** The format check accepts exactly the grammar with a supported algorithm. */
  lemma ValidIff(value: string)
    ensures IsValidEncryptedValue(value)
       <==> (Decode(value, true).Some?
             && exists algorithm: Bytes, nonceText: Bytes, sealedText: Bytes ::
                  IsSupported(algorithm)
                  && Grammar(Decode(value, true).value, algorithm, nonceText, sealedText))
  {
    if IsValidEncryptedValue(value) {
      var nonceText, sealedText := ParseSound(value);
    } else if Decode(value, true).Some? {
      forall algorithm: Bytes, nonceText: Bytes, sealedText: Bytes |
        IsSupported(algorithm) && Grammar(Decode(value, true).value, algorithm, nonceText, sealedText)
        ensures false
      {
        ParseComplete(value, algorithm, nonceText, sealedText);
      }
    }
  }

  /** Printing a parsed value in canonical form and parsing it again changes nothing, although
      many texts parse alike (line breaks and spare low bits are ignored). */
  lemma Canonical(value: string)
    requires Parse(value).Ok?
    ensures var p := Parse(value).value;
            Parse(Print(p.algorithm, p.nonce, p.sealed)) == Ok(p)
  {
    var nonceText, sealedText := ParseSound(value);
    var p := Parse(value).value;
    ParsePrint(p.algorithm, p.nonce, p.sealed);
  }

  /** A value that passes the format check can still stop the decrypting program: it does so, with
      a key of the right size, exactly when its nonce does not fit its algorithm. */
  lemma PanicsIff(ciphers: Ciphers, value: string, key: Bytes)
    requires ciphers.Lawful() && |key| == KEY_SIZE
    ensures Decrypt(ciphers, value, key).Panicked?
       <==> (IsValidEncryptedValue(value)
             && |Parse(value).value.nonce| != NonceSize(Parse(value).value.algorithm))
  {
  }

  lemma PanicExample(ciphers: Ciphers, key: Bytes)
    requires ciphers.Lawful() && |key| == KEY_SIZE
    ensures IsValidEncryptedValue(Print(XCHACHA, [], []))
    ensures Decrypt(ciphers, Print(XCHACHA, [], []), key).Panicked?
  {
    SupportedHasNoColon(XCHACHA);
    ParsePrint(XCHACHA, [], []);
  }
}
