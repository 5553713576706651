/** The base64 of sections 3.2 and 4 of RFC 4648, as the standard library the repository calls
    implements it: both with padding and without, with line breaks skipped by the decoder and
    with the unused low bits of a final short group ignored. */
module Base64 {
  import opened Common

  /** A Go string is a sequence of bytes; a byte is a character below 256. */
  type Byte = c: char | c as int < 256

  type Bytes = seq<Byte>

  /** A six-bit group. */
  type Sextet = i: int | 0 <= i < 64

  // ----- The alphabet, table 1 of RFC 4648 -----

  function EncodeSextet(v: Sextet): (c: Byte)
    ensures DecodeSextet(c) == Some(v)
  {
    if v < 26 then ('A' as int + v) as char
    else if v < 52 then ('a' as int + v - 26) as char
    else if v < 62 then ('0' as int + v - 52) as char
    else if v == 62 then '+'
    else '/'
  }

  function DecodeSextet(c: char): Option<Sextet> {
    if 'A' <= c <= 'Z' then Some(c as int - 'A' as int)
    else if 'a' <= c <= 'z' then Some(c as int - 'a' as int + 26)
    else if '0' <= c <= '9' then Some(c as int - '0' as int + 52)
    else if c == '+' then Some(62)
    else if c == '/' then Some(63)
    else None
  }

  predicate InAlphabet(c: char) {
    DecodeSextet(c).Some?
  }

  lemma SpecialsOutside()
    ensures !InAlphabet(':') && !InAlphabet('=') && !InAlphabet('\n') && !InAlphabet('\r')
  {
  }

  // ----- Regrouping three bytes as four sextets -----

  function Split(b: Bytes): (s: seq<Sextet>)
    requires 1 <= |b| <= 3
    ensures |s| == |b| + 1
  {
    var v0 := b[0] as int;
    if |b| == 1 then [v0 / 4, v0 % 4 * 16]
    else
      var v1 := b[1] as int;
      if |b| == 2 then [v0 / 4, v0 % 4 * 16 + v1 / 16, v1 % 16 * 4]
      else
        var v2 := b[2] as int;
        [v0 / 4, v0 % 4 * 16 + v1 / 16, v1 % 16 * 4 + v2 / 64, v2 % 64]
  }

  /** The table: A to Z, a to z and 0 to 9 in a row, then + and /. */
  lemma Table(v: Sextet)
    ensures EncodeSextet(0) == 'A' && EncodeSextet(25) == 'Z' && EncodeSextet(26) == 'a' && EncodeSextet(51) == 'z'
    ensures EncodeSextet(52) == '0' && EncodeSextet(61) == '9' && EncodeSextet(62) == '+' && EncodeSextet(63) == '/'
    ensures v < 61 && v != 25 && v != 51 ==> EncodeSextet(v + 1) as int == EncodeSextet(v) as int + 1
  {
  }

  /** The number that sextets stand for, the most significant one first. */
  function Value(s: seq<Sextet>): int {
    if s == [] then 0 else Value(s[..|s| - 1]) * 64 + s[|s| - 1] as int
  }

  /** The sextets are the bits of the bytes in order, filled up with zeros. */
  lemma SplitKeepsBits(b: Bytes)
    requires 1 <= |b| <= 3
    ensures var s := Split(b);
            match |b|
            case 1 => Value([s[0], s[1]]) == b[0] as int * 16
            case 2 => Value([s[0], s[1], s[2]]) == (b[0] as int * 256 + b[1] as int) * 4
            case _ => Value(s) == (b[0] as int * 256 + b[1] as int) * 256 + b[2] as int
  {
    var s := Split(b);
    ValueSnoc([], s[0]);
    ValueSnoc([s[0]], s[1]);
    assert [] + [s[0]] == [s[0]] && [s[0]] + [s[1]] == [s[0], s[1]];
    if |b| > 1 {
      ValueSnoc([s[0], s[1]], s[2]);
      assert [s[0], s[1]] + [s[2]] == [s[0], s[1], s[2]];
    }
    if |b| > 2 {
      ValueSnoc([s[0], s[1], s[2]], s[3]);
      assert s == [s[0], s[1], s[2]] + [s[3]];
    }
  }

  lemma ValueSnoc(s: seq<Sextet>, v: Sextet)
    ensures Value(s + [v]) == Value(s) * 64 + v as int
  {
    assert (s + [v])[..|s|] == s;
  }

  function ByteOf(i: int): Byte
    requires 0 <= i < 256
  {
    i as char
  }

  /** The unused low bits of a short group are dropped. */
  function Join(s: seq<Sextet>): (b: Bytes)
    requires 2 <= |s| <= 4
    ensures |b| == |s| - 1
  {
    var c0, c1 := s[0] as int, s[1] as int;
    var first := ByteOf(c0 * 4 + c1 / 16);
    if |s| == 2 then [first]
    else
      var c2 := s[2] as int;
      var second := ByteOf(c1 % 16 * 16 + c2 / 4);
      if |s| == 3 then [first, second]
      else
        var c3 := s[3] as int;
        [first, second, ByteOf(c2 % 4 * 64 + c3)]
  }

  lemma Sixteens(hi: int, lo: int)
    requires 0 <= lo < 16
    ensures (hi * 16 + lo) / 16 == hi && (hi * 16 + lo) % 16 == lo
  {
  }

  lemma Fours(hi: int, lo: int)
    requires 0 <= lo < 4
    ensures (hi * 4 + lo) / 4 == hi && (hi * 4 + lo) % 4 == lo
  {
  }

  lemma JoinSplit(b: Bytes)
    requires 1 <= |b| <= 3
    ensures Join(Split(b)) == b
  {
    var v0 := b[0] as int;
    if |b| == 1 {
      Sixteens(v0 % 4, 0);
      assert Join(Split(b))[0] == b[0];
    } else {
      var v1 := b[1] as int;
      Sixteens(v0 % 4, v1 / 16);
      if |b| == 2 {
        Fours(v1 % 16, 0);
        assert Join(Split(b))[0] == b[0] && Join(Split(b))[1] == b[1];
      } else {
        var v2 := b[2] as int;
        Fours(v1 % 16, v2 / 64);
        assert Join(Split(b))[0] == b[0] && Join(Split(b))[1] == b[1] && Join(Split(b))[2] == b[2];
      }
    }
  }

  function EncodeSextets(s: seq<Sextet>): (t: Bytes)
    ensures |t| == |s|
    ensures forall i :: 0 <= i < |s| ==> t[i] == EncodeSextet(s[i])
  {
    if s == [] then "" else [EncodeSextet(s[0])] + EncodeSextets(s[1..])
  }

  function DecodeSextets(t: string): (s: Option<seq<Sextet>>)
    ensures s.Some? <==> forall i :: 0 <= i < |t| ==> InAlphabet(t[i])
    ensures s.Some? ==> |s.value| == |t|
    ensures s.Some? ==> forall i :: 0 <= i < |t| ==> DecodeSextet(t[i]) == Some(s.value[i])
  {
    if t == "" then Some([])
    else
      match (DecodeSextet(t[0]), DecodeSextets(t[1..]))
      case (Some(v), Some(rest)) => Some([v] + rest)
      case (_, _) => None
  }

  lemma SextetsRoundTrip(s: seq<Sextet>)
    ensures DecodeSextets(EncodeSextets(s)) == Some(s)
    ensures forall c :: c in EncodeSextets(s) ==> InAlphabet(c)
  {
    var t := EncodeSextets(s);
    assert forall i :: 0 <= i < |t| ==> DecodeSextet(t[i]) == Some(s[i]);
    assert DecodeSextets(t).value == s;
  }

  // ----- Encoding -----

  function Encode(b: Bytes, padded: bool): (s: Bytes)
    decreases |b|
  {
    if |b| == 0 then ""
    else if |b| < 3 then
      EncodeSextets(Split(b)) + (if !padded then "" else if |b| == 1 then "==" else "=")
    else
      EncodeSextets(Split(b[..3])) + Encode(b[3..], padded)
  }

  // ----- Decoding -----

  predicate IsLineBreak(c: char) {
    c == '\n' || c == '\r'
  }

  function StripLineBreaks(s: string): string {
    if s == "" then ""
    else if IsLineBreak(s[0]) then StripLineBreaks(s[1..])
    else [s[0]] + StripLineBreaks(s[1..])
  }

  function Decode(s: string, padded: bool): Option<Bytes> {
    DecodeGroups(StripLineBreaks(s), padded)
  }

  /** Groups of four characters; only the last group may be short, and with padding it must
      be filled up with one or two '='. */
  function DecodeGroups(s: string, padded: bool): Option<Bytes>
    decreases |s|
  {
    if |s| == 0 then Some([])
    else if |s| == 4 && padded && s[2] == '=' && s[3] == '=' then DecodeGroup(s[..2])
    else if |s| == 4 && padded && s[3] == '=' then DecodeGroup(s[..3])
    else if !padded && 2 <= |s| <= 3 then DecodeGroup(s)
    else if |s| < 4 then None
    else
      match (DecodeGroup(s[..4]), DecodeGroups(s[4..], padded))
      case (Some(head), Some(tail)) => Some(head + tail)
      case (_, _) => None
  }

  function DecodeGroup(s: string): Option<Bytes>
    requires 2 <= |s| <= 4
  {
    match DecodeSextets(s)
    case Some(v) => Some(Join(v))
    case None => None
  }

  // ----- Decoding undoes encoding -----

  predicate NoLineBreak(s: string) {
    forall c :: c in s ==> !IsLineBreak(c)
  }

  lemma {:induction false} StripNothing(s: string)
    requires NoLineBreak(s)
    ensures StripLineBreaks(s) == s
  {
    if s != "" {
      StripNothing(s[1..]);
    }
  }

  lemma GroupRoundTrip(b: Bytes)
    requires 1 <= |b| <= 3
    ensures DecodeGroup(EncodeSextets(Split(b))) == Some(b)
    ensures forall c :: c in EncodeSextets(Split(b)) ==> InAlphabet(c)
  {
    SextetsRoundTrip(Split(b));
    JoinSplit(b);
  }

  /** Encoded text holds alphabet characters and padding only, so neither a colon nor a line break. */
  lemma {:induction false} EncodedText(b: Bytes, padded: bool)
    ensures forall c :: c in Encode(b, padded) ==> InAlphabet(c) || (padded && c == '=')
    ensures NoLineBreak(Encode(b, padded)) && ':' !in Encode(b, padded)
    decreases |b|
  {
    SpecialsOutside();
    if 1 <= |b| < 3 {
      GroupRoundTrip(b);
    } else if |b| >= 3 {
      EncodedText(b[3..], padded);
      GroupRoundTrip(b[..3]);
    }
  }

  lemma BareTail(b: Bytes)
    requires 1 <= |b| < 3
    ensures DecodeGroups(Encode(b, false), false) == Some(b)
  {
    hide DecodeGroup, EncodeSextets, Split, InAlphabet;
    var g := EncodeSextets(Split(b));
    GroupRoundTrip(b);
    TailLength(b);
    assert Encode(b, false) == g + "" == g;
  }

  lemma PaddedTail(b: Bytes)
    requires 1 <= |b| < 3
    ensures DecodeGroups(Encode(b, true), true) == Some(b)
  {
    hide DecodeGroup, EncodeSextets, Split, InAlphabet;
    var g := EncodeSextets(Split(b));
    GroupRoundTrip(b);
    TailLength(b);
    SpecialsOutside();
    var s := Encode(b, true);
    assert s == g + if |b| == 1 then "==" else "=";
    assert s[..|g|] == g;
    if |b| == 2 {
      assert s[2] == g[2] && g[2] in g;
    }
  }

  lemma TailLength(b: Bytes)
    requires 1 <= |b| < 3
    ensures |EncodeSextets(Split(b))| == |b| + 1
  {
  }

  lemma TailRoundTrip(b: Bytes, padded: bool)
    requires 1 <= |b| < 3
    ensures DecodeGroups(Encode(b, padded), padded) == Some(b)
  {
    hide DecodeGroups, Encode;
    if padded {
      PaddedTail(b);
    } else {
      BareTail(b);
    }
  }

  lemma HeadRoundTrip(g: string, t: string, padded: bool)
    requires |g| == 4 && forall c :: c in g ==> InAlphabet(c)
    ensures DecodeGroups(g + t, padded)
         == match (DecodeGroup(g), DecodeGroups(t, padded))
            case (Some(head), Some(tail)) => Some(head + tail)
            case (_, _) => None
  {
    SpecialsOutside();
    var s := g + t;
    assert s[..4] == g && s[4..] == t;
    assert s[3] in g;
  }

  lemma {:induction false} GroupsRoundTrip(b: Bytes, padded: bool)
    ensures DecodeGroups(Encode(b, padded), padded) == Some(b)
    decreases |b|
  {
    if 1 <= |b| < 3 {
      TailRoundTrip(b, padded);
    } else if |b| >= 3 {
      GroupsRoundTrip(b[3..], padded);
      GroupRoundTrip(b[..3]);
      HeadRoundTrip(EncodeSextets(Split(b[..3])), Encode(b[3..], padded), padded);
      assert b[..3] + b[3..] == b;
    }
  }

  /** The round trip for every length, padded or not. */
  lemma RoundTrip(b: Bytes, padded: bool)
    ensures Decode(Encode(b, padded), padded) == Some(b)
  {
    EncodedText(b, padded);
    StripNothing(Encode(b, padded));
    GroupsRoundTrip(b, padded);
  }

  /** The encoded length is a function of the input length. */
  function EncodedLength(n: nat, padded: bool): nat {
    if padded then (n + 2) / 3 * 4 else (4 * n + 2) / 3
  }

  lemma LengthStep(n: nat, padded: bool)
    requires n >= 3
    ensures EncodedLength(n, padded) == 4 + EncodedLength(n - 3, padded)
  {
  }

  lemma {:induction false} LengthOfEncoding(b: Bytes, padded: bool)
    ensures |Encode(b, padded)| == EncodedLength(|b|, padded)
    decreases |b|
  {
    if |b| >= 3 {
      assert |EncodeSextets(Split(b[..3]))| == 4;
      LengthOfEncoding(b[3..], padded);
      LengthStep(|b|, padded);
    } else if |b| > 0 {
      assert |EncodeSextets(Split(b))| == |b| + 1;
      assert |b| == 1 || |b| == 2;
    }
  }

  /** A text with a colon is never accepted: the colon is outside the alphabet. */
  lemma {:induction false} ColonRejected(s: string, padded: bool)
    requires ':' in s
    ensures Decode(s, padded).None?
  {
    StripKeepsColon(s);
    GroupsRejectColon(StripLineBreaks(s), padded);
  }

  lemma {:induction false} StripKeepsColon(s: string)
    requires ':' in s
    ensures ':' in StripLineBreaks(s)
  {
    if s[0] != ':' {
      StripKeepsColon(s[1..]);
    }
  }

  lemma {:induction false} GroupsRejectColon(s: string, padded: bool)
    requires ':' in s
    ensures DecodeGroups(s, padded).None?
    decreases |s|
  {
    if |s| > 4 && ':' !in s[..4] {
      assert s == s[..4] + s[4..];
      GroupsRejectColon(s[4..], padded);
    }
  }

  // ----- The test vectors of section 10 of RFC 4648 -----

  lemma ShortGroups()
    ensures EncodeSextets(Split("f")) == "Zg" && EncodeSextets(Split("fo")) == "Zm8"
    ensures EncodeSextets(Split("b")) == "Yg" && EncodeSextets(Split("ba")) == "YmE"
  {
    assert Split("f") == [25, 32] && Split("fo") == [25, 38, 60];
    assert Split("b") == [24, 32] && Split("ba") == [24, 38, 4];
  }

  lemma FullGroups()
    ensures EncodeSextets(Split("foo")) == "Zm9v" && EncodeSextets(Split("bar")) == "YmFy"
  {
    assert Split("foo") == [25, 38, 61, 47];
    assert Split("bar") == [24, 38, 5, 50];
  }

  lemma WholeGroup(b: Bytes, rest: Bytes, padded: bool)
    requires |b| == 3
    ensures Encode(b + rest, padded) == EncodeSextets(Split(b)) + Encode(rest, padded)
  {
    assert (b + rest)[..3] == b && (b + rest)[3..] == rest;
  }

  lemma LastGroup(b: Bytes)
    requires 1 <= |b| < 3
    ensures Encode(b, true) == EncodeSextets(Split(b)) + (if |b| == 1 then "==" else "=")
    ensures Encode(b, false) == EncodeSextets(Split(b))
  {
    assert Encode(b, false) == EncodeSextets(Split(b)) + "";
  }

  lemma Vectors()
    ensures Encode("", true) == "" && Encode("f", true) == "Zg==" && Encode("fo", true) == "Zm8="
    ensures Encode("foo", true) == "Zm9v" && Encode("foob", true) == "Zm9vYg=="
    ensures Encode("fooba", true) == "Zm9vYmE=" && Encode("foobar", true) == "Zm9vYmFy"
    ensures Encode("f", false) == "Zg" && Encode("fo", false) == "Zm8"
  {
    hide Encode, EncodeSextets, Split;
    ShortGroups();
    FullGroups();
    Nothing();
    LastGroup("f");
    LastGroup("fo");
    LastGroup("b");
    LastGroup("ba");
    WholeGroup("bar", "", true);
    WholeGroup("foo", "", true);
    WholeGroup("foo", "b", true);
    WholeGroup("foo", "ba", true);
    WholeGroup("foo", "bar", true);
    assert "foo" + "" == "foo" && "bar" + "" == "bar" && "foo" + "b" == "foob";
    assert "foo" + "ba" == "fooba" && "foo" + "bar" == "foobar";
  }

  lemma Nothing()
    ensures Encode("", true) == ""
  {
  }
}
