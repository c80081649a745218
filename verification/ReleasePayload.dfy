/**
  The payload of a signed manifest: base64url text without its padding (sections 3.2, 4 and 5 of RFC 4648).
  The code puts the padding back by the length of the text and leaves the rest to the library decoder, which
  skips characters outside the alphabet.
 */
module ReleasePayload {
  import opened Wrappers

  type Byte = x: int | 0 <= x < 256

  type Sextet = x: int | 0 <= x < 64

  // ---------------------------------------------------------------- the alphabet

  function Letter(v: Sextet): char {
    if v < 26 then 'A' + v as char
    else if v < 52 then 'a' + (v - 26) as char
    else if v < 62 then '0' + (v - 52) as char
    else if v == 62 then '-' else '_'
  }

  /** The decoder maps '-' and '_' to '+' and '/' first, so it takes both pairs. */
  function ValueOf(c: char): Option<Sextet> {
    if 'A' <= c <= 'Z' then Some((c - 'A') as int)
    else if 'a' <= c <= 'z' then Some((c - 'a') as int + 26)
    else if '0' <= c <= '9' then Some((c - '0') as int + 52)
    else if c == '-' || c == '+' then Some(62)
    else if c == '_' || c == '/' then Some(63)
    else None
  }

  lemma LetterReadsBack(v: Sextet)
    ensures ValueOf(Letter(v)) == Some(v) && Letter(v) != '='
  {
  }

  /** Table 2 of RFC 4648: four runs of consecutive characters, of which the last two have one each. */
  lemma AlphabetOfTheStandard(v: Sextet)
    ensures Letter(0) == 'A' && Letter(25) == 'Z' && Letter(26) == 'a' && Letter(51) == 'z'
    ensures Letter(52) == '0' && Letter(61) == '9' && Letter(62) == '-' && Letter(63) == '_'
    ensures v !in {25, 51, 61, 62, 63} ==> Letter(v + 1) == Letter(v) + 1 as char
  {
  }

  // ---------------------------------------------------------------- encoding

  function Pads(n: nat): string {
    if n == 0 then "" else Pads(n - 1) + "="
  }

  /** The text without padding: four letters for three bytes, and two or three for what is left over. */
  function Unpadded(bytes: seq<Byte>): string {
    if |bytes| == 0 then ""
    else if |bytes| == 1 then [Letter(bytes[0] / 4), Letter(bytes[0] % 4 * 16)]
    else
      var start := [Letter(bytes[0] / 4), Letter(bytes[0] % 4 * 16 + bytes[1] / 16)];
      if |bytes| == 2 then start + [Letter(bytes[1] % 16 * 4)]
      else start + [Letter(bytes[1] % 16 * 4 + bytes[2] / 64), Letter(bytes[2] % 64)] + Unpadded(bytes[3..])
  }

  /** What the last group lacks. */
  function Lacking(n: nat): nat {
    if n % 3 == 0 then 0 else 3 - n % 3
  }

  /** `urlsafe_b64encode`: the last group is filled up to four characters. */
  function Encode(bytes: seq<Byte>): string {
    Unpadded(bytes) + Pads(Lacking(|bytes|))
  }

  /** `rstrip("=")`. */
  function Stripped(s: string): string {
    if s != "" && s[|s| - 1] == '=' then Stripped(s[..|s| - 1]) else s
  }

  // ---------------------------------------------------------------- decoding

  /** Where the decoder stands: how many letters of the group it has read, the bits left over, and the bytes so far. */
  datatype Reader = Reader(quad: nat, left: int, pads: nat, bytes: seq<int>)

  const START := Reader(0, 0, 0, [])

  function Next(r: Reader, v: Sextet): Reader {
    match r.quad
    case 0 => Reader(1, v, 0, r.bytes)
    case 1 => Reader(2, v % 16, 0, r.bytes + [r.left * 4 + v / 16])
    case 2 => Reader(3, v % 4, 0, r.bytes + [r.left * 16 + v / 4])
    case _ => Reader(0, 0, 0, r.bytes + [r.left * 64 + v])
  }

  /** The library decoder, from one character on; None is its error. */
  function Read(s: string, r: Reader): Option<seq<int>> {
    if s == "" then if r.quad == 0 then Some(r.bytes) else None
    else if s[0] == '=' then
      if r.quad < 2 then Read(s[1..], r)
      else if r.quad + r.pads + 1 >= 4 then Some(r.bytes)
      else Read(s[1..], r.(pads := r.pads + 1))
    else match ValueOf(s[0])
         case None => Read(s[1..], r)
         case Some(v) => Read(s[1..], Next(r, v))
  }

  /** Minus the length, modulo four: how much padding the code adds. */
  function Missing(n: nat): nat {
    (0 - n) % 4
  }

  predicate IsAscii(s: string) {
    forall c :: c in s ==> c <= '\U{7F}'
  }

  /** `decode_signed_payload`, as far as the bytes. */
  function DecodePayload(payload: string): Option<seq<int>> {
    if !IsAscii(payload) then None else Read(payload + Pads(Missing(|payload|)), START)
  }

  // ---------------------------------------------------------------- padding

  lemma {:induction false} UnpaddedShape(bytes: seq<Byte>)
    ensures |Unpadded(bytes)| == |bytes| / 3 * 4 + (if |bytes| % 3 == 0 then 0 else |bytes| % 3 + 1)
    ensures forall i :: 0 <= i < |Unpadded(bytes)| ==> ValueOf(Unpadded(bytes)[i]).Some? && Unpadded(bytes)[i] <= 'z'
  {
    if |bytes| >= 3 {
      UnpaddedShape(bytes[3..]);
    }
  }

  lemma {:induction false} StrippedOfPads(s: string, n: nat)
    requires s != "" ==> s[|s| - 1] != '='
    ensures Stripped(s + Pads(n)) == s
  {
    if n == 0 {
      assert s + "" == s;
    } else {
      StrippedOfPads(s, n - 1);
      assert s + Pads(n) == (s + Pads(n - 1)) + "=";
      assert (s + Pads(n))[..|s + Pads(n)| - 1] == s + Pads(n - 1);
    }
  }

  lemma MissingOfGroups(k: nat)
    ensures Missing(k * 4) == 0 && Missing(k * 4 + 2) == 2 && Missing(k * 4 + 3) == 1
  {
  }

  /** The length without padding tells how much padding there was. */
  lemma LengthTellsPadding(n: nat)
    ensures Missing(n / 3 * 4 + (if n % 3 == 0 then 0 else n % 3 + 1)) == Lacking(n)
  {
    MissingOfGroups(n / 3);
  }

  /** Stripping the padding and putting it back by length restores the encoding, for every byte string. */
  lemma PaddingIsRestored(bytes: seq<Byte>)
    ensures Stripped(Encode(bytes)) == Unpadded(bytes)
    ensures Stripped(Encode(bytes)) + Pads(Missing(|Stripped(Encode(bytes))|)) == Encode(bytes)
  {
    UnpaddedShape(bytes);
    var s := Unpadded(bytes);
    assert s != "" ==> ValueOf(s[|s| - 1]).Some?;
    StrippedOfPads(s, Lacking(|bytes|));
    LengthTellsPadding(|bytes|);
  }

  // ---------------------------------------------------------------- the round trip

  lemma Letters(s: string, r: Reader, v: Sextet)
    ensures Read([Letter(v)] + s, r) == Read(s, Next(r, v))
  {
    LetterReadsBack(v);
    assert ([Letter(v)] + s)[1..] == s;
  }

  /** The bits of three bytes, put together again. */
  lemma Bits(a: Byte, b: Byte, c: Byte)
    ensures 0 <= a / 4 < 64 && 0 <= a % 4 * 16 + b / 16 < 64 && 0 <= b % 16 * 4 + c / 64 < 64
    ensures a / 4 * 4 + (a % 4 * 16 + b / 16) / 16 == a
    ensures (a % 4 * 16 + b / 16) % 16 * 16 + (b % 16 * 4 + c / 64) / 4 == b
    ensures (b % 16 * 4 + c / 64) % 4 * 64 + c % 64 == c
  {
  }

  lemma TwoLetters(u: Sextet, v: Sextet, rest: string, before: seq<int>)
    ensures Read([Letter(u), Letter(v)] + rest, Reader(0, 0, 0, before))
         == Read(rest, Reader(2, v % 16, 0, before + [u * 4 + v / 16]))
  {
    Letters([Letter(v)] + rest, Reader(0, 0, 0, before), u);
    Letters(rest, Reader(1, u, 0, before), v);
    assert [Letter(u), Letter(v)] + rest == [Letter(u)] + ([Letter(v)] + rest);
  }

  lemma LastTwoLetters(w: Sextet, x: Sextet, left: int, rest: string, before: seq<int>)
    ensures Read([Letter(w)] + ([Letter(x)] + rest), Reader(2, left, 0, before))
         == Read(rest, Reader(0, 0, 0, before + [left * 16 + w / 4] + [w % 4 * 64 + x]))
  {
    Letters([Letter(x)] + rest, Reader(2, left, 0, before), w);
    Letters(rest, Reader(3, w % 4, 0, before + [left * 16 + w / 4]), x);
  }

  lemma FourLetters(u: Sextet, v: Sextet, w: Sextet, x: Sextet, rest: string, before: seq<int>)
    ensures Read([Letter(u), Letter(v)] + ([Letter(w)] + ([Letter(x)] + rest)), Reader(0, 0, 0, before))
         == Read(rest, Reader(0, 0, 0, before + [u * 4 + v / 16] + [v % 16 * 16 + w / 4] + [w % 4 * 64 + x]))
  {
    TwoLetters(u, v, [Letter(w)] + ([Letter(x)] + rest), before);
    LastTwoLetters(w, x, v % 16, rest, before + [u * 4 + v / 16]);
  }

  lemma TwoBytes(a: Byte, b: Byte, before: seq<int>)
    ensures Read([Letter(a / 4), Letter(a % 4 * 16 + b / 16), Letter(b % 16 * 4)] + Pads(1), Reader(0, 0, 0, before))
         == Some(before + [a, b])
  {
    Bits(a, b, 0);
    var u, v, w := a / 4, a % 4 * 16 + b / 16, b % 16 * 4;
    TwoLetters(u, v, [Letter(w)] + Pads(1), before);
    Letters(Pads(1), Reader(2, v % 16, 0, before + [a]), w);
    assert [Letter(u), Letter(v), Letter(w)] + Pads(1) == [Letter(u), Letter(v)] + ([Letter(w)] + Pads(1));
    assert Pads(1) == "=" && before + [a] + [b] == before + [a, b];
  }

  lemma OneByte(a: Byte, before: seq<int>)
    ensures Read([Letter(a / 4), Letter(a % 4 * 16)] + Pads(2), Reader(0, 0, 0, before)) == Some(before + [a])
  {
    Bits(a, 0, 0);
    TwoLetters(a / 4, a % 4 * 16, Pads(2), before);
    assert Pads(2) == "==" && "=="[1..] == "=";
  }

  lemma LastGroup(bytes: seq<Byte>, before: seq<int>)
    requires |bytes| < 3
    ensures Read(Encode(bytes), Reader(0, 0, 0, before)) == Some(before + bytes)
  {
    if |bytes| == 0 {
      assert Encode(bytes) == "" && before + bytes == before;
    } else if |bytes| == 1 {
      OneByte(bytes[0], before);
      assert before + [bytes[0]] == before + bytes;
    } else {
      TwoBytes(bytes[0], bytes[1], before);
      var a, b := bytes[0], bytes[1];
      assert Unpadded(bytes) == [Letter(a / 4), Letter(a % 4 * 16 + b / 16), Letter(b % 16 * 4)];
      assert before + [bytes[0], bytes[1]] == before + bytes;
    }
  }

  lemma EncodeGroup(bytes: seq<Byte>)
    requires |bytes| >= 3
    ensures var a, b, c := bytes[0], bytes[1], bytes[2];
            Encode(bytes) == [Letter(a / 4), Letter(a % 4 * 16 + b / 16)]
                             + ([Letter(b % 16 * 4 + c / 64)] + ([Letter(c % 64)] + Encode(bytes[3..])))
  {
    assert Lacking(|bytes|) == Lacking(|bytes[3..]|);
  }

  /** Four letters of a text as the digits of a number. */
  function Number(s: string): Option<int>
    requires |s| >= 4
  {
    match (ValueOf(s[0]), ValueOf(s[1]), ValueOf(s[2]), ValueOf(s[3]))
    case (Some(u), Some(v), Some(w), Some(x)) => Some(((u as int * 64 + v as int) * 64 + w as int) * 64 + x as int)
    case _ => None
  }

  /** Four letters are the number that the three bytes are, most significant first (section 4 of RFC 4648). */
  lemma LettersAreTheNumber(bytes: seq<Byte>)
    requires |bytes| >= 3
    ensures |Encode(bytes)| >= 4 && Number(Encode(bytes))
         == Some((bytes[0] as int * 256 + bytes[1] as int) * 256 + bytes[2] as int)
  {
    var a, b, c := bytes[0], bytes[1], bytes[2];
    EncodeGroup(bytes);
    Bits(a, b, c);
    LetterReadsBack(a / 4);
    LetterReadsBack(a % 4 * 16 + b / 16);
    LetterReadsBack(b % 16 * 4 + c / 64);
    LetterReadsBack(c % 64);
  }

  /** The letters of an incomplete group are the number too, with zero bits after it. */
  lemma LastLettersAreTheNumber(bytes: seq<Byte>)
    requires 0 < |bytes| < 3
    ensures |Unpadded(bytes)| == |bytes| + 1
    ensures |bytes| == 1 ==> Number(Unpadded(bytes) + "AA") == Some(bytes[0] as int * 256 * 256)
    ensures |bytes| == 2 ==> Number(Unpadded(bytes) + "A") == Some((bytes[0] as int * 256 + bytes[1] as int) * 256)
  {
    var a := bytes[0];
    Bits(a, if |bytes| == 2 then bytes[1] else 0, 0);
    LetterReadsBack(a / 4);
    if |bytes| == 1 {
      LetterReadsBack(a % 4 * 16);
    } else {
      LetterReadsBack(a % 4 * 16 + bytes[1] / 16);
      LetterReadsBack(bytes[1] % 16 * 4);
    }
  }

  lemma FullGroup(bytes: seq<Byte>, before: seq<int>)
    requires |bytes| >= 3
    ensures Read(Encode(bytes), Reader(0, 0, 0, before))
         == Read(Encode(bytes[3..]), Reader(0, 0, 0, before + bytes[..3]))
  {
    var a, b, c := bytes[0], bytes[1], bytes[2];
    Bits(a, b, c);
    FourLetters(a / 4, a % 4 * 16 + b / 16, b % 16 * 4 + c / 64, c % 64, Encode(bytes[3..]), before);
    EncodeGroup(bytes);
    assert before + [a] + [b] + [c] == before + bytes[..3];
  }

  lemma {:induction false} EncodingReadsBack(bytes: seq<Byte>, before: seq<int>)
    ensures Read(Encode(bytes), Reader(0, 0, 0, before)) == Some(before + bytes)
  {
    if |bytes| < 3 {
      LastGroup(bytes, before);
    } else {
      FullGroup(bytes, before);
      EncodingReadsBack(bytes[3..], before + bytes[..3]);
      assert before + bytes[..3] + bytes[3..] == before + bytes;
    }
  }

  /** Every byte string comes back from its encoding without padding. */
  lemma PayloadReadsBack(bytes: seq<Byte>)
    ensures DecodePayload(Stripped(Encode(bytes))) == Some(bytes)
  {
    PaddingIsRestored(bytes);
    UnpaddedShape(bytes);
    EncodingReadsBack(bytes, []);
    assert [] + bytes == bytes;
  }

  lemma {:induction false} PadsLength(n: nat)
    ensures |Pads(n)| == n && forall i :: 0 <= i < n ==> Pads(n)[i] == '='
  {
    if n > 0 {
      PadsLength(n - 1);
    }
  }

  // ---------------------------------------------------------------- which payloads decode

  /** The letters of the alphabet in a text. */
  function Count(s: string): nat {
    if s == "" then 0 else (if ValueOf(s[0]).Some? then 1 else 0) + Count(s[1..])
  }

  /** Whether a last group of q letters is finished by n padding characters. */
  predicate Enough(q: nat, n: int) {
    q == 0 || (q >= 2 && n >= 4 - q)
  }

  lemma {:induction false} PadsFinish(n: nat, r: Reader)
    requires r.quad < 4 && r.pads < 4 - r.quad
    ensures Read(Pads(n), r).Some? <==> Enough(r.quad, n + r.pads)
    decreases n
  {
    PadsLength(n);
    if n > 0 {
      PadsLength(n - 1);
      assert Pads(n)[1..] == Pads(n - 1);
      if r.quad < 2 {
        PadsFinish(n - 1, r);
      } else if r.quad + r.pads + 1 < 4 {
        PadsFinish(n - 1, r.(pads := r.pads + 1));
      }
    }
  }

  lemma {:induction false} FullGroupsDropOut(k: nat, n: nat)
    ensures (4 * k + n) % 4 == n % 4
  {
    if k > 0 {
      FullGroupsDropOut(k - 1, n);
    }
  }

  lemma QuadNext(q: nat, n: nat)
    ensures ((q + 1) % 4 + n) % 4 == (q + (1 + n)) % 4
  {
    FullGroupsDropOut((q + 1) / 4, (q + 1) % 4 + n);
  }

  lemma {:induction false} ReadToEnd(s: string, n: nat, r: Reader)
    requires '=' !in s && r.quad < 4 && r.pads == 0
    ensures Read(s + Pads(n), r).Some? <==> Enough((r.quad + Count(s)) % 4, n)
    decreases |s|
  {
    if s == "" {
      assert s + Pads(n) == Pads(n);
      PadsFinish(n, r);
    } else {
      assert (s + Pads(n))[1..] == s[1..] + Pads(n);
      assert s[0] in s;
      match ValueOf(s[0])
      case None => ReadToEnd(s[1..], n, r);
      case Some(v) =>
        QuadNext(r.quad, Count(s[1..]));
        ReadToEnd(s[1..], n, Next(r, v));
    }
  }

  /**
    An ASCII payload without '=' decodes exactly when the padding that its whole length calls for is enough
    for the letters in it, which need not be so when other characters are mixed in.
   */
  lemma UnpaddedDecodesExactlyWhen(payload: string)
    requires '=' !in payload && IsAscii(payload)
    ensures DecodePayload(payload).Some? <==> Enough(Count(payload) % 4, Missing(|payload|))
  {
    ReadToEnd(payload, Missing(|payload|), START);
  }

  lemma {:induction false} CountOfLetters(s: string)
    requires forall c :: c in s ==> ValueOf(c).Some?
    ensures Count(s) == |s| && IsAscii(s) && '=' !in s
  {
    if s != "" {
      assert s[0] in s;
      CountOfLetters(s[1..]);
    }
  }

  /** With letters only, that is every length but one more than a multiple of four. */
  lemma LettersDecode(payload: string)
    requires forall c :: c in payload ==> ValueOf(c).Some?
    ensures DecodePayload(payload).Some? <==> |payload| % 4 != 1
  {
    CountOfLetters(payload);
    UnpaddedDecodesExactlyWhen(payload);
    MissingOfGroups(|payload| / 4);
  }

  // ---------------------------------------------------------------- payloads with padding of their own

  /** The characters that the decoder does not skip. */
  function Word(s: string): string {
    if s == "" then ""
    else (if s[0] == '=' || ValueOf(s[0]).Some? then [s[0]] else "") + Word(s[1..])
  }

  /** At i, after q earlier letters, padding ends a group: one '=' after three letters, two after two. */
  predicate EndsGroup(w: string, i: nat, q: nat) {
    && i < |w| && w[i] == '='
    && var letters := (q + Count(w[..i])) % 4;
       letters == 3 || (letters == 2 && i + 1 < |w| && w[i + 1] == '=')
  }

  /** Some group is ended by padding, or the last group is full; `half` says that one '=' of two came before. */
  predicate Completes(w: string, q: nat, half: bool) {
    || (q + Count(w)) % 4 == 0
    || (exists i :: 0 <= i < |w| && EndsGroup(w, i, q))
    || (half && w != "" && w[0] == '=')
  }

  lemma CountNext(c: char, w: string)
    ensures Count([c] + w) == (if ValueOf(c).Some? then 1 else 0) + Count(w)
  {
    assert ([c] + w)[1..] == w;
  }

  /** The letters so far, modulo four, after one more character. */
  function After(c: char, q: nat): nat {
    if ValueOf(c).Some? then (q + 1) % 4 else q
  }

  lemma LettersLater(c: char, w: string, q: nat)
    ensures (q + Count([c] + w)) % 4 == (After(c, q) + Count(w)) % 4
  {
    CountNext(c, w);
    if ValueOf(c).Some? {
      QuadNext(q, Count(w));
    }
  }

  lemma EndsGroupLater(c: char, w: string, i: nat, q: nat)
    requires i < |w|
    ensures EndsGroup([c] + w, i + 1, q) <==> EndsGroup(w, i, After(c, q))
  {
    var s := [c] + w;
    assert s[..i + 1] == [c] + w[..i];
    LettersLater(c, w[..i], q);
    assert s[i + 1] == w[i] && (i + 1 < |w| ==> s[i + 2] == w[i + 1]);
  }

  lemma CompletesNext(c: char, w: string, q: nat)
    requires q < 4
    ensures Completes([c] + w, q, false) <==> Completes(w, After(c, q), false) || EndsGroup([c] + w, 0, q)
  {
    LettersLater(c, w, q);
    var next := After(c, q);
    forall i | 0 <= i < |w| ensures EndsGroup([c] + w, i + 1, q) <==> EndsGroup(w, i, next) {
      EndsGroupLater(c, w, i, q);
    }
    if exists i :: 0 <= i < |w| && EndsGroup(w, i, next) {
      var i :| 0 <= i < |w| && EndsGroup(w, i, next);
      assert EndsGroup([c] + w, i + 1, q);
    }
    if exists i :: 0 <= i < |[c] + w| && EndsGroup([c] + w, i, q) {
      var i :| 0 <= i < |[c] + w| && EndsGroup([c] + w, i, q);
      assert i > 0 ==> EndsGroup(w, i - 1, next);
    }
  }

  lemma LetterCompletes(c: char, w: string, q: nat, half: bool)
    requires ValueOf(c).Some? && q < 4
    ensures Completes([c] + w, q, half) <==> Completes(w, (q + 1) % 4, false)
  {
    CompletesNext(c, w, q);
  }

  lemma PaddingCompletes(w: string, q: nat, half: bool)
    requires q < 4 && (half ==> q == 2)
    ensures q == 3 || half ==> Completes(['='] + w, q, half)
    ensures q < 2 ==> (Completes(['='] + w, q, half) <==> Completes(w, q, false))
    ensures q == 2 && !half ==> (Completes(['='] + w, q, half) <==> Completes(w, q, true))
  {
    CompletesNext('=', w, q);
    assert Count((['='] + w)[..0]) == 0;
    assert q == 3 ==> EndsGroup(['='] + w, 0, q);
  }

  /** The decoder as it moves over a word, without the bits. */
  predicate Accepts(w: string, q: nat, half: bool) {
    if w == "" then q == 0
    else if w[0] != '=' then Accepts(w[1..], (q + 1) % 4, false)
    else if q < 2 then Accepts(w[1..], q, false)
    else q == 3 || half || Accepts(w[1..], q, true)
  }

  lemma {:induction false} ReadAccepts(s: string, r: Reader)
    requires r.quad < 4 && r.pads <= 1 && (r.pads == 1 ==> r.quad == 2)
    ensures Read(s, r).Some? <==> Accepts(Word(s), r.quad, r.pads == 1)
    decreases |s|
  {
    if s != "" {
      var w := Word(s[1..]);
      assert ([s[0]] + w)[1..] == w && "" + w == w;
      if s[0] == '=' {
        if r.quad < 2 {
          ReadAccepts(s[1..], r);
        } else if r.quad == 2 && r.pads == 0 {
          ReadAccepts(s[1..], r.(pads := 1));
        }
      } else {
        match ValueOf(s[0])
        case None => ReadAccepts(s[1..], r);
        case Some(v) => ReadAccepts(s[1..], Next(r, v));
      }
    }
  }

  /** A word as it is left after the characters that are skipped. */
  predicate IsWord(w: string) {
    forall i :: 0 <= i < |w| ==> w[i] == '=' || ValueOf(w[i]).Some?
  }

  lemma {:induction false} WordIsWord(s: string)
    ensures IsWord(Word(s))
  {
    if s != "" {
      WordIsWord(s[1..]);
    }
  }

  lemma {:induction false} AcceptsCompletes(w: string, q: nat, half: bool)
    requires IsWord(w) && q < 4 && (half ==> q == 2)
    ensures Accepts(w, q, half) <==> Completes(w, q, half)
    decreases |w|
  {
    if w != "" {
      var rest := w[1..];
      assert w == [w[0]] + rest;
      if w[0] == '=' {
        PaddingCompletes(rest, q, half);
        AcceptsCompletes(rest, q, q == 2 && !half);
      } else {
        LetterCompletes(w[0], rest, q, half);
        AcceptsCompletes(rest, (q + 1) % 4, false);
      }
    }
  }

  /**
    Exactly which payloads decode, whatever they hold: ASCII text in which, once the padding is added, the
    letters fill their groups or padding ends a group.
   */
  lemma DecodesExactlyWhen(payload: string)
    ensures DecodePayload(payload).Some?
       <==> IsAscii(payload) && Completes(Word(payload + Pads(Missing(|payload|))), 0, false)
  {
    var padded := payload + Pads(Missing(|payload|));
    ReadAccepts(padded, START);
    WordIsWord(padded);
    AcceptsCompletes(Word(padded), 0, false);
  }
}
