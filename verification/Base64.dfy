/** Base64 with the URL-safe alphabet (RFC 4648, section 5), written with padding by
    Python's `urlsafe_b64encode` and read back by its lenient decoder. */
module Base64 {
  import opened Wrappers
  import opened Text

  type Byte = b: int | 0 <= b < 256

  type Sextet = x: int | 0 <= x < 64

  function Letter(x: Sextet): char {
    if x < 26 then ('A' as int + x) as char
    else if x < 52 then ('a' as int + (x - 26)) as char
    else if x < 62 then ('0' as int + (x - 52)) as char
    else if x == 62 then '-' else '_'
  }

  /** The value of a character; those of the standard alphabet are read too. */
  function ValueOf(c: char): Option<Sextet> {
    if 'A' <= c <= 'Z' then Some(c as int - 'A' as int)
    else if 'a' <= c <= 'z' then Some(c as int - 'a' as int + 26)
    else if '0' <= c <= '9' then Some(c as int - '0' as int + 52)
    else if c == '-' || c == '+' then Some(62)
    else if c == '_' || c == '/' then Some(63)
    else None
  }

  predicate IsPad(c: char) {
    c == '='
  }

  function EncodePadded(raw: seq<Byte>): string {
    if raw == [] then ""
    else if |raw| == 1 then [Letter(raw[0] / 4), Letter(raw[0] % 4 * 16), '=', '=']
    else if |raw| == 2 then
      [Letter(raw[0] / 4), Letter(raw[0] % 4 * 16 + raw[1] / 16), Letter(raw[1] % 16 * 4), '=']
    else Quartet(raw) + EncodePadded(raw[3..])
  }

  function Quartet(raw: seq<Byte>): string
    requires |raw| >= 3
  {
    [Letter(raw[0] / 4), Letter(raw[0] % 4 * 16 + raw[1] / 16), Letter(raw[1] % 16 * 4 + raw[2] / 64), Letter(raw[2] % 64)]
  }

  /** The encoding with its padding stripped. */
  function Encode(raw: seq<Byte>): string {
    TrimEnd(EncodePadded(raw), IsPad)
  }

  function Pads(n: nat): string {
    seq(n, _ => '=')
  }

  /** As many `=` as make a length a multiple of four. */
  function PadsFor(n: nat): string {
    Pads((4 - n % 4) % 4)
  }

  function Padded(encoded: string): string {
    encoded + PadsFor(|encoded|)
  }

  // ------------------------------------------------------------------- decoding

  predicate Carry(quad: nat, left: nat) {
    || (quad == 0 && left == 0) || (quad == 1 && left < 64) || (quad == 2 && left < 16) || (quad == 3 && left < 4)
  }

  /** The scan of `binascii.a2b_base64`: characters outside the alphabet are skipped,
      `=` counts only after two characters of a quad, and a complete pad ends the scan.
      `quad` characters of the current quad are read, `left` are their unused bits. */
  function Scan(s: string, quad: nat, left: nat, pads: nat): (raw: Option<seq<Byte>>)
    requires Carry(quad, left)
    decreases |s|
  {
    if s == "" then (if quad == 0 then Some([]) else None)
    else if s[0] == '=' then
      (if quad >= 2 && quad + pads + 1 >= 4 then Some([])
       else Scan(s[1..], quad, left, if quad >= 2 then pads + 1 else pads))
    else
      match ValueOf(s[0])
      case None => Scan(s[1..], quad, left, pads)
      case Some(x) =>
        if quad == 0 then Scan(s[1..], 1, x, 0)
        else if quad == 1 then Emit(left * 4 + x / 16, Scan(s[1..], 2, x % 16, 0))
        else if quad == 2 then Emit(left * 16 + x / 4, Scan(s[1..], 3, x % 4, 0))
        else Emit(left * 64 + x, Scan(s[1..], 0, 0, 0))
  }

  function Emit(b: Byte, rest: Option<seq<Byte>>): Option<seq<Byte>> {
    if rest.Some? then Some([b] + rest.value) else None
  }

  function Decode(s: string): Option<seq<Byte>> {
    Scan(s, 0, 0, 0)
  }

  // ------------------------------------------------------------------- the round trip

  lemma LetterIsRead(x: Sextet)
    ensures ValueOf(Letter(x)) == Some(x) && Letter(x) != '=' && Letter(x) != '.'
  {
  }

  /** One scanned letter. */
  lemma ScanLetter(x: Sextet, rest: string, quad: nat, left: nat, pads: nat)
    requires Carry(quad, left)
    ensures Scan([Letter(x)] + rest, quad, left, pads) ==
            (if quad == 0 then Scan(rest, 1, x, 0)
             else if quad == 1 then Emit(left * 4 + x / 16, Scan(rest, 2, x % 16, 0))
             else if quad == 2 then Emit(left * 16 + x / 4, Scan(rest, 3, x % 4, 0))
             else Emit(left * 64 + x, Scan(rest, 0, 0, 0)))
  {
    LetterIsRead(x);
    assert ([Letter(x)] + rest)[1..] == rest;
  }

  lemma ScanPads(quad: nat, left: nat)
    requires quad == 2 || quad == 3
    requires Carry(quad, left)
    ensures Scan(Pads(4 - quad), quad, left, 0) == Some([])
  {
    if quad == 2 {
      assert Pads(2)[1..] == Pads(1);
    }
  }

  lemma ScanTwo(x: Sextet, y: Sextet, rest: string)
    ensures Scan([Letter(x), Letter(y)] + rest, 0, 0, 0) == Emit(x * 4 + y / 16, Scan(rest, 2, y % 16, 0))
  {
    assert [Letter(x), Letter(y)] + rest == [Letter(x)] + ([Letter(y)] + rest);
    ScanLetter(x, [Letter(y)] + rest, 0, 0, 0);
    ScanLetter(y, rest, 1, x, 0);
  }

  lemma ScanThree(x: Sextet, y: Sextet, z: Sextet, rest: string)
    ensures Scan([Letter(x), Letter(y), Letter(z)] + rest, 0, 0, 0)
         == Emit(x * 4 + y / 16, Emit(y % 16 * 16 + z / 4, Scan(rest, 3, z % 4, 0)))
  {
    assert [Letter(x), Letter(y), Letter(z)] + rest == [Letter(x), Letter(y)] + ([Letter(z)] + rest);
    ScanTwo(x, y, [Letter(z)] + rest);
    ScanLetter(z, rest, 2, y % 16, 0);
  }

  lemma ScanFour(x: Sextet, y: Sextet, z: Sextet, w: Sextet, rest: string)
    ensures Scan([Letter(x), Letter(y), Letter(z), Letter(w)] + rest, 0, 0, 0)
         == Emit(x * 4 + y / 16, Emit(y % 16 * 16 + z / 4, Emit(z % 4 * 64 + w, Decode(rest))))
  {
    assert [Letter(x), Letter(y), Letter(z), Letter(w)] + rest
        == [Letter(x), Letter(y), Letter(z)] + ([Letter(w)] + rest);
    ScanThree(x, y, z, [Letter(w)] + rest);
    ScanLetter(w, rest, 3, z % 4, 0);
  }

  /** The encoding without padding, group by group. */
  function Letters(raw: seq<Byte>): string {
    if raw == [] then ""
    else if |raw| == 1 then [Letter(raw[0] / 4), Letter(raw[0] % 4 * 16)]
    else if |raw| == 2 then [Letter(raw[0] / 4), Letter(raw[0] % 4 * 16 + raw[1] / 16), Letter(raw[1] % 16 * 4)]
    else Quartet(raw) + Letters(raw[3..])
  }

  function PadCount(raw: seq<Byte>): nat {
    if |raw| % 3 == 0 then 0 else 3 - |raw| % 3
  }

  predicate OnlyLetters(s: string) {
    forall i | 0 <= i < |s| :: s[i] != '=' && s[i] != '.'
  }

  lemma QuartetIsLetters(raw: seq<Byte>)
    requires |raw| >= 3
    ensures OnlyLetters(Quartet(raw))
  {
    LetterIsRead(raw[0] / 4);
    LetterIsRead(raw[0] % 4 * 16 + raw[1] / 16);
    LetterIsRead(raw[1] % 16 * 4 + raw[2] / 64);
    LetterIsRead(raw[2] % 64);
  }

  lemma TailIsLetters(raw: seq<Byte>)
    requires |raw| < 3
    ensures OnlyLetters(Letters(raw)) && (|Letters(raw)| + PadCount(raw)) % 4 == 0
  {
    if |raw| == 1 {
      LetterIsRead(raw[0] / 4);
      LetterIsRead(raw[0] % 4 * 16);
    } else if |raw| == 2 {
      LetterIsRead(raw[0] / 4);
      LetterIsRead(raw[0] % 4 * 16 + raw[1] / 16);
      LetterIsRead(raw[1] % 16 * 4);
    }
  }

  lemma PadCountStep(raw: seq<Byte>)
    requires |raw| >= 3
    ensures PadCount(raw[3..]) == PadCount(raw)
  {
  }

  lemma {:induction false} LettersShape(raw: seq<Byte>)
    ensures OnlyLetters(Letters(raw)) && (|Letters(raw)| + PadCount(raw)) % 4 == 0
    decreases |raw|
  {
    if |raw| >= 3 {
      QuartetIsLetters(raw);
      LettersShape(raw[3..]);
      PadCountStep(raw);
    } else {
      TailIsLetters(raw);
    }
  }

  lemma {:induction false} PaddedIsLettersAndPads(raw: seq<Byte>)
    ensures EncodePadded(raw) == Letters(raw) + Pads(PadCount(raw))
    decreases |raw|
  {
    if |raw| >= 3 {
      PaddedIsLettersAndPads(raw[3..]);
      PadCountStep(raw);
      Associate(Quartet(raw), Letters(raw[3..]), Pads(PadCount(raw)));
    }
  }

  lemma {:induction false} TrimEndPads(s: string, n: nat)
    requires OnlyLetters(s)
    ensures TrimEnd(s + Pads(n), IsPad) == s
  {
    if n == 0 {
      assert s + Pads(0) == s;
    } else {
      assert Front(s + Pads(n)) == s + Pads(n - 1);
      TrimEndPads(s, n - 1);
    }
  }

  lemma EncodeIsLetters(raw: seq<Byte>)
    ensures Encode(raw) == Letters(raw) && Padded(Encode(raw)) == EncodePadded(raw)
    ensures OnlyLetters(Encode(raw))
  {
    LettersShape(raw);
    PaddedIsLettersAndPads(raw);
    TrimEndPads(Letters(raw), PadCount(raw));
    PadsNeeded(|Letters(raw)|, PadCount(raw));
  }

  lemma PadsNeeded(n: nat, p: nat)
    requires p < 4 && (n + p) % 4 == 0
    ensures PadsFor(n) == Pads(p)
  {
  }

  /** The sextets of up to three bytes hold all their bits. */
  lemma SextetsHoldBytes(a: Byte, b: Byte, c: Byte)
    ensures a / 4 * 4 + (a % 4 * 16 + b / 16) / 16 == a && (a % 4 * 16 + b / 16) % 16 == b / 16
    ensures b / 16 * 16 + (b % 16 * 4 + c / 64) / 4 == b && (b % 16 * 4 + c / 64) % 4 == c / 64
    ensures c / 64 * 64 + c % 64 == c
  {
  }

  lemma OneByteIsDecoded(a: Byte)
    ensures Decode([Letter(a / 4), Letter(a % 4 * 16), '=', '=']) == Some([a])
  {
    assert [Letter(a / 4), Letter(a % 4 * 16), '=', '='] == [Letter(a / 4), Letter(a % 4 * 16)] + Pads(2);
    ScanTwo(a / 4, a % 4 * 16, Pads(2));
    SextetsHoldBytes(a, 0, 0);
    ScanPads(2, 0);
    assert [a] + [] == [a];
  }

  lemma TwoBytesAreDecoded(a: Byte, b: Byte)
    ensures Decode([Letter(a / 4), Letter(a % 4 * 16 + b / 16), Letter(b % 16 * 4), '=']) == Some([a, b])
  {
    var y, z := a % 4 * 16 + b / 16, b % 16 * 4;
    assert [Letter(a / 4), Letter(y), Letter(z), '='] == [Letter(a / 4), Letter(y), Letter(z)] + Pads(1);
    ScanThree(a / 4, y, z, Pads(1));
    SextetsHoldBytes(a, b, 0);
    ScanPads(3, 0);
    assert [a] + ([b] + []) == [a, b];
  }

  lemma QuartetIsDecoded(raw: seq<Byte>, rest: string)
    requires |raw| >= 3
    ensures Decode(Quartet(raw) + rest) == Emit(raw[0], Emit(raw[1], Emit(raw[2], Decode(rest))))
  {
    SextetsHoldBytes(raw[0], raw[1], raw[2]);
    ScanFour(raw[0] / 4, raw[0] % 4 * 16 + raw[1] / 16, raw[1] % 16 * 4 + raw[2] / 64, raw[2] % 64, rest);
  }

  lemma EmitThree(raw: seq<Byte>)
    requires |raw| >= 3
    ensures Emit(raw[0], Emit(raw[1], Emit(raw[2], Some(raw[3..])))) == Some(raw)
  {
    assert raw == [raw[0]] + ([raw[1]] + ([raw[2]] + raw[3..]));
  }

  lemma {:induction false} PaddedRoundTrip(raw: seq<Byte>)
    ensures Decode(EncodePadded(raw)) == Some(raw)
    decreases |raw|
  {
    if |raw| >= 3 {
      PaddedRoundTrip(raw[3..]);
      QuartetIsDecoded(raw, EncodePadded(raw[3..]));
      EmitThree(raw);
    } else if |raw| == 2 {
      TwoBytesAreDecoded(raw[0], raw[1]);
      assert raw == [raw[0], raw[1]];
    } else if |raw| == 1 {
      OneByteIsDecoded(raw[0]);
      assert raw == [raw[0]];
    }
  }

  /** Every byte string survives stripping the padding and adding it back. */
  lemma RoundTrip(raw: seq<Byte>)
    ensures Decode(Padded(Encode(raw))) == Some(raw)
  {
    EncodeIsLetters(raw);
    PaddedRoundTrip(raw);
  }

  // ------------------------------------------------------------------- letters and pads

  /** The letters are those of RFC 4648, section 5, in order: A to Z, a to z, 0 to 9, `-` and
      `_`.  Reading also takes `+` and `/` of section 4 for the last two, and no other
      character. */
  lemma LettersAreUrlSafe(x: Sextet, c: char)
    ensures Letter(0) == 'A' && Letter(26) == 'a' && Letter(52) == '0' && Letter(62) == '-' && Letter(63) == '_'
    ensures x !in {0, 26, 52, 62, 63} ==> Letter(x) as int == Letter(x - 1) as int + 1
    ensures ValueOf(c) == Some(x) <==> c == Letter(x) || (x == 62 && c == '+') || (x == 63 && c == '/')
  {
  }

  /** A pad that comes too early is skipped: before two letters of a quad, or once before
      its third. */
  lemma EarlyPadsAreSkipped(x: Sextet, y: Sextet, z: Sextet, rest: string)
    ensures Decode(['='] + rest) == Decode(rest)
    ensures Decode([Letter(x), '='] + rest) == Decode([Letter(x)] + rest)
    ensures Decode([Letter(x), Letter(y), '=', Letter(z)] + rest) == Decode([Letter(x), Letter(y), Letter(z)] + rest)
  {
    assert (['='] + rest)[1..] == rest;
    EarlyPad(x, rest);
    PadBeforeThird(x, y, z, rest);
  }

  lemma EarlyPad(x: Sextet, rest: string)
    ensures Decode([Letter(x), '='] + rest) == Decode([Letter(x)] + rest)
  {
    assert [Letter(x), '='] + rest == [Letter(x)] + (['='] + rest);
    ScanLetter(x, ['='] + rest, 0, 0, 0);
    ScanLetter(x, rest, 0, 0, 0);
    assert (['='] + rest)[1..] == rest;
  }

  lemma PadBeforeThird(x: Sextet, y: Sextet, z: Sextet, rest: string)
    ensures Decode([Letter(x), Letter(y), '=', Letter(z)] + rest) == Decode([Letter(x), Letter(y), Letter(z)] + rest)
  {
    var more := [Letter(z)] + rest;
    assert [Letter(x), Letter(y), '=', Letter(z)] + rest == [Letter(x), Letter(y)] + (['='] + more);
    assert [Letter(x), Letter(y), Letter(z)] + rest == [Letter(x), Letter(y)] + more;
    ScanTwo(x, y, ['='] + more);
    ScanTwo(x, y, more);
    assert (['='] + more)[1..] == more;
    ScanLetter(z, rest, 2, y % 16, 1);
    ScanLetter(z, rest, 2, y % 16, 0);
  }

  lemma PadsEnd(quad: nat, left: nat, rest: string)
    requires (quad == 2 || quad == 3) && Carry(quad, left)
    ensures Scan(Pads(4 - quad) + rest, quad, left, 0) == Some([])
  {
    if quad == 2 {
      assert (Pads(2) + rest)[1..] == Pads(1) + rest;
    }
  }

  /** The padding of an encoding ends the text: nothing behind it is read. */
  lemma {:induction false} NothingReadPastPadding(raw: seq<Byte>, rest: string)
    requires |raw| % 3 != 0
    ensures Decode(EncodePadded(raw) + rest) == Some(raw)
    decreases |raw|
  {
    if |raw| >= 3 {
      NothingReadPastPadding(raw[3..], rest);
      assert EncodePadded(raw) + rest == Quartet(raw) + (EncodePadded(raw[3..]) + rest);
      QuartetIsDecoded(raw, EncodePadded(raw[3..]) + rest);
      EmitThree(raw);
    } else {
      ShortEndsText(raw, rest);
    }
  }

  lemma ShortEndsText(raw: seq<Byte>, rest: string)
    requires 0 < |raw| < 3
    ensures Decode(EncodePadded(raw) + rest) == Some(raw)
  {
    if |raw| == 1 {
      OneEndsText(raw[0], rest);
      assert raw == [raw[0]];
    } else {
      TwoEndText(raw[0], raw[1], rest);
      assert raw == [raw[0], raw[1]];
    }
  }

  lemma OneEndsText(a: Byte, rest: string)
    ensures Decode([Letter(a / 4), Letter(a % 4 * 16), '=', '='] + rest) == Some([a])
  {
    assert [Letter(a / 4), Letter(a % 4 * 16), '=', '='] + rest == [Letter(a / 4), Letter(a % 4 * 16)] + (Pads(2) + rest);
    ScanTwo(a / 4, a % 4 * 16, Pads(2) + rest);
    SextetsHoldBytes(a, 0, 0);
    PadsEnd(2, 0, rest);
    assert [a] + [] == [a];
  }

  lemma TwoEndText(a: Byte, b: Byte, rest: string)
    ensures Decode([Letter(a / 4), Letter(a % 4 * 16 + b / 16), Letter(b % 16 * 4), '='] + rest) == Some([a, b])
  {
    var y, z := a % 4 * 16 + b / 16, b % 16 * 4;
    assert [Letter(a / 4), Letter(y), Letter(z), '='] + rest == [Letter(a / 4), Letter(y), Letter(z)] + (Pads(1) + rest);
    ScanThree(a / 4, y, z, Pads(1) + rest);
    SextetsHoldBytes(a, b, 0);
    PadsEnd(3, 0, rest);
    assert [a] + ([b] + []) == [a, b];
  }

  // ------------------------------------------------------------------- what is refused

  predicate InAlphabet(s: string) {
    forall i | 0 <= i < |s| :: ValueOf(s[i]).Some?
  }

  /** The unused bits after reading one more letter. */
  function NextLeft(x: Sextet, quad: nat): nat {
    if quad == 0 then x else if quad == 1 then x % 16 else if quad == 2 then x % 4 else 0
  }

  lemma ScanStep(s: string, pads: string, quad: nat, left: nat)
    requires Carry(quad, left) && s != "" && ValueOf(s[0]).Some?
    ensures Scan(s + pads, quad, left, 0).None? <==>
              Scan(s[1..] + pads, (quad + 1) % 4, NextLeft(ValueOf(s[0]).value, quad), 0).None?
  {
    assert (s + pads)[1..] == s[1..] + pads;
  }

  lemma CarryStep(s: string, quad: nat, left: nat)
    requires Carry(quad, left) && s != "" && InAlphabet(s)
    ensures ValueOf(s[0]).Some? && InAlphabet(s[1..])
    ensures Carry((quad + 1) % 4, NextLeft(ValueOf(s[0]).value, quad))
  {
  }

  lemma {:induction false} ScanFailsOnShortQuad(s: string, pads: string, quad: nat, left: nat)
    requires Carry(quad, left) && InAlphabet(s) && pads == PadsFor(quad + |s|)
    ensures Scan(s + pads, quad, left, 0).None? <==> (quad + |s|) % 4 == 1
    decreases |s|
  {
    if s == "" {
      assert s + pads == pads;
      PadsEndScan(quad, left);
    } else {
      CarryStep(s, quad, left);
      QuadsAlike(quad, |s|);
      ScanFailsOnShortQuad(s[1..], pads, (quad + 1) % 4, NextLeft(ValueOf(s[0]).value, quad));
      ScanStep(s, pads, quad, left);
    }
  }

  lemma QuadsAlike(quad: nat, n: nat)
    requires quad < 4 && n > 0
    ensures ((quad + 1) % 4 + (n - 1)) % 4 == (quad + n) % 4
    ensures PadsFor((quad + 1) % 4 + (n - 1)) == PadsFor(quad + n)
  {
  }

  lemma PadsEndScan(quad: nat, left: nat)
    requires Carry(quad, left)
    ensures Scan(PadsFor(quad), quad, left, 0).None? <==> quad == 1
  {
    if quad == 1 {
      assert Pads(3)[1..] == Pads(2) && Pads(2)[1..] == Pads(1) && Pads(1)[1..] == "";
    } else if quad >= 2 {
      ScanPads(quad, left);
    }
  }

  /** Of texts over the alphabet, decoding refuses exactly those one letter too long. */
  lemma RefusedExactlyOneOver(s: string)
    requires InAlphabet(s)
    ensures Decode(Padded(s)).None? <==> |s| % 4 == 1
  {
    ScanFailsOnShortQuad(s, PadsFor(|s|), 0, 0);
  }
}
