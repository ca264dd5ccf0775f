/**
The text of the external high-water mark (`hwm.rs`): what is written reads back,
and a changed byte never passes for a record. Text outside ASCII is not part of
this model; such a record fails its checksum before its fields are looked at.
*/
module HwmRecord {
  import opened Results
  import opened Utf8
  import opened Fnv
  import opened Tables

  const SPACE: byte := 32
  const LF: byte := 10
  const PLUS: byte := 43
  const MINUS: byte := 45

  /** `quotamiser-hwm v1` */
  const MAGIC: seq<byte> := [113, 117, 111, 116, 97, 109, 105, 115, 101, 114, 45, 104, 119, 109, 32, 118, 49]

  // ---------------------------------------------------------------------
  // Numbers.

  function Digits(n: nat): seq<byte> {
    if n < 10 then [48 + n] else Digits(n / 10) + [48 + n % 10]
  }

  function Decimal(n: int): seq<byte> {
    if n < 0 then [MINUS] + Digits(-n) else Digits(n)
  }

  function Nibble(n: nat): byte
    requires n < 16
  {
    if n < 10 then 48 + n else 87 + n
  }

  /** `k` lower-case hexadecimal digits. */
  function Hex(n: nat, k: nat): seq<byte> {
    if k == 0 then [] else Hex(n / 16, k - 1) + [Nibble(n % 16)]
  }

  function DigitValue(b: byte, radix: nat): Option<nat> {
    var v := if 48 <= b <= 57 then b - 48 else if 97 <= b <= 122 then b - 87 else if 65 <= b <= 90 then b - 55 else radix;
    if v < radix then Some(v) else None
  }

  function Number(s: seq<byte>, radix: nat): Option<nat> {
    if |s| == 0 then Some(0)
    else
      var high, low := Number(s[..|s| - 1], radix), DigitValue(s[|s| - 1], radix);
      if high.Some? && low.Some? then Some(high.value * radix + low.value) else None
  }

  function Unsigned(s: seq<byte>): seq<byte> {
    if |s| > 0 && s[0] == PLUS then s[1..] else s
  }

  /** `u64::from_str_radix(s, 16)`. */
  function ParseHex(s: seq<byte>): Option<nat> {
    var digits := Unsigned(s);
    var v := Number(digits, 16);
    if digits == [] || v.None? || v.value >= 0x1_0000_0000_0000_0000 then None else v
  }

  /** `i64::from_str(s)`. */
  function ParseI64(s: seq<byte>): Option<int> {
    var negative := |s| > 0 && s[0] == MINUS;
    var digits := if negative then s[1..] else Unsigned(s);
    var v := Number(digits, 10);
    if digits == [] || v.None? then None
    else
      var n: int := if negative then -(v.value as int) else v.value;
      if InI64(n) then Some(n) else None
  }

  // ---------------------------------------------------------------------
  // Writing and reading.

  function Body(h: HighWaterMark): seq<byte> {
    MAGIC + [SPACE] + Decimal(h.generation) + [SPACE] + Decimal(h.cumulative) + [SPACE] + Decimal(h.last)
  }

  function Sealed(body: seq<byte>, hash: u64): seq<byte> {
    body + [SPACE] + Hex(hash, 16) + [LF]
  }

  function Written(h: HighWaterMark): seq<byte> {
    Sealed(Body(h), Fnv1a(Body(h)))
  }

  datatype RecordError = Malformed | BadChecksumField | FailsChecksum | UnknownFormat | NonNumeric | WrongFields

  function TrimEnd(s: seq<byte>): seq<byte> {
    if |s| > 0 && s[|s| - 1] == LF then TrimEnd(s[..|s| - 1]) else s
  }

  function LastSpace(s: seq<byte>): (k: Option<nat>)
    ensures k.Some? ==> k.value < |s|
  {
    if |s| == 0 then None
    else if s[|s| - 1] == SPACE then Some(|s| - 1)
    else LastSpace(s[..|s| - 1])
  }

  predicate IsWhitespace(b: byte) {
    b == SPACE || 9 <= b <= 13
  }

  function WordLength(s: seq<byte>): (k: nat)
    ensures k <= |s|
    ensures |s| > 0 && !IsWhitespace(s[0]) ==> k > 0
  {
    if |s| == 0 || IsWhitespace(s[0]) then 0 else 1 + WordLength(s[1..])
  }

  function Words(s: seq<byte>): seq<seq<byte>>
    decreases |s|
  {
    if |s| == 0 then []
    else if IsWhitespace(s[0]) then Words(s[1..])
    else [s[..WordLength(s)]] + Words(s[WordLength(s)..])
  }

  function Numbers(words: seq<seq<byte>>): Option<seq<int>> {
    if |words| == 0 then Some([])
    else
      var first, rest := ParseI64(words[0]), Numbers(words[1..]);
      if first.Some? && rest.Some? then Some([first.value] + rest.value) else None
  }

  function Fields(body: seq<byte>): Result<HighWaterMark, RecordError> {
    if !(MAGIC <= body) then Failure(UnknownFormat)
    else
      var numbers := Numbers(Words(body[|MAGIC|..]));
      if numbers.None? then Failure(NonNumeric)
      else if |numbers.value| == 3 && numbers.value[0] >= 0 && numbers.value[1] >= 0 then
        Success(HighWaterMark(numbers.value[0], numbers.value[1], numbers.value[2]))
      else Failure(WrongFields)
  }

  function Parse(text: seq<byte>): Result<HighWaterMark, RecordError> {
    var line := TrimEnd(text);
    match LastSpace(line)
    case None => Failure(Malformed)
    case Some(k) =>
      var expected := ParseHex(line[k + 1..]);
      if expected.None? then Failure(BadChecksumField)
      else if Fnv1a(line[..k]) != expected.value then Failure(FailsChecksum)
      else Fields(line[..k])
  }

  // ---------------------------------------------------------------------
  // Numbers read back.

  lemma {:induction false} DigitsRead(n: nat)
    ensures Digits(n) != [] && Number(Digits(n), 10) == Some(n)
    ensures forall k | 0 <= k < |Digits(n)| :: 48 <= Digits(n)[k] <= 57
  {
    if n < 10 {
      assert Digits(n)[..0] == [];
    } else {
      DigitsRead(n / 10);
      assert Digits(n)[..|Digits(n)| - 1] == Digits(n / 10);
    }
  }

  /** A digit is neither a sign nor white space. */
  lemma DigitsPlain(n: nat)
    ensures IsWord(Digits(n)) && Digits(n)[0] != MINUS && Unsigned(Digits(n)) == Digits(n)
    ensures Number(Digits(n), 10) == Some(n)
  {
    DigitsRead(n);
  }

  lemma DecimalReads(n: int)
    requires InI64(n)
    ensures ParseI64(Decimal(n)) == Some(n)
    ensures IsWord(Decimal(n))
  {
    if n < 0 {
      DigitsPlain(-n);
      assert Decimal(n)[0] == MINUS && Decimal(n)[1..] == Digits(-n);
    } else {
      DigitsPlain(n);
    }
  }

  function Power16(k: nat): nat {
    if k == 0 then 1 else 16 * Power16(k - 1)
  }

  lemma {:induction false} HexReads(n: nat, k: nat)
    requires n < Power16(k)
    ensures |Hex(n, k)| == k && Number(Hex(n, k), 16) == Some(n)
    ensures forall j | 0 <= j < k :: 48 <= Hex(n, k)[j] <= 57 || 97 <= Hex(n, k)[j] <= 102
  {
    if k != 0 {
      HexReads(n / 16, k - 1);
      assert Hex(n, k)[..k - 1] == Hex(n / 16, k - 1);
    }
  }

  lemma HashReads(hash: u64)
    ensures ParseHex(Hex(hash, 16)) == Some(hash)
    ensures |Hex(hash, 16)| == 16 && forall j | 0 <= j < 16 :: Hex(hash, 16)[j] != SPACE && Hex(hash, 16)[j] != LF
  {
    assert Power16(4) == 65536;
    assert Power16(8) == 4294967296;
    assert Power16(12) == 0x1_0000_0000_0000;
    assert Power16(16) == 0x1_0000_0000_0000_0000;
    HexReads(hash, 16);
  }

  // ---------------------------------------------------------------------
  // The line comes apart where it was put together.

  lemma {:induction false} LastSpaceAt(body: seq<byte>, tail: seq<byte>)
    requires forall k | 0 <= k < |tail| :: tail[k] != SPACE
    ensures LastSpace(body + [SPACE] + tail) == Some(|body|)
    decreases |tail|
  {
    var s := body + [SPACE] + tail;
    if |tail| != 0 {
      assert s[|s| - 1] == tail[|tail| - 1];
      assert s[..|s| - 1] == body + [SPACE] + tail[..|tail| - 1];
      LastSpaceAt(body, tail[..|tail| - 1]);
    }
  }

  /** A sealed line is read as its body and its hash. */
  lemma SealedParses(body: seq<byte>, hash: u64)
    ensures Parse(Sealed(body, hash)) == if Fnv1a(body) == hash then Fields(body) else Failure(FailsChecksum)
  {
    var line := body + [SPACE] + Hex(hash, 16);
    HashReads(hash);
    assert line[|line| - 1] == Hex(hash, 16)[15];
    assert Sealed(body, hash) == line + [LF] && (line + [LF])[..|line|] == line;
    assert TrimEnd(line) == line;
    LastSpaceAt(body, Hex(hash, 16));
    assert line[..|body|] == body && line[|body| + 1..] == Hex(hash, 16);
  }

  lemma {:induction false} WordLengthIs(word: seq<byte>, rest: seq<byte>)
    requires forall k | 0 <= k < |word| :: !IsWhitespace(word[k])
    requires rest == [] || IsWhitespace(rest[0])
    ensures WordLength(word + rest) == |word|
    decreases |word|
  {
    if |word| == 0 {
      assert word + rest == rest;
    } else {
      assert (word + rest)[1..] == word[1..] + rest && (word + rest)[0] == word[0];
      WordLengthIs(word[1..], rest);
    }
  }

  lemma WordAhead(text: seq<byte>, word: seq<byte>, rest: seq<byte>)
    requires text == word + rest && IsWord(word) && (rest == [] || IsWhitespace(rest[0]))
    ensures WordLength(text) == |word| && text[..|word|] == word && text[|word|..] == rest
    ensures |text| > 0 && !IsWhitespace(text[0])
  {
    WordLengthIs(word, rest);
    assert text[0] == word[0];
  }

  lemma TakesWord(text: seq<byte>, n: nat)
    requires |text| > 0 && !IsWhitespace(text[0]) && WordLength(text) == n
    ensures Words(text) == [text[..n]] + Words(text[n..])
  {
  }

  lemma OneWord(text: seq<byte>, word: seq<byte>, rest: seq<byte>)
    requires text == word + rest && IsWord(word) && (rest == [] || IsWhitespace(rest[0]))
    ensures Words(text) == [word] + Words(rest)
  {
    WordAhead(text, word, rest);
    TakesWord(text, |word|);
  }

  lemma SkipsSpace(line: seq<byte>, text: seq<byte>)
    requires line == [SPACE] + text
    ensures Words(line) == Words(text)
  {
    assert line[0] == SPACE && line[1..] == text;
  }

  predicate IsWord(word: seq<byte>) {
    word != [] && forall k | 0 <= k < |word| :: !IsWhitespace(word[k])
  }

  function Spaced(a: seq<byte>, b: seq<byte>, c: seq<byte>): seq<byte> {
    [SPACE] + a + ([SPACE] + b + ([SPACE] + c + []))
  }

  lemma ThreeWords(a: seq<byte>, b: seq<byte>, c: seq<byte>)
    requires IsWord(a) && IsWord(b) && IsWord(c)
    ensures Words(Spaced(a, b, c)) == [a, b, c]
  {
    var last := [SPACE] + c + [];
    var middle := [SPACE] + b + last;
    NextWord(Spaced(a, b, c), a, middle);
    NextWord(middle, b, last);
    NextWord(last, c, []);
  }

  lemma NextWord(line: seq<byte>, word: seq<byte>, rest: seq<byte>)
    requires line == [SPACE] + word + rest && IsWord(word) && (rest == [] || IsWhitespace(rest[0]))
    ensures Words(line) == [word] + Words(rest)
  {
    assert line == [SPACE] + (word + rest);
    SkipsSpace(line, word + rest);
    OneWord(word + rest, word, rest);
  }

  lemma NumbersCons(word: seq<byte>, rest: seq<seq<byte>>)
    requires ParseI64(word).Some? && Numbers(rest).Some?
    ensures Numbers([word] + rest) == Some([ParseI64(word).value] + Numbers(rest).value)
  {
    assert ([word] + rest)[1..] == rest;
  }

  lemma ThreeNumbers(a: seq<byte>, b: seq<byte>, c: seq<byte>)
    requires ParseI64(a).Some? && ParseI64(b).Some? && ParseI64(c).Some?
    ensures Numbers([a, b, c]) == Some([ParseI64(a).value, ParseI64(b).value, ParseI64(c).value])
  {
    var x, y, z := ParseI64(a).value, ParseI64(b).value, ParseI64(c).value;
    NumbersCons(c, []);
    assert [c] + [] == [c] && [z] + [] == [z];
    NumbersCons(b, [c]);
    assert [b] + [c] == [b, c] && [y] + [z] == [y, z];
    NumbersCons(a, [b, c]);
    assert [a] + [b, c] == [a, b, c] && [x] + [y, z] == [x, y, z];
  }

  lemma BodyIs(h: HighWaterMark)
    ensures MAGIC <= Body(h)
    ensures Body(h)[|MAGIC|..] == Spaced(Decimal(h.generation), Decimal(h.cumulative), Decimal(h.last))
  {
    assert Body(h) == MAGIC + Spaced(Decimal(h.generation), Decimal(h.cumulative), Decimal(h.last));
  }

  /** Any record whose generation and total are not negative reads back. */
  lemma RoundTrip(h: HighWaterMark)
    requires 0 <= h.generation <= I64_MAX && 0 <= h.cumulative <= I64_MAX && InI64(h.last)
    ensures Parse(Written(h)) == Success(h)
  {
    SealedParses(Body(h), Fnv1a(Body(h)));
    DecimalReads(h.generation);
    DecimalReads(h.cumulative);
    DecimalReads(h.last);
    BodyIs(h);
    ThreeWords(Decimal(h.generation), Decimal(h.cumulative), Decimal(h.last));
    ThreeNumbers(Decimal(h.generation), Decimal(h.cumulative), Decimal(h.last));
  }

  /** What is read back is never negative where the ledger relies on it. */
  lemma ReadsSensibly(text: seq<byte>)
    requires Parse(text).Success?
    ensures Parse(text).value.generation >= 0 && Parse(text).value.cumulative >= 0
  {
  }

  /** Replacing any one byte of a sealed body, whatever the body and the byte,
      fails the checksum. */
  lemma CorruptionDetected(body: seq<byte>, i: nat, b: byte)
    requires i < |body| && b != body[i]
    ensures Parse(Sealed(body[i := b], Fnv1a(body))) == Failure(FailsChecksum)
  {
    OneByteChangesHash(0xcbf2_9ce4_8422_2325, body, i, b);
    SealedParses(body[i := b], Fnv1a(body));
  }

  /** A record as it stands in the file, up to the checksum: `quotamiser-hwm v1 12 340 7`;
      and the digits of its checksum, in lower case. */
  lemma AsWritten()
    ensures Body(HighWaterMark(12, 340, 7)) ==
            [113, 117, 111, 116, 97, 109, 105, 115, 101, 114, 45, 104, 119, 109, 32, 118, 49,
             32, 49, 50, 32, 51, 52, 48, 32, 55]
    ensures Hex(0x2f0a, 4) == [50, 102, 48, 97]
  {
    TwoDigits();
    assert Digits(340) == [51, 52] + [48] && Digits(7) == [55];
    SomeHex();
  }

  lemma TwoDigits()
    ensures Digits(12) == [49, 50] && Digits(34) == [51, 52]
  {
    assert Digits(1) == [49] && Digits(3) == [51];
  }

  lemma SomeHex()
    ensures Hex(0x2f0a, 4) == [50, 102, 48, 97]
  {
    assert Hex(0x2, 1) == [] + [50] && Hex(0x2f, 2) == [50] + [102] && Hex(0x2f0, 3) == [50, 102] + [48];
  }

  // ---------------------------------------------------------------------
  // What else is read.

  lemma {:induction false} TrimNewlines(line: seq<byte>, newlines: seq<byte>)
    requires forall k | 0 <= k < |newlines| :: newlines[k] == LF
    requires line != [] && line[|line| - 1] != LF
    ensures TrimEnd(line + newlines) == line
    decreases |newlines|
  {
    if |newlines| == 0 {
      assert line + newlines == line;
    } else {
      assert (line + newlines)[..|line + newlines| - 1] == line + newlines[..|newlines| - 1];
      TrimNewlines(line, newlines[..|newlines| - 1]);
    }
  }

  /** Any text with a space: what follows the last one, but for newlines at the end of the
      text, is the checksum. Refusals are looked for in this order. */
  lemma LineReads(body: seq<byte>, sum: seq<byte>, newlines: seq<byte>)
    requires forall k | 0 <= k < |sum| :: sum[k] != SPACE && sum[k] != LF
    requires forall k | 0 <= k < |newlines| :: newlines[k] == LF
    ensures Parse(body + [SPACE] + sum + newlines) ==
            if ParseHex(sum).None? then Failure(BadChecksumField)
            else if Fnv1a(body) != ParseHex(sum).value then Failure(FailsChecksum)
            else if !(MAGIC <= body) then Failure(UnknownFormat)
            else Fields(body)
  {
    var line := body + [SPACE] + sum;
    assert line[|line| - 1] == if sum == [] then SPACE else sum[|sum| - 1];
    TrimNewlines(line, newlines);
    LastSpaceAt(body, sum);
    assert line[..|body|] == body && line[|body| + 1..] == sum;
  }

  lemma {:induction false} NumbersExactly(words: seq<seq<byte>>)
    ensures match Numbers(words)
            case None => exists k | 0 <= k < |words| :: ParseI64(words[k]).None?
            case Some(numbers) =>
              |numbers| == |words| && forall k | 0 <= k < |words| :: ParseI64(words[k]) == Some(numbers[k])
    decreases |words|
  {
    if |words| != 0 {
      NumbersExactly(words[1..]);
      if ParseI64(words[0]).Some? && Numbers(words[1..]).None? {
        var k :| 0 <= k < |words[1..]| && ParseI64(words[1..][k]).None?;
        assert words[k + 1] == words[1..][k];
      }
    }
  }

  /** A body of the right format holds three numbers and nothing else, the first two not
      negative; with anything that is no number it is refused for that, and otherwise
      for its fields. */
  lemma FieldsExactly(body: seq<byte>)
    requires MAGIC <= body
    ensures var words := Words(body[|MAGIC|..]);
            match Fields(body)
            case Success(h) =>
              && |words| == 3 && h.generation >= 0 && h.cumulative >= 0
              && ParseI64(words[0]) == Some(h.generation) && ParseI64(words[1]) == Some(h.cumulative)
              && ParseI64(words[2]) == Some(h.last)
            case Failure(error) =>
              if exists k | 0 <= k < |words| :: ParseI64(words[k]).None? then error == NonNumeric
              else
                && error == WrongFields
                && (|words| != 3 || ParseI64(words[0]).value < 0 || ParseI64(words[1]).value < 0)
  {
    NumbersExactly(Words(body[|MAGIC|..]));
  }

  /** A number may have a plus sign. */
  lemma PlusReads(n: nat)
    requires n <= I64_MAX
    ensures ParseI64([PLUS] + Digits(n)) == Some(n)
  {
    DigitsPlain(n);
    assert ([PLUS] + Digits(n))[1..] == Digits(n);
  }
}
