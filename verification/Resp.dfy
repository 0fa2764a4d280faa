/**
  The RESP2 client codec of internal/realtime/redis.go: writeRESP prints a command,
  readRESP reads a reply from a buffered stream, recursively for arrays.
 */
module Resp {
  import opened Wrappers

  newtype byte = x: int | 0 <= x < 256

  const CR: byte := 13
  const LF: byte := 10
  const PLUS: byte := 43
  const MINUS: byte := 45
  const COLON: byte := 58
  const DOLLAR: byte := 36
  const STAR: byte := 42
  const CRLF: seq<byte> := [CR, LF]

  const INT64_LIMIT: int := 0x8000_0000_0000_0000

  datatype Reply = Data(bytes: seq<byte>) | Integer(value: int) | Array(items: seq<Reply>) | Nil

  datatype Error = Eof | RedisError(line: seq<byte>) | BadNumber | BadPrefix

  datatype Decoded = Decoded(reply: Reply, rest: seq<byte>) | Failed(error: Error)

  datatype DecodedItems = Items(items: seq<Reply>, rest: seq<byte>) | ItemsFailed(error: Error)

  // -------------------------------------------------------------------- numbers

  predicate IsDigit(b: byte) { 48 <= b <= 57 }

  /** strconv.Itoa for non-negative numbers. */
  function Itoa(n: nat): (s: seq<byte>)
    ensures s != [] && forall i :: 0 <= i < |s| ==> IsDigit(s[i])
  {
    if n < 10 then [(48 + n) as byte] else Itoa(n / 10) + [(48 + n % 10) as byte]
  }

  function FormatInt(i: int): seq<byte> {
    if i < 0 then [MINUS] + Itoa(-i) else Itoa(i)
  }

  function DigitsValue(s: seq<byte>): int {
    if s == [] then 0 else 10 * DigitsValue(s[..|s| - 1]) + (s[|s| - 1] as int - 48)
  }

  predicate AllDigits(s: seq<byte>) {
    s != [] && forall i :: 0 <= i < |s| ==> IsDigit(s[i])
  }

  /** strconv.Atoi and ParseInt(_, 10, 64): an optional sign, digits, and the int64 range. */
  function ParseInt(s: seq<byte>): Option<int> {
    if s != [] && s[0] == MINUS then
      if AllDigits(s[1..]) && DigitsValue(s[1..]) <= INT64_LIMIT then Some(-DigitsValue(s[1..])) else None
    else
      var digits := if s != [] && s[0] == PLUS then s[1..] else s;
      if AllDigits(digits) && DigitsValue(digits) < INT64_LIMIT then Some(DigitsValue(digits)) else None
  }

  lemma {:induction false} ItoaValue(n: nat)
    ensures DigitsValue(Itoa(n)) == n
  {
    if n >= 10 {
      ItoaValue(n / 10);
      assert Itoa(n)[..|Itoa(n)| - 1] == Itoa(n / 10);
    } else {
      assert Itoa(n)[..0] == [];
    }
  }

  lemma ParseFormat(i: int)
    requires -INT64_LIMIT <= i < INT64_LIMIT
    ensures ParseInt(FormatInt(i)) == Some(i)
    ensures LF !in FormatInt(i) && FormatInt(i) != [] && CR !in FormatInt(i)
  {
    ItoaValue(if i < 0 then -i else i);
    if i < 0 {
      assert FormatInt(i)[1..] == Itoa(-i);
    } else {
      assert IsDigit(Itoa(i)[0]);
    }
  }

  /** The printed number, after any zeros. */
  ghost predicate Spells(s: seq<byte>, n: nat) {
    exists k :: 0 <= k < |s| && (forall i :: 0 <= i < k ==> s[i] == 48) && s[k..] == Itoa(n)
  }

  ghost predicate Numeral(s: seq<byte>, n: int) {
    || (n >= 0 && (Spells(s, n) || (s != [] && s[0] == PLUS && Spells(s[1..], n))))
    || (n <= 0 && s != [] && s[0] == MINUS && Spells(s[1..], -n))
  }

  lemma ItoaStep(v: nat, d: nat)
    requires d < 10
    ensures Itoa(10 * v + d) == (if v == 0 then [] else Itoa(v)) + [(48 + d) as byte]
  {
    assert (10 * v + d) / 10 == v && (10 * v + d) % 10 == d;
  }

  /** One more digit. */
  lemma SpellsOn(init: seq<byte>, v: nat, d: nat, k: nat)
    requires k < |init| && (forall i :: 0 <= i < k ==> init[i] == 48) && init[k..] == Itoa(v) && d < 10
    ensures Spells(init + [(48 + d) as byte], 10 * v + d)
  {
    hide Itoa;
    var s := init + [(48 + d) as byte];
    ItoaStep(v, d);
    ItoaStep(0, v % 10);
    if v == 0 {
      assert init[k] == init[k..][0] == 48 && |init| == k + 1;
      assert s[k + 1..] == Itoa(d);
    } else {
      assert s[k..] == Itoa(v) + [(48 + d) as byte];
    }
  }

  lemma {:induction false} DigitsSpell(s: seq<byte>)
    requires AllDigits(s)
    ensures DigitsValue(s) >= 0 && Spells(s, DigitsValue(s))
  {
    hide Itoa, DigitsValue, Spells;
    var init, d := s[..|s| - 1], s[|s| - 1] as int - 48;
    LastDigit(s);
    if init == [] {
      OneDigitSpells(s, d);
    } else {
      DigitsSpell(init);
      SpellsMore(init, DigitsValue(init), d);
      assert s == init + [(48 + d) as byte];
    }
  }

  lemma LastDigit(s: seq<byte>)
    requires AllDigits(s)
    ensures DigitsValue(s) == 10 * DigitsValue(s[..|s| - 1]) + (s[|s| - 1] as int - 48)
    ensures 0 <= s[|s| - 1] as int - 48 < 10 && DigitsValue([]) == 0
  {
  }

  lemma OneDigitSpells(s: seq<byte>, d: nat)
    requires |s| == 1 && d < 10 && s[0] == (48 + d) as byte
    ensures Spells(s, d)
  {
    hide Itoa;
    ItoaStep(0, d);
    assert s[0..] == Itoa(d);
  }

  lemma SpellsMore(init: seq<byte>, v: nat, d: nat)
    requires Spells(init, v) && d < 10
    ensures Spells(init + [(48 + d) as byte], 10 * v + d)
  {
    hide Itoa;
    var k :| 0 <= k < |init| && (forall i :: 0 <= i < k ==> init[i] == 48) && init[k..] == Itoa(v);
    SpellsOn(init, v, d, k);
  }

  lemma {:induction false} SpelledValue(s: seq<byte>, n: nat, k: nat)
    requires k < |s| && (forall i :: 0 <= i < k ==> s[i] == 48) && s[k..] == Itoa(n)
    ensures AllDigits(s) && DigitsValue(s) == n
    decreases n
  {
    forall i | 0 <= i < |s| ensures IsDigit(s[i]) { if i >= k { assert s[i] == Itoa(n)[i - k]; } }
    var init := s[..|s| - 1];
    assert s[|s| - 1] == Itoa(n)[|Itoa(n)| - 1];
    if n < 10 {
      assert |s| == k + 1;
      ZerosValue(init);
    } else {
      assert init[k..] == Itoa(n)[..|Itoa(n)| - 1] == Itoa(n / 10);
      assert |Itoa(n / 10)| > 0 && k < |init|;
      SpelledValue(init, n / 10, k);
    }
  }

  lemma {:induction false} ZerosValue(s: seq<byte>)
    requires forall i :: 0 <= i < |s| ==> s[i] == 48
    ensures DigitsValue(s) == 0
  {
    if s != [] { ZerosValue(s[..|s| - 1]); }
  }

  lemma SpellsIff(s: seq<byte>, n: nat)
    ensures Spells(s, n) <==> AllDigits(s) && DigitsValue(s) == n
  {
    hide Itoa, DigitsValue;
    if AllDigits(s) { DigitsSpell(s); }
    if Spells(s, n) {
      var k :| 0 <= k < |s| && (forall i :: 0 <= i < k ==> s[i] == 48) && s[k..] == Itoa(n);
      SpelledValue(s, n, k);
    }
  }

  /** Exactly what reads as a number: its printed form, with zeros or a plus in front, if it is a Go int. */
  lemma ParseIntIff(s: seq<byte>, n: int)
    ensures ParseInt(s) == Some(n) <==> Numeral(s, n) && -INT64_LIMIT <= n < INT64_LIMIT
  {
    hide Spells, DigitsValue;
    if AllDigits(s) { DigitsSpell(s); }
    if s != [] && AllDigits(s[1..]) { DigitsSpell(s[1..]); }
    if n >= 0 { SpellsIff(s, n); }
    if n >= 0 && s != [] { SpellsIff(s[1..], n); }
    if n <= 0 && s != [] { SpellsIff(s[1..], -n); }
  }

  // ---------------------------------------------------------------------- lines

  /** ReadString('\n'): the bytes before the first line feed, and those after it. */
  function SplitLine(s: seq<byte>): (r: Option<(seq<byte>, seq<byte>)>)
    ensures r.Some? ==> |r.value.1| < |s|
  {
    if s == [] then None
    else if s[0] == LF then Some(([], s[1..]))
    else
      match SplitLine(s[1..])
      case None => None
      case Some((line, rest)) => Some(([s[0]] + line, rest))
  }

  function TrimCR(line: seq<byte>): seq<byte> {
    if line != [] && line[|line| - 1] == CR then line[..|line| - 1] else line
  }

  /** readLine. */
  function ReadLine(s: seq<byte>): (r: Option<(seq<byte>, seq<byte>)>)
    ensures r.Some? ==> |r.value.1| < |s|
  {
    match SplitLine(s)
    case None => None
    case Some((line, rest)) => Some((TrimCR(line), rest))
  }

  lemma {:induction false} SplitLineFinds(line: seq<byte>, rest: seq<byte>)
    requires LF !in line
    ensures SplitLine(line + [LF] + rest) == Some((line, rest))
  {
    var s := line + [LF] + rest;
    if line == [] {
      assert s[1..] == rest;
    } else {
      SplitLineFinds(line[1..], rest);
      assert s[1..] == line[1..] + [LF] + rest;
      assert [line[0]] + line[1..] == line;
    }
  }

  /** A line written with CRLF reads back as itself, whatever follows. */
  lemma ReadLineFinds(line: seq<byte>, rest: seq<byte>)
    requires LF !in line
    ensures ReadLine(line + CRLF + rest) == Some((line, rest))
  {
    SplitLineFinds(line + [CR], rest);
    assert line + CRLF + rest == line + [CR] + [LF] + rest;
  }

  lemma {:induction false} SplitLineExtends(s: seq<byte>, t: seq<byte>)
    requires SplitLine(s).Some?
    ensures SplitLine(s + t) == Some((SplitLine(s).value.0, SplitLine(s).value.1 + t))
  {
    assert (s + t)[1..] == s[1..] + t;
    if s[0] != LF { SplitLineExtends(s[1..], t); }
  }

  // -------------------------------------------------------------------- decoding

  /** readRESP on the bytes still to be read. */
  function Decode(s: seq<byte>): (r: Decoded)
    ensures r.Decoded? ==> |r.rest| < |s|
    decreases |s|, 0
  {
    if s == [] then Failed(Eof)
    else if s[0] !in {PLUS, MINUS, COLON, DOLLAR, STAR} then Failed(BadPrefix)
    else
      match ReadLine(s[1..])
      case None => Failed(Eof)
      case Some((line, rest)) =>
        if s[0] == PLUS then Decoded(Data(line), rest)
        else if s[0] == MINUS then Failed(RedisError(line))
        else
          match ParseInt(line)
          case None => Failed(BadNumber)
          case Some(n) =>
            if s[0] == COLON then Decoded(Integer(n), rest)
            else if n < 0 then Decoded(Nil, rest)
            else if s[0] == DOLLAR then
              if |rest| < n + 2 then Failed(Eof) else Decoded(Data(rest[..n]), rest[n + 2..])
            else
              match DecodeItems(rest, n)
              case Items(items, left) => Decoded(Array(items), left)
              case ItemsFailed(e) => Failed(e)
  }

  /** The array loop: `n` replies in a row. */
  function DecodeItems(s: seq<byte>, n: nat): (r: DecodedItems)
    ensures r.Items? ==> |r.rest| <= |s| && |r.items| == n
    decreases |s|, 1
  {
    if n == 0 then Items([], s)
    else
      match Decode(s)
      case Failed(e) => ItemsFailed(e)
      case Decoded(item, rest) => Prepend([item], DecodeItems(rest, n - 1))
  }

  function Prepend(items: seq<Reply>, d: DecodedItems): DecodedItems {
    match d
    case Items(more, rest) => Items(items + more, rest)
    case ItemsFailed(e) => ItemsFailed(e)
  }

  lemma FirstItem(s: seq<byte>, n: nat)
    ensures DecodeItems(s, 0) == Items([], s)
    ensures 0 < n && Decode(s).Failed? ==> DecodeItems(s, n) == ItemsFailed(Decode(s).error)
    ensures 0 < n && Decode(s).Decoded? ==> DecodeItems(s, n) == Prepend([Decode(s).reply], DecodeItems(Decode(s).rest, n - 1))
  {
  }

  lemma PrependTwice(a: seq<Reply>, b: seq<Reply>, d: DecodedItems)
    ensures Prepend([], d) == d
    ensures Prepend(a, Prepend(b, d)) == Prepend(a + b, d)
  {
  }

  // -------------------------------------------------------------------- encoding

  /** One bulk string, as writeRESP prints an argument. */
  function Bulk(bytes: seq<byte>): seq<byte> {
    [DOLLAR] + Itoa(|bytes|) + CRLF + bytes + CRLF
  }

  function BulkAll(args: seq<seq<byte>>): seq<byte> {
    if args == [] then [] else BulkAll(args[..|args| - 1]) + Bulk(args[|args| - 1])
  }

  /** writeRESP. */
  function EncodeCommand(args: seq<seq<byte>>): seq<byte> {
    [STAR] + Itoa(|args|) + CRLF + BulkAll(args)
  }

  /** What a server can send: the five forms of RESP2, with a missing string or list by a negative size. */
  datatype Frame =
    | Status(line: seq<byte>)
    | ErrorLine(line: seq<byte>)
    | Number(value: int)
    | BulkString(bytes: seq<byte>)
    | Missing(prefix: byte, size: int)
    | List(frames: seq<Frame>)

  function Print(f: Frame): seq<byte> {
    match f
    case Status(line) => [PLUS] + line + CRLF
    case ErrorLine(line) => [MINUS] + line + CRLF
    case Number(i) => [COLON] + FormatInt(i) + CRLF
    case BulkString(bytes) => Bulk(bytes)
    case Missing(prefix, size) => [prefix] + FormatInt(size) + CRLF
    case List(frames) => [STAR] + Itoa(|frames|) + CRLF + PrintAll(frames)
  }

  function PrintAll(frames: seq<Frame>): seq<byte> {
    if frames == [] then [] else Print(frames[0]) + PrintAll(frames[1..])
  }

  /** Lines hold no line feed; lengths and integers are representable as Go ints. */
  predicate WellFormed(f: Frame) {
    match f
    case Status(line) => LF !in line
    case ErrorLine(line) => LF !in line
    case Number(i) => -INT64_LIMIT <= i < INT64_LIMIT
    case BulkString(bytes) => |bytes| < INT64_LIMIT
    case Missing(prefix, size) => prefix in {DOLLAR, STAR} && -INT64_LIMIT <= size < 0
    case List(frames) => |frames| < INT64_LIMIT && forall i :: 0 <= i < |frames| ==> WellFormed(frames[i])
  }

  /** What a frame says to the client: a reply, or the first error line in it. */
  function Meaning(f: Frame): Result<Reply, seq<byte>> {
    match f
    case Status(line) => Ok(Data(line))
    case ErrorLine(line) => Err(line)
    case Number(i) => Ok(Integer(i))
    case BulkString(bytes) => Ok(Data(bytes))
    case Missing(_, _) => Ok(Nil)
    case List(frames) =>
      match MeaningAll(frames)
      case Ok(items) => Ok(Array(items))
      case Err(line) => Err(line)
  }

  function MeaningAll(frames: seq<Frame>): Result<seq<Reply>, seq<byte>> {
    if frames == [] then Ok([])
    else
      match Meaning(frames[0])
      case Err(line) => Err(line)
      case Ok(item) =>
        match MeaningAll(frames[1..])
        case Ok(items) => Ok([item] + items)
        case Err(line) => Err(line)
  }

  predicate HasError(f: Frame) {
    f.ErrorLine? || (f.List? && exists i :: 0 <= i < |f.frames| && HasError(f.frames[i]))
  }

  /** The canonical form of a reply. */
  function FrameOf(r: Reply): Frame {
    match r
    case Data(bytes) => BulkString(bytes)
    case Integer(i) => Number(i)
    case Array(items) => List(FramesOf(items))
    case Nil => Missing(DOLLAR, -1)
  }

  function FramesOf(items: seq<Reply>): (frames: seq<Frame>)
    ensures |frames| == |items|
  {
    if items == [] then [] else [FrameOf(items[0])] + FramesOf(items[1..])
  }

  function Encode(r: Reply): seq<byte> { Print(FrameOf(r)) }

  function EncodeAll(items: seq<Reply>): seq<byte> { PrintAll(FramesOf(items)) }

  /** Lengths and integers are representable as Go ints. */
  predicate Fits(r: Reply) {
    match r
    case Data(bytes) => |bytes| < INT64_LIMIT
    case Integer(i) => -INT64_LIMIT <= i < INT64_LIMIT
    case Array(items) => |items| < INT64_LIMIT && forall i :: 0 <= i < |items| ==> Fits(items[i])
    case Nil => true
  }

  // -------------------------------------------------------- reading undoes printing

  /** The header `<prefix><number>CRLF` in front of anything. */
  lemma HeaderReads(prefix: byte, n: int, rest: seq<byte>)
    requires -INT64_LIMIT <= n < INT64_LIMIT
    ensures var s := [prefix] + FormatInt(n) + CRLF + rest;
            s[0] == prefix && ReadLine(s[1..]) == Some((FormatInt(n), rest)) && ParseInt(FormatInt(n)) == Some(n)
  {
    hide FormatInt, ReadLine, ParseInt;
    ParseFormat(n);
    ReadLineFinds(FormatInt(n), rest);
    var s := [prefix] + FormatInt(n) + CRLF + rest;
    assert s[1..] == FormatInt(n) + CRLF + rest;
  }

  /** One step of the decoder on a header that reads. */
  lemma DecodeHeader(prefix: byte, n: int, rest: seq<byte>)
    requires prefix in {COLON, DOLLAR, STAR} && -INT64_LIMIT <= n < INT64_LIMIT
    ensures Decode([prefix] + FormatInt(n) + CRLF + rest) ==
            if prefix == COLON then Decoded(Integer(n), rest)
            else if n < 0 then Decoded(Nil, rest)
            else if prefix == DOLLAR then
              if |rest| < n + 2 then Failed(Eof) else Decoded(Data(rest[..n]), rest[n + 2..])
            else
              match DecodeItems(rest, n)
              case Items(items, left) => Decoded(Array(items), left)
              case ItemsFailed(e) => Failed(e)
  {
    hide ReadLine, ParseInt, FormatInt, DecodeItems;
    HeaderReads(prefix, n, rest);
  }

  lemma FormatLength(n: nat)
    ensures FormatInt(n) == Itoa(n)
  {
  }

  /** A line without a number: a status is data, an error is an error. */
  lemma DecodeLine(prefix: byte, line: seq<byte>, rest: seq<byte>)
    requires prefix in {PLUS, MINUS} && LF !in line
    ensures Decode([prefix] + line + CRLF + rest) == if prefix == PLUS then Decoded(Data(line), rest) else Failed(RedisError(line))
  {
    hide ReadLine;
    ReadLineFinds(line, rest);
    var s := [prefix] + line + CRLF + rest;
    assert s[0] == prefix && s[1..] == line + CRLF + rest;
  }

  /** The client's view of a frame in front of `suffix`. */
  function Reading(f: Frame, suffix: seq<byte>): Decoded {
    match Meaning(f)
    case Ok(reply) => Decoded(reply, suffix)
    case Err(line) => Failed(RedisError(line))
  }

  function ReadingAll(frames: seq<Frame>, suffix: seq<byte>): DecodedItems {
    match MeaningAll(frames)
    case Ok(items) => Items(items, suffix)
    case Err(line) => ItemsFailed(RedisError(line))
  }

  /**
    Whatever a server sends, however nested and whatever bytes it holds, is read as what it
    means: the reply, leaving exactly the suffix, or the first error line in it.
   */
  lemma {:induction false} FrameReads(f: Frame, suffix: seq<byte>)
    requires WellFormed(f)
    ensures Decode(Print(f) + suffix) == Reading(f, suffix)
    decreases f, 1
  {
    hide Decode, DecodeItems, FormatInt, Itoa, PrintAll, MeaningAll;
    var s := Print(f) + suffix;
    match f
    case Status(line) =>
      DecodeLine(PLUS, line, suffix);
    case ErrorLine(line) =>
      DecodeLine(MINUS, line, suffix);
    case Number(i) =>
      DecodeHeader(COLON, i, suffix);
    case BulkString(bytes) =>
      FormatLength(|bytes|);
      DecodeHeader(DOLLAR, |bytes|, bytes + CRLF + suffix);
      assert s == [DOLLAR] + FormatInt(|bytes|) + CRLF + (bytes + CRLF + suffix);
      assert (bytes + CRLF + suffix)[..|bytes|] == bytes;
      assert (bytes + CRLF + suffix)[|bytes| + 2..] == suffix;
    case Missing(prefix, size) =>
      DecodeHeader(prefix, size, suffix);
    case List(frames) =>
      FormatLength(|frames|);
      DecodeHeader(STAR, |frames|, PrintAll(frames) + suffix);
      assert s == [STAR] + FormatInt(|frames|) + CRLF + (PrintAll(frames) + suffix);
      FramesRead(frames, suffix);
  }

  /** Frames sent one after the other are read in order, up to the first error. */
  lemma {:induction false} FramesRead(frames: seq<Frame>, suffix: seq<byte>)
    requires forall i :: 0 <= i < |frames| ==> WellFormed(frames[i])
    ensures DecodeItems(PrintAll(frames) + suffix, |frames|) == ReadingAll(frames, suffix)
    decreases frames, 0
  {
    hide Decode, DecodeItems, Print, Meaning, WellFormed;
    FirstItem(PrintAll(frames) + suffix, |frames|);
    if frames == [] {
      assert PrintAll(frames) + suffix == suffix;
    } else {
      FrameReads(frames[0], PrintAll(frames[1..]) + suffix);
      FramesRead(frames[1..], suffix);
      assert PrintAll(frames) + suffix == Print(frames[0]) + (PrintAll(frames[1..]) + suffix);
    }
  }

  /** A reply with an error line anywhere in it, at any depth, fails as a whole; others do not. */
  lemma {:induction false} ErrorAnywhereFails(f: Frame, suffix: seq<byte>)
    requires WellFormed(f)
    ensures Decode(Print(f) + suffix).Failed? <==> HasError(f)
  {
    hide Decode, Print, HasError, Meaning;
    FrameReads(f, suffix);
    ErrorMeans(f);
  }

  lemma {:induction false} ErrorMeans(f: Frame)
    ensures Meaning(f).Err? <==> HasError(f)
    decreases f, 1
  {
    hide MeaningAll;
    if f.List? { ErrorsMean(f.frames); }
  }

  lemma {:induction false} ErrorsMean(frames: seq<Frame>)
    ensures MeaningAll(frames).Err? <==> exists i :: 0 <= i < |frames| && HasError(frames[i])
    decreases frames, 0
  {
    hide Meaning, HasError;
    if frames != [] {
      ErrorMeans(frames[0]);
      ErrorsMean(frames[1..]);
      assert forall i :: 0 < i < |frames| ==> frames[i] == frames[1..][i - 1];
      assert forall i :: 0 <= i < |frames| - 1 ==> frames[1..][i] == frames[i + 1];
    }
  }

  lemma {:induction false} CanonicalMeans(r: Reply)
    requires Fits(r)
    ensures WellFormed(FrameOf(r)) && Meaning(FrameOf(r)) == Ok(r)
    decreases r, 1
  {
    if r.Array? { AllCanonicalMean(r.items); }
  }

  lemma {:induction false} AllCanonicalMean(items: seq<Reply>)
    requires forall i :: 0 <= i < |items| ==> Fits(items[i])
    ensures (forall i :: 0 <= i < |items| ==> WellFormed(FramesOf(items)[i])) && MeaningAll(FramesOf(items)) == Ok(items)
    decreases items, 0
  {
    hide FrameOf, Meaning, WellFormed, Fits;
    if items != [] {
      CanonicalMeans(items[0]);
      AllCanonicalMean(items[1..]);
      assert FramesOf(items)[1..] == FramesOf(items[1..]);
      assert [items[0]] + items[1..] == items;
    }
  }

  /** Every reply decodes from its canonical form, leaving the suffix. */
  lemma RoundTrip(r: Reply, suffix: seq<byte>)
    requires Fits(r)
    ensures Decode(Encode(r) + suffix) == Decoded(r, suffix)
  {
    hide Decode, Print, FrameOf, Meaning, Fits, WellFormed;
    CanonicalMeans(r);
    FrameReads(FrameOf(r), suffix);
  }

  /** Replies printed one after the other are read back in order: the pipelined use in `command`. */
  lemma RoundTripAll(items: seq<Reply>, suffix: seq<byte>)
    requires forall i :: 0 <= i < |items| ==> Fits(items[i])
    ensures DecodeItems(EncodeAll(items) + suffix, |items|) == Items(items, suffix)
  {
    hide DecodeItems, PrintAll, FramesOf, MeaningAll, Fits, WellFormed;
    AllCanonicalMean(items);
    FramesRead(FramesOf(items), suffix);
  }

  function AsReplies(args: seq<seq<byte>>): seq<Reply> {
    seq(|args|, i requires 0 <= i < |args| => Data(args[i]))
  }

  lemma {:induction false} EncodeAllSnoc(items: seq<Reply>, last: Reply)
    ensures EncodeAll(items + [last]) == EncodeAll(items) + Encode(last)
  {
    hide Print, FrameOf;
    if items == [] {
      assert [] + [last] == [last];
      assert FramesOf([last]) == [FrameOf(last)] && [FrameOf(last)][1..] == [];
    } else {
      EncodeAllSnoc(items[1..], last);
      assert (items + [last])[1..] == items[1..] + [last];
      assert FramesOf(items)[1..] == FramesOf(items[1..]);
      assert FramesOf(items + [last])[1..] == FramesOf(items[1..] + [last]);
    }
  }

  lemma {:induction false} BulkAllIsEncodeAll(args: seq<seq<byte>>)
    ensures BulkAll(args) == EncodeAll(AsReplies(args))
  {
    if args != [] {
      var init := args[..|args| - 1];
      BulkAllIsEncodeAll(init);
      assert AsReplies(args) == AsReplies(init) + [Data(args[|args| - 1])];
      EncodeAllSnoc(AsReplies(init), Data(args[|args| - 1]));
    }
  }

  lemma EncodeArray(items: seq<Reply>)
    ensures Encode(Array(items)) == [STAR] + Itoa(|items|) + CRLF + EncodeAll(items)
  {
  }

  /**
    readRESP undoes writeRESP: any list of byte strings, CR, LF and '$' included, comes
    back exactly, and exactly the suffix is left unread.
   */
  lemma CommandRoundTrip(args: seq<seq<byte>>, suffix: seq<byte>)
    requires |args| < INT64_LIMIT && forall i :: 0 <= i < |args| ==> |args[i]| < INT64_LIMIT
    ensures Decode(EncodeCommand(args) + suffix) == Decoded(Array(AsReplies(args)), suffix)
  {
    hide Decode, BulkAll, PrintAll, Itoa, Encode;
    BulkAllIsEncodeAll(args);
    EncodeArray(AsReplies(args));
    RoundTrip(Array(AsReplies(args)), suffix);
  }

  // ----------------------------------------------------------- framing of a stream

  /** More bytes never change what was decoded, nor an error other than end of input. */
  lemma {:induction false} DecodeExtends(s: seq<byte>, t: seq<byte>)
    ensures Decode(s).Decoded? ==> Decode(s + t) == Decoded(Decode(s).reply, Decode(s).rest + t)
    ensures Decode(s).Failed? && Decode(s).error != Eof ==> Decode(s + t) == Decode(s)
    decreases |s|, 0
  {
    hide ParseInt, DecodeItems;
    if s != [] && ReadLine(s[1..]).Some? {
      assert (s + t)[1..] == s[1..] + t;
      SplitLineExtends(s[1..], t);
      var (line, rest) := ReadLine(s[1..]).value;
      if s[0] == STAR && ParseInt(line).Some? && ParseInt(line).value >= 0 {
        DecodeItemsExtends(rest, ParseInt(line).value, t);
      }
      if s[0] == DOLLAR && ParseInt(line).Some? && ParseInt(line).value >= 0 {
        var n := ParseInt(line).value;
        if n + 2 <= |rest| {
          assert (rest + t)[..n] == rest[..n] && (rest + t)[n + 2..] == rest[n + 2..] + t;
        }
      }
    }
  }

  lemma {:induction false} DecodeItemsExtends(s: seq<byte>, n: nat, t: seq<byte>)
    ensures DecodeItems(s, n).Items? ==> DecodeItems(s + t, n) == Items(DecodeItems(s, n).items, DecodeItems(s, n).rest + t)
    ensures DecodeItems(s, n).ItemsFailed? && DecodeItems(s, n).error != Eof ==> DecodeItems(s + t, n) == DecodeItems(s, n)
    decreases |s|, 1
  {
    hide Decode;
    if n > 0 {
      DecodeExtends(s, t);
      if Decode(s).Decoded? { DecodeItemsExtends(Decode(s).rest, n - 1, t); }
    }
  }

  /** A frame cut off anywhere is end of input, or the error in it, never another value or error. */
  lemma TruncatedReplyIsEof(f: Frame, k: nat)
    requires WellFormed(f) && k < |Print(f)|
    ensures Decode(Print(f)[..k]) == Failed(Eof) || (HasError(f) && Decode(Print(f)[..k]) == Reading(f, []))
  {
    hide Decode, Print, HasError, Meaning;
    var s, t := Print(f)[..k], Print(f)[k..];
    assert s + t == Print(f) == Print(f) + [];
    FrameReads(f, []);
    ErrorMeans(f);
    DecodeExtends(s, t);
  }

  /** What is no frame: another first byte, or a header that is no number; numbers are Go ints. */
  lemma MalformedFails(prefix: byte, line: seq<byte>, rest: seq<byte>)
    requires LF !in line
    ensures prefix !in {PLUS, MINUS, COLON, DOLLAR, STAR} ==> Decode([prefix] + line + CRLF + rest) == Failed(BadPrefix)
    ensures prefix in {COLON, DOLLAR, STAR} && ParseInt(line).None? ==> Decode([prefix] + line + CRLF + rest) == Failed(BadNumber)
  {
    hide ReadLine, ParseInt;
    ReadLineFinds(line, rest);
    var s := [prefix] + line + CRLF + rest;
    assert s[0] == prefix && s[1..] == line + CRLF + rest;
  }

  // ------------------------------------------------------------------ the code itself

  /** writeRESP: fills the buffer argument by argument. */
  method WriteRESP(args: seq<seq<byte>>) returns (buffer: seq<byte>)
    ensures buffer == EncodeCommand(args)
  {
    buffer := [STAR];
    buffer := buffer + Itoa(|args|);
    buffer := buffer + CRLF;
    var header := buffer;
    var i := 0;
    while i < |args|
      invariant 0 <= i <= |args|
      invariant buffer == header + BulkAll(args[..i])
    {
      assert args[..i + 1][..i] == args[..i];
      buffer := buffer + [DOLLAR];
      buffer := buffer + Itoa(|args[i]|);
      buffer := buffer + CRLF;
      buffer := buffer + args[i];
      buffer := buffer + CRLF;
      i := i + 1;
    }
    assert args[..i] == args;
  }

  /** bufio.Reader: what is still to be read. */
  class Reader {
    var rest: seq<byte>

    constructor (bytes: seq<byte>)
      ensures rest == bytes
    {
      rest := bytes;
    }

    method NextLine() returns (r: Result<seq<byte>, Error>)
      modifies this
      ensures ReadLine(old(rest)).None? ==> r == Err(Eof)
      ensures ReadLine(old(rest)).Some? ==> r == Ok(ReadLine(old(rest)).value.0) && rest == ReadLine(old(rest)).value.1
    {
      match SplitLine(rest) {
        case None => return Err(Eof);
        case Some((line, left)) =>
          rest := left;
          return Ok(TrimCR(line));
      }
    }

    /** A line holding a number, as the headers of integers, bulk strings and arrays are. */
    method NextNumber() returns (r: Result<int, Error>)
      modifies this
      ensures ReadLine(old(rest)).None? ==> r == Err(Eof)
      ensures ReadLine(old(rest)).Some? ==>
        && rest == ReadLine(old(rest)).value.1
        && r == match ParseInt(ReadLine(old(rest)).value.0) case Some(n) => Ok(n) case None => Err(BadNumber)
    {
      var line := NextLine();
      if line.Err? {
        return Err(line.error);
      }
      match ParseInt(line.value) {
        case Some(n) => return Ok(n);
        case None => return Err(BadNumber);
      }
    }

    /** readRESP: recursive, and terminating because each item consumes input. */
    method ReadRESP() returns (r: Result<Reply, Error>)
      modifies this
      ensures match Decode(old(rest))
              case Decoded(reply, left) => r == Ok(reply) && rest == left
              case Failed(e) => r == Err(e)
      decreases |rest|, 0
    {
      if rest == [] {
        return Err(Eof);
      }
      var prefix := rest[0];
      rest := rest[1..];
      if prefix == PLUS || prefix == MINUS {
        var line := NextLine();
        if line.Err? {
          return Err(line.error);
        }
        return if prefix == PLUS then Ok(Data(line.value)) else Err(RedisError(line.value));
      } else if prefix == COLON || prefix == DOLLAR || prefix == STAR {
        var number := NextNumber();
        if number.Err? {
          return Err(number.error);
        }
        var n := number.value;
        if prefix == COLON {
          return Ok(Integer(n));
        }
        if n < 0 {
          return Ok(Nil);
        }
        if prefix == STAR {
          r := ReadItems(n);
          return;
        }
        if |rest| < n + 2 {
          return Err(Eof);
        }
        var bytes := rest[..n];
        rest := rest[n + 2..];
        return Ok(Data(bytes));
      } else {
        return Err(BadPrefix);
      }
    }

    /** The array branch of readRESP. */
    method ReadItems(size: nat) returns (r: Result<Reply, Error>)
      modifies this
      ensures match DecodeItems(old(rest), size)
              case Items(items, left) => r == Ok(Array(items)) && rest == left
              case ItemsFailed(e) => r == Err(e)
      decreases |rest|, 1
    {
      hide Decode, DecodeItems, Prepend;
      var items: seq<Reply> := [];
      ghost var start := |rest|;
      ghost var whole := DecodeItems(rest, size);
      PrependTwice([], [], whole);
      var i := 0;
      while i < size
        invariant 0 <= i <= size
        invariant |rest| <= start
        invariant whole == Prepend(items, DecodeItems(rest, size - i))
      {
        FirstItem(rest, size - i);
        var item := ReadRESP();
        if item.Err? {
          PrependFailed(items, item.error);
          return Err(item.error);
        }
        PrependTwice(items, [item.value], DecodeItems(rest, size - i - 1));
        items := items + [item.value];
        i := i + 1;
      }
      FirstItem(rest, 0);
      PrependLast(items, rest);
      return Ok(Array(items));
    }
  }

  lemma PrependFailed(items: seq<Reply>, e: Error)
    ensures Prepend(items, ItemsFailed(e)) == ItemsFailed(e)
  {
  }

  lemma PrependLast(items: seq<Reply>, rest: seq<byte>)
    ensures Prepend(items, Items([], rest)) == Items(items, rest)
  {
  }
}
