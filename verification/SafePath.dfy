/**
 The safe text form of server paths: type, prefix and segments, each string preceded by its
 length, so that the strings may contain anything.
 */
module SafePath {
  import opened Optional
  import opened ServerPath

  const MAX_TYPE: nat := 10
  const MAX_LENGTH: nat := 32767
  const INT_LENGTH: nat := 20

  // ---------------------------------------------------------------- numbers

  function DigitChar(d: nat): char
    requires d < 10
  {
    '0' + d as char
  }

  predicate IsDigit(c: char) {
    '0' <= c <= '9'
  }

  function DigitValue(c: char): (d: nat)
    ensures d < 10
  {
    if IsDigit(c) then (c - '0') as nat else 0
  }

  function Digits(n: nat): (s: string)
    ensures s != [] && forall i :: 0 <= i < |s| ==> IsDigit(s[i])
  {
    if n < 10 then [DigitChar(n)] else Digits(n / 10) + [DigitChar(n % 10)]
  }

  /** The value of a digit string read after `acc`. */
  function Value(acc: nat, s: string): nat
    decreases |s|
  {
    if s == [] then acc else Value(acc * 10 + DigitValue(s[0]), s[1..])
  }

  lemma {:induction false} ValueAppend(acc: nat, s: string, c: char)
    ensures Value(acc, s + [c]) == Value(acc, s) * 10 + DigitValue(c)
    decreases |s|
  {
    if s == [] {
      assert s + [c] == [c] && [c][1..] == [];
    } else {
      ValueAppend(acc * 10 + DigitValue(s[0]), s[1..], c);
      assert (s + [c])[1..] == s[1..] + [c];
    }
  }

  lemma {:induction false} DigitsValue(n: nat)
    ensures Value(0, Digits(n)) == n
  {
    if n < 10 {
      assert Digits(n)[1..] == [];
    } else {
      DigitsValue(n / 10);
      ValueAppend(0, Digits(n / 10), DigitChar(n % 10));
    }
  }

  lemma {:induction false} ValueGrows(acc: nat, s: string)
    ensures acc <= Value(acc, s)
    decreases |s|
  {
    if s != [] {
      ValueGrows(acc * 10 + DigitValue(s[0]), s[1..]);
    }
  }

  /** Numbers of `k` digits; with 20 digits every 64-bit number can be written. */
  lemma {:induction false} DigitsLength(n: nat, k: nat)
    requires k >= 1 && n < Power10(k)
    ensures |Digits(n)| <= k
  {
    if n >= 10 {
      DigitsLength(n / 10, k - 1);
    }
  }

  function Power10(k: nat): (p: nat)
    ensures p >= 1 && (k == 0 ==> p == 1) && (k == 1 ==> p == 10)
  {
    if k == 0 then 1 else 10 * Power10(k - 1)
  }

  const SIZE_LIMIT: nat := 0x1_0000_0000_0000_0000

  lemma SizesHaveTwentyDigits()
    ensures SIZE_LIMIT <= Power10(INT_LENGTH)
  {
    assert Power10(4) == 10000;
    assert Power10(8) == 10000_0000;
    assert Power10(12) == 10000_0000_0000;
    assert Power10(16) == 10000_0000_0000_0000;
    assert Power10(20) == 10000_0000_0000_0000_0000;
  }

  // ---------------------------------------------------------------- printing

  function Spaced(text: string): string {
    [' '] + text
  }

  function SegmentsText(segments: seq<string>): string {
    if segments == [] then []
    else Spaced(Digits(|segments[0]|) + Spaced(segments[0] + SegmentsText(segments[1..])))
  }

  /** The prefix's length and the prefix, followed by what comes after them. */
  function PrefixText(prefix: Option<string>, rest: string): string {
    if prefix.None? then Digits(0) + rest else Digits(|prefix.value|) + Spaced(prefix.value + rest)
  }

  function SafeText(p: Path): string {
    if p.data.None? then []
    else Digits(Code(p.kind)) + Spaced(PrefixText(p.data.value.prefix, SegmentsText(p.data.value.segments)))
  }

  // ---------------------------------------------------------------- parsing

  /** The character at the cursor; the end reads as a terminating zero. */
  function Peek(s: string): char {
    if s == [] then '\0' else s[0]
  }

  predicate Stops(s: string, endAllowed: bool) {
    Peek(s) == ' ' || (endAllowed && Peek(s) == '\0')
  }

  /** At least one digit, up to a space (or the end, where that is allowed); too large a number fails. */
  function ReadNumber(s: string, acc: nat, bound: nat, endAllowed: bool): (r: Option<(nat, string)>)
    ensures r.Some? ==> r.value.0 <= bound && |r.value.1| < |s|
    ensures r.Some? ==> Stops(r.value.1, endAllowed)
  {
    if !IsDigit(Peek(s)) then None else
    var v := acc * 10 + DigitValue(s[0]);
    if v > bound then None
    else if Stops(s[1..], endAllowed) then Some((v, s[1..]))
    else ReadNumber(s[1..], v, bound, endAllowed)
  }

  /** Skips a string and the separator behind it, if there is one. */
  function SkipString(s: string, n: nat): (r: string)
    requires n <= |s|
    ensures |r| <= |s|
  {
    if n < |s| then s[n + 1..] else []
  }

  predicate SafeLength(s: string) {
    0 < |s| <= MAX_LENGTH
  }

  /** The next segment, with its length in front of it, and what follows it. */
  function NextSegment(s: string): (r: Option<(string, string)>)
    ensures r.Some? ==> SafeLength(r.value.0) && |r.value.1| < |s|
  {
    var num := ReadNumber(s, 0, MAX_LENGTH, false);
    if num.None? || num.value.0 == 0 then None else
    var (n, text) := (num.value.0, num.value.1[1..]);
    if n > |text| then None else Some((text[..n], SkipString(text, n)))
  }

  function ReadSegments(s: string): Option<seq<string>>
    decreases |s|
  {
    if s == [] then Some([]) else
    var next := NextSegment(s);
    if next.None? then None else Prepend(next.value.0, ReadSegments(next.value.1))
  }

  function Prepend(s: string, rest: Option<seq<string>>): Option<seq<string>> {
    if rest.None? then None else Some([s] + rest.value)
  }

  function ReadData(s: string): Option<PathData> {
    var num := ReadNumber(s, 0, MAX_LENGTH, true);
    if num.None? then None else
    var (n, rest) := num.value;
    if Peek(rest) == '\0' then (if n != 0 then None else Some(PathData(None, [])))
    else ReadAfterLength(n, rest[1..])
  }

  /** What follows the prefix's length: the prefix, if there is one, and the segments. */
  function ReadAfterLength(n: nat, text: string): Option<PathData> {
    if n > |text| then None
    else if n == 0 then WithPrefix(None, ReadSegments(text))
    else WithPrefix(Some(text[..n]), ReadSegments(SkipString(text, n)))
  }

  function WithPrefix(prefix: Option<string>, segments: Option<seq<string>>): Option<PathData> {
    if segments.None? then None else Some(PathData(prefix, segments.value))
  }

  function TypeOf(code: nat): (k: ServerType)
    requires code <= MAX_TYPE
    ensures Code(k) == code
  {
    match code
    case 0 => Default
    case 1 => Unix
    case 2 => Vms
    case 3 => Dos
    case 4 => Mvs
    case 5 => VxWorks
    case 6 => Zvm
    case 7 => HpNonStop
    case 8 => DosVirtual
    case 9 => Cygwin
    case _ => DosFwdSlashes
  }

  /** Sets a path from its safe text. A failure empties the path, but a type that was read stays set. */
  function SetSafePath(old': Path, text: string): (Path, bool) {
    var num := ReadNumber(text, 0, MAX_TYPE, false);
    if num.None? then (old'.(data := None), false) else
    var kind := TypeOf(num.value.0);
    var data := ReadData(num.value.1[1..]);
    (Path(kind, data), data.Some?)
  }

  // ---------------------------------------------------------------- round trip

  /** Prefix, if any, and segments are neither empty nor too long. */
  predicate SafeShape(d: PathData) {
    && (d.prefix.Some? ==> SafeLength(d.prefix.value))
    && forall i :: 0 <= i < |d.segments| ==> SafeLength(d.segments[i])
  }

  lemma ReadNumberStep(c: char, rest: string, acc: nat, bound: nat, endAllowed: bool)
    requires IsDigit(c) && acc * 10 + DigitValue(c) <= bound
    ensures var v := acc * 10 + DigitValue(c);
            ReadNumber([c] + rest, acc, bound, endAllowed)
            == if Stops(rest, endAllowed) then Some((v, rest)) else ReadNumber(rest, v, bound, endAllowed)
  {
    assert ([c] + rest)[1..] == rest;
  }

  lemma {:induction false} ReadNumberDigits(ds: string, tail: string, acc: nat, bound: nat, endAllowed: bool)
    requires ds != [] && forall i :: 0 <= i < |ds| ==> IsDigit(ds[i])
    requires Value(acc, ds) <= bound && Stops(tail, endAllowed)
    ensures ReadNumber(ds + tail, acc, bound, endAllowed) == Some((Value(acc, ds), tail))
    decreases |ds|
  {
    var v := acc * 10 + DigitValue(ds[0]);
    ValueGrows(v, ds[1..]);
    ReadNumberStep(ds[0], ds[1..] + tail, acc, bound, endAllowed);
    assert ds + tail == [ds[0]] + (ds[1..] + tail);
    if |ds| == 1 {
      assert ds[1..] + tail == tail;
    } else {
      assert Peek(ds[1..] + tail) == ds[1];
      ReadNumberDigits(ds[1..], tail, v, bound, endAllowed);
    }
  }

  lemma ReadPrinted(n: nat, tail: string, bound: nat, endAllowed: bool)
    requires n <= bound && Stops(tail, endAllowed)
    ensures ReadNumber(Digits(n) + tail, 0, bound, endAllowed) == Some((n, tail))
  {
    DigitsValue(n);
    ReadNumberDigits(Digits(n), tail, 0, bound, endAllowed);
  }

  /** A printed number, a space and a string of that length, read back. */
  lemma ReadString(s: string, rest: string, bound: nat, endAllowed: bool)
    requires |s| <= bound
    ensures ReadNumber(Digits(|s|) + Spaced(s + rest), 0, bound, endAllowed) == Some((|s|, Spaced(s + rest)))
    ensures Spaced(s + rest)[1..] == s + rest && (s + rest)[..|s|] == s
    ensures SkipString(s + rest, |s|) == AfterSpace(rest)
  {
    ReadPrinted(|s|, Spaced(s + rest), bound, endAllowed);
  }

  function AfterSpace(text: string): string {
    if text == [] then [] else text[1..]
  }

  lemma AfterSpaced(text: string)
    ensures AfterSpace(Spaced(text)) == text
  {}

  lemma ReadOneSegment(s: string, rest: string)
    requires SafeLength(s)
    ensures NextSegment(Digits(|s|) + Spaced(s + rest)) == Some((s, AfterSpace(rest)))
    ensures ReadSegments(Digits(|s|) + Spaced(s + rest)) == Prepend(s, ReadSegments(AfterSpace(rest)))
  {
    ReadString(s, rest, MAX_LENGTH, false);
  }

  /** Segments print with a leading space; read from behind it they come back. */
  lemma {:induction false} SegmentsRoundTrip(segments: seq<string>)
    requires forall i :: 0 <= i < |segments| ==> SafeLength(segments[i])
    ensures segments != [] ==> Peek(SegmentsText(segments)) == ' '
    ensures ReadSegments(AfterSpace(SegmentsText(segments))) == Some(segments)
    decreases |segments|
  {
    if segments != [] {
      SegmentsRoundTrip(segments[1..]);
      SegmentsStep(segments[0], segments[1..]);
      assert [segments[0]] + segments[1..] == segments;
    }
  }

  lemma SegmentsStep(s: string, rest: seq<string>)
    requires SafeLength(s) && ReadSegments(AfterSpace(SegmentsText(rest))) == Some(rest)
    ensures Peek(SegmentsText([s] + rest)) == ' '
    ensures ReadSegments(AfterSpace(SegmentsText([s] + rest))) == Some([s] + rest)
  {
    var text := Digits(|s|) + Spaced(s + SegmentsText(rest));
    assert ([s] + rest)[1..] == rest;
    assert SegmentsText([s] + rest) == Spaced(text);
    AfterSpaced(text);
    ReadOneSegment(s, SegmentsText(rest));
  }

  lemma DataRoundTrip(d: PathData)
    requires SafeShape(d)
    ensures ReadData(PrefixText(d.prefix, SegmentsText(d.segments))) == Some(d)
  {
    SegmentsRoundTrip(d.segments);
    if d.prefix.None? {
      ReadWithoutPrefix(SegmentsText(d.segments));
    } else {
      ReadWithPrefix(d.prefix.value, SegmentsText(d.segments));
    }
  }

  lemma ReadWithoutPrefix(rest: string)
    requires rest == [] || Peek(rest) == ' '
    ensures ReadData(Digits(0) + rest) == WithPrefix(None, ReadSegments(AfterSpace(rest)))
  {
    ReadPrinted(0, rest, MAX_LENGTH, true);
  }

  lemma ReadWithPrefix(s: string, rest: string)
    requires SafeLength(s)
    ensures ReadData(Digits(|s|) + Spaced(s + rest)) == WithPrefix(Some(s), ReadSegments(AfterSpace(rest)))
  {
    ReadString(s, rest, MAX_LENGTH, true);
  }

  lemma {:induction false} ReadSegmentsSafe(s: string)
    ensures ReadSegments(s).Some? ==>
              forall i :: 0 <= i < |ReadSegments(s).value| ==> SafeLength(ReadSegments(s).value[i])
    decreases |s|
  {
    if s != [] && NextSegment(s).Some? {
      ReadSegmentsSafe(NextSegment(s).value.1);
    }
  }

  /** Whatever is read has the safe shape. */
  lemma ReadDataSafe(s: string)
    ensures ReadData(s).Some? ==> SafeShape(ReadData(s).value)
  {
    var num := ReadNumber(s, 0, MAX_LENGTH, true);
    if num.Some? && Peek(num.value.1) != '\0' {
      var text := num.value.1[1..];
      ReadSegmentsSafe(text);
      if num.value.0 <= |text| { ReadSegmentsSafe(SkipString(text, num.value.0)); }
    }
  }

  /**
   Reading back the safe text of a path gives the path again if and only if prefix and
   segments are neither empty nor longer than 32767; spaces and digits in them do no harm.
   */
  lemma SafePathRoundTrip(p: Path, old': Path)
    requires p.data.Some?
    ensures SetSafePath(old', SafeText(p)) == (p, true) <==> SafeShape(p.data.value)
  {
    var d := p.data.value;
    var text := PrefixText(d.prefix, SegmentsText(d.segments));
    ReadPrinted(Code(p.kind), Spaced(text), MAX_TYPE, false);
    assert Spaced(text)[1..] == text;
    CodesDiffer(TypeOf(Code(p.kind)), p.kind);
    ReadDataSafe(text);
    if SafeShape(d) {
      DataRoundTrip(d);
    }
  }

  lemma CodesDiffer(a: ServerType, b: ServerType)
    ensures Code(a) == Code(b) ==> a == b
  {}

  /** The text determines the path: different safe paths have different texts. */
  lemma SafeTextInjective(p: Path, q: Path)
    requires p.data.Some? && q.data.Some? && SafeShape(p.data.value) && SafeShape(q.data.value)
    requires SafeText(p) == SafeText(q)
    ensures p == q
  {
    SafePathRoundTrip(p, p);
    SafePathRoundTrip(q, p);
  }
}
