/**
 The safe path printer and parser as they work in place: the printer fills a buffer of
 precomputed length through a write position, the parser moves a cursor over the text.
 */
module SafePathText {
  import opened Optional
  import opened ServerPath
  import opened SafePath

  /** String sizes are 64-bit numbers. */
  predicate Fits(s: string) {
    |s| < SIZE_LIMIT
  }

  predicate FittingData(d: PathData) {
    && (d.prefix.Some? ==> Fits(d.prefix.value))
    && forall i :: 0 <= i < |d.segments| ==> Fits(d.segments[i])
  }

  // ---------------------------------------------------------------- strings as they are copied

  function FirstZero(s: string): (n: nat)
    ensures n <= |s| && (n < |s| ==> s[n] == '\0')
    ensures forall i :: 0 <= i < n ==> s[i] != '\0'
  {
    if s == [] || s[0] == '\0' then 0 else 1 + FirstZero(s[1..])
  }

  function Zeros(n: nat): string {
    seq(n, _ => '\0')
  }

  /** Copying stops at the first zero, and the buffer holds zeros behind it. */
  function Copied(s: string): (r: string)
    ensures |r| == |s|
  {
    s[..FirstZero(s)] + Zeros(|s| - FirstZero(s))
  }

  function CopiedAll(segments: seq<string>): (r: seq<string>)
    ensures |r| == |segments|
    ensures forall i :: 0 <= i < |r| ==> r[i] == Copied(segments[i])
  {
    seq(|segments|, i requires 0 <= i < |segments| => Copied(segments[i]))
  }

  function CopiedPrefix(prefix: Option<string>): Option<string> {
    if prefix.Some? then Some(Copied(prefix.value)) else None
  }

  function CopiedData(d: PathData): PathData {
    PathData(CopiedPrefix(d.prefix), CopiedAll(d.segments))
  }

  function CopiedPath(p: Path): Path {
    if p.data.Some? then p.(data := Some(CopiedData(p.data.value))) else p
  }

  /** Behind a zero there are only zeros. */
  predicate ZerosLast(s: string) {
    forall i, j :: 0 <= i < j < |s| && s[i] == '\0' ==> s[j] == '\0'
  }

  predicate ZerosLastIn(d: PathData) {
    && (d.prefix.Some? ==> ZerosLast(d.prefix.value))
    && forall i :: 0 <= i < |d.segments| ==> ZerosLast(d.segments[i])
  }

  lemma CopiedExactly(s: string)
    ensures Copied(s) == s <==> ZerosLast(s)
  {
    var n := FirstZero(s);
    if Copied(s) == s {
      forall i, j | 0 <= i < j < |s| && s[i] == '\0' ensures s[j] == '\0' {
        assert n <= i && Copied(s)[j] == '\0';
      }
    } else {
      var k :| 0 <= k < |s| && Copied(s)[k] != s[k];
      assert n < k && s[n] == '\0' && s[k] != '\0';
    }
  }

  lemma CopiedDataExactly(d: PathData)
    ensures CopiedData(d) == d <==> ZerosLastIn(d)
  {
    if d.prefix.Some? {
      CopiedExactly(d.prefix.value);
    }
    forall i | 0 <= i < |d.segments| ensures Copied(d.segments[i]) == d.segments[i] <==> ZerosLast(d.segments[i]) {
      CopiedExactly(d.segments[i]);
    }
    if ZerosLastIn(d) {
      assert CopiedAll(d.segments) == d.segments;
    }
  }

  lemma CopiedShape(d: PathData)
    ensures SafeShape(CopiedData(d)) <==> SafeShape(d)
  {
    var c := CopiedAll(d.segments);
    if SafeShape(CopiedData(d)) {
      assert forall i :: 0 <= i < |c| ==> SafeLength(c[i]);
    }
  }

  lemma ReadShape(old': Path, text: string, p: Path)
    requires p.data.Some? && SetSafePath(old', text) == (p, true)
    ensures SafeShape(p.data.value)
  {
    var num := ReadNumber(text, 0, MAX_TYPE, false);
    ReadDataSafe(num.value.1[1..]);
  }

  /**
   Reading back what the printer printed gives the path again if and only if prefix and segments are neither
   empty nor longer than 32767, and have only zeros behind a zero.
   */
  lemma PrintedRoundTrip(p: Path, old': Path)
    requires p.data.Some?
    ensures SetSafePath(old', SafeText(CopiedPath(p))) == (p, true)
            <==> SafeShape(p.data.value) && ZerosLastIn(p.data.value)
  {
    SafePathRoundTrip(CopiedPath(p), old');
    CopiedShape(p.data.value);
    CopiedDataExactly(p.data.value);
    if SetSafePath(old', SafeText(CopiedPath(p))) == (p, true) {
      ReadShape(old', SafeText(CopiedPath(p)), p);
    }
  }

  // ---------------------------------------------------------------- printing

  /** Nothing was written from `t` on. */
  predicate ZeroFrom(buf: array<char>, t: nat)
    reads buf
  {
    forall i :: t <= i < buf.Length ==> buf[i] == '\0'
  }

  function Reversed(s: string): (r: string)
    ensures |r| == |s|
    ensures forall k :: 0 <= k < |s| ==> r[k] == s[|s| - 1 - k]
  {
    if s == [] then [] else Reversed(s[1..]) + [s[0]]
  }

  /** The digits of a number, last one first, in a scratch buffer of twenty characters. */
  method FillScratch(tmp: array<char>, number: nat) returns (c: nat)
    requires number < SIZE_LIMIT && tmp.Length == INT_LENGTH
    modifies tmp
    ensures c == |Digits(number)| <= INT_LENGTH
    ensures Reversed(tmp[..c]) == Digits(number)
  {
    SizesHaveTwentyDigits();
    DigitsLength(number, INT_LENGTH);
    var n: nat := number;
    c := 0;
    var more := true;
    while more
      invariant c <= |Digits(number)| <= INT_LENGTH
      invariant Digits(number) == (if more then Digits(n) else []) + Reversed(tmp[..c])
      decreases more, n
    {
      var d := DigitChar(n % 10);
      ghost var before := tmp[..c];
      ReversedPush(before, d);
      DigitsShift(n, Reversed(before));
      tmp[c] := d;
      assert tmp[..c + 1] == before + [d];
      c := c + 1;
      n := n / 10;
      more := n > 0;
    }
  }

  lemma DigitsShift(n: nat, tail: string)
    ensures Digits(n) + tail == (if n / 10 > 0 then Digits(n / 10) else []) + ([DigitChar(n % 10)] + tail)
  {}

  /** Prints a number at the write position. */
  method SprintNumber(buf: array<char>, t: nat, number: nat) returns (t': nat)
    requires number < SIZE_LIMIT && t + |Digits(number)| <= buf.Length && ZeroFrom(buf, t)
    modifies buf
    ensures t' == t + |Digits(number)| && ZeroFrom(buf, t')
    ensures buf[..t'] == old(buf[..t]) + Digits(number)
  {
    var tmp := new char[INT_LENGTH];
    var c := FillScratch(tmp, number);
    t' := CopyBackwards(buf, t, tmp[..c]);
  }

  method CopyBackwards(buf: array<char>, t: nat, scratch: string) returns (t': nat)
    requires t + |scratch| <= buf.Length && ZeroFrom(buf, t)
    modifies buf
    ensures t' == t + |scratch| && buf[..t'] == old(buf[..t]) + Reversed(scratch) && ZeroFrom(buf, t')
  {
    var c := |scratch|;
    t' := t;
    while c > 0
      invariant 0 <= c <= |scratch| && t' == t + (|scratch| - c)
      invariant buf[..t] == old(buf[..t]) && ZeroFrom(buf, t')
      invariant buf[t..t'] == Reversed(scratch)[..t' - t]
    {
      c := c - 1;
      buf[t'] := scratch[c];
      t' := t' + 1;
    }
    assert buf[..t'] == buf[..t] + buf[t..t'];
  }

  lemma ReversedPush(s: string, c: char)
    ensures Reversed(s + [c]) == [c] + Reversed(s)
  {}

  method PutSpace(buf: array<char>, t: nat) returns (t': nat)
    requires t < buf.Length && ZeroFrom(buf, t)
    modifies buf
    ensures t' == t + 1 && buf[..t'] == old(buf[..t]) + [' '] && ZeroFrom(buf, t')
  {
    buf[t] := ' ';
    t' := t + 1;
  }

  /** Copies a string up to its first zero, and a zero; the write position moves by the string's size. */
  method CopyString(buf: array<char>, t: nat, s: string) returns (t': nat)
    requires t + |s| < buf.Length && ZeroFrom(buf, t)
    modifies buf
    ensures t' == t + |s| && buf[..t'] == old(buf[..t]) + Copied(s) && ZeroFrom(buf, t')
  {
    var k := 0;
    while k < |s| && s[k] != '\0'
      invariant k <= FirstZero(s)
      invariant buf[..t] == old(buf[..t]) && ZeroFrom(buf, t + k)
      invariant buf[t..t + k] == s[..k]
    {
      buf[t + k] := s[k];
      k := k + 1;
    }
    assert k == FirstZero(s);
    buf[t + k] := '\0';
    t' := t + |s|;
    assert buf[t..t'] == Copied(s);
    assert buf[..t'] == buf[..t] + buf[t..t'];
  }

  /** The length set aside for the segments from `i` on. */
  function Reserve(segments: seq<string>): nat {
    if segments == [] then 0 else |segments[0]| + 2 + INT_LENGTH + Reserve(segments[1..])
  }

  method PutSegment(buf: array<char>, t: nat, s: string) returns (t': nat)
    requires Fits(s) && t + |s| + 2 + INT_LENGTH < buf.Length && ZeroFrom(buf, t)
    modifies buf
    ensures t <= t' <= t + |s| + 2 + INT_LENGTH && ZeroFrom(buf, t')
    ensures buf[..t'] == old(buf[..t]) + Spaced(Digits(|s|) + Spaced(Copied(s)))
  {
    SizesHaveTwentyDigits();
    DigitsLength(|s|, INT_LENGTH);
    ghost var before := buf[..t];
    t' := PutSpace(buf, t);
    t' := SprintNumber(buf, t', |s|);
    t' := PutSpace(buf, t');
    t' := CopyString(buf, t', s);
    SpacedAssoc(before, Digits(|s|), Copied(s));
  }

  lemma SpacedAssoc(before: string, ds: string, s: string)
    ensures (((before + [' ']) + ds) + [' ']) + s == before + Spaced(ds + Spaced(s))
  {}

  lemma SegmentsTextUnfold(segments: seq<string>)
    requires segments != []
    ensures SegmentsText(segments) == Spaced(Digits(|segments[0]|) + Spaced(segments[0])) + SegmentsText(segments[1..])
  {
    var (ds, s, rest) := (Digits(|segments[0]|), segments[0], SegmentsText(segments[1..]));
    assert [' '] + (ds + ([' '] + (s + rest))) == ([' '] + (ds + ([' '] + s))) + rest;
  }

  /** The write position never passes the precomputed length, terminating zeros included. */
  method GetSafePath(p: Path) returns (text: string)
    requires p.data.Some? ==> FittingData(p.data.value)
    ensures text == SafeText(CopiedPath(p))
  {
    if p.data.None? {
      return "";
    }
    var data := p.data.value;
    var len := TextLength(data);
    var buf := new char[len](_ => '\0');
    var t := PutHead(buf, p);
    text := PutSegments(buf, t, data.segments);
  }

  method TextLength(data: PathData) returns (len: nat)
    ensures len == 5 + INT_LENGTH + PrefixSize(data) + Reserve(data.segments)
  {
    len := 5 + INT_LENGTH + PrefixSize(data);
    var i := 0;
    while i < |data.segments|
      invariant i <= |data.segments|
      invariant len + Reserve(data.segments[i..]) == 5 + INT_LENGTH + PrefixSize(data) + Reserve(data.segments)
    {
      assert data.segments[i..][1..] == data.segments[i + 1..];
      len := len + |data.segments[i]| + 2 + INT_LENGTH;
      i := i + 1;
    }
  }

  lemma PutStep(before: string, segments: seq<string>, i: nat)
    requires i < |segments|
    ensures Reserve(segments[i..]) == |segments[i]| + 2 + INT_LENGTH + Reserve(segments[i + 1..])
    ensures before + SegmentsText(segments[i..])
            == (before + Spaced(Digits(|segments[i]|) + Spaced(segments[i]))) + SegmentsText(segments[i + 1..])
  {
    assert segments[i..][1..] == segments[i + 1..];
    SegmentsTextUnfold(segments[i..]);
  }

  lemma {:induction false} SameReserve(segments: seq<string>)
    ensures Reserve(CopiedAll(segments)) == Reserve(segments)
  {
    if segments != [] {
      SameReserve(segments[1..]);
      assert CopiedAll(segments)[1..] == CopiedAll(segments[1..]);
    }
  }

  method PutSegments(buf: array<char>, start: nat, segments: seq<string>) returns (text: string)
    requires start + Reserve(segments) < buf.Length && ZeroFrom(buf, start)
    requires forall i :: 0 <= i < |segments| ==> Fits(segments[i])
    modifies buf
    ensures text == old(buf[..start]) + SegmentsText(CopiedAll(segments))
  {
    var i, t: nat := 0, start;
    ghost var copied := CopiedAll(segments);
    SameReserve(segments);
    assert copied[0..] == copied;
    ghost var goal := buf[..t] + SegmentsText(copied);
    while i < |segments|
      invariant i <= |segments| && t + Reserve(copied[i..]) < buf.Length && ZeroFrom(buf, t)
      invariant buf[..t] + SegmentsText(copied[i..]) == goal
    {
      PutStep(buf[..t], copied, i);
      t := PutSegment(buf, t, segments[i]);
      i := i + 1;
    }
    assert buf[..t] + [] == buf[..t];
    text := buf[..t];
  }

  function PrefixSize(data: PathData): nat {
    if data.prefix.Some? then |data.prefix.value| else 0
  }

  /** Type and prefix. */
  method PutHead(buf: array<char>, p: Path) returns (t: nat)
    requires p.data.Some? && FittingData(p.data.value) && ZeroFrom(buf, 0)
    requires buf.Length == 5 + INT_LENGTH + PrefixSize(p.data.value) + Reserve(p.data.value.segments)
    modifies buf
    ensures t + Reserve(p.data.value.segments) < buf.Length && ZeroFrom(buf, t)
    ensures buf[..t] + SegmentsText(CopiedAll(p.data.value.segments)) == SafeText(CopiedPath(p))
  {
    var data := p.data.value;
    var size := PrefixSize(data);
    SizesHaveTwentyDigits();
    DigitsLength(size, INT_LENGTH);
    DigitsLength(Code(p.kind), 2);
    assert Power10(2) == 100;
    t := SprintNumber(buf, 0, Code(p.kind));
    t := PutSpace(buf, t);
    t := SprintNumber(buf, t, size);
    ghost var (head, rest) := (Digits(Code(p.kind)), SegmentsText(CopiedAll(data.segments)));
    if data.prefix.Some? {
      t := PutSpace(buf, t);
      t := CopyString(buf, t, data.prefix.value);
      PrefixAssoc(head, Digits(size), Copied(data.prefix.value), rest);
    } else {
      PrefixAssoc(head, Digits(0), [], rest);
    }
  }

  lemma PrefixAssoc(head: string, ds: string, s: string, rest: string)
    ensures (([] + head + [' ']) + ds) + [' '] + s + rest == head + Spaced(ds + Spaced(s + rest))
    ensures (([] + head + [' ']) + ds) + rest == head + Spaced(ds + rest)
  {}

  // ---------------------------------------------------------------- parsing

  /** The character under the cursor; the end reads as the terminating zero and is never passed. */
  function At(text: string, p: nat): char
    requires p <= |text|
    ensures At(text, p) == Peek(text[p..])
  {
    if p == |text| then '\0' else text[p]
  }

  method ReadNumberAt(text: string, start: nat, bound: nat, endAllowed: bool) returns (ok: bool, v: nat, p: nat)
    requires start <= |text|
    ensures ok == ReadNumber(text[start..], 0, bound, endAllowed).Some?
    ensures ok ==> start < p <= |text| && ReadNumber(text[start..], 0, bound, endAllowed).value == (v, text[p..])
  {
    v, p := 0, start;
    var more := true;
    while more
      invariant start <= p <= |text| && (!more ==> start < p)
      invariant ReadNumber(text[start..], 0, bound, endAllowed)
                == if more then ReadNumber(text[p..], v, bound, endAllowed) else Some((v, text[p..]))
      decreases more, |text| - p
    {
      var c := At(text, p);
      if !IsDigit(c) {
        return false, v, p;
      }
      assert text[p..][1..] == text[p + 1..];
      v := v * 10 + DigitValue(c);
      if v > bound {
        return false, v, p;
      }
      p := p + 1;
      more := !(At(text, p) == ' ' || (endAllowed && At(text, p) == '\0'));
    }
    ok := true;
  }

  /** The text from the cursor on; the cursor may stand one past the end. */
  function Rest(text: string, p: nat): string {
    if p < |text| then text[p..] else []
  }

  /** One segment with its length in front of it. */
  method ReadSegmentAt(text: string, start: nat) returns (ok: bool, segment: string, p: nat)
    requires start < |text|
    ensures ok ==> start < p
    ensures NextSegment(text[start..]) == if ok then Some((segment, Rest(text, p))) else None
  {
    var numOk, n, q := ReadNumberAt(text, start, MAX_LENGTH, false);
    if !numOk {
      return false, [], start;
    }
    NextSegmentAt(text, start, n, q);
    if n == 0 || n > |text| - (q + 1) {
      return false, [], start;
    }
    return true, text[q + 1..q + 1 + n], q + 1 + n + 1;
  }

  lemma NextSegmentFrom(s: string, n: nat, rest: string)
    requires ReadNumber(s, 0, MAX_LENGTH, false) == Some((n, rest))
    ensures rest != []
    ensures NextSegment(s) == if n == 0 || n > |rest| - 1 then None else Some((rest[1..][..n], SkipString(rest[1..], n)))
  {}

  lemma NextSegmentAt(text: string, start: nat, n: nat, q: nat)
    requires start < q <= |text| && ReadNumber(text[start..], 0, MAX_LENGTH, false) == Some((n, text[q..]))
    ensures NextSegment(text[start..])
            == if n == 0 || q + 1 + n > |text| then None else Some((text[q + 1..q + 1 + n], Rest(text, q + 1 + n + 1)))
  {
    NextSegmentFrom(text[start..], n, text[q..]);
    assert text[q..][1..] == text[q + 1..];
    if q + 1 + n <= |text| {
      SkipStringAt(text, q + 1, n);
    }
  }

  /** The segments read so far, followed by those still to be read. */
  function Joined(done: seq<string>, r: Option<seq<string>>): Option<seq<string>> {
    if r.None? then None else Some(done + r.value)
  }

  lemma JoinedStep(done: seq<string>, s: string, r: Option<seq<string>>)
    ensures Joined(done, Prepend(s, r)) == Joined(done + [s], r)
    ensures Joined([], r) == r && Joined(done, Some([])) == Some(done)
  {
    assert done + [] == done;
    if r.Some? {
      assert done + ([s] + r.value) == (done + [s]) + r.value;
      assert [] + r.value == r.value;
    }
  }

  method ReadSegmentsAt(text: string, start: nat) returns (ok: bool, segments: seq<string>)
    ensures ReadSegments(Rest(text, start)) == if ok then Some(segments) else None
  {
    var p: nat := start;
    segments := [];
    ghost var goal := ReadSegments(Rest(text, start));
    JoinedStep([], "", goal);
    while p < |text|
      invariant goal == Joined(segments, ReadSegments(Rest(text, p)))
      decreases |text| - p
    {
      var segment;
      ok, segment, p := ReadSegmentAt(text, p);
      if !ok {
        return false, segments;
      }
      JoinedStep(segments, segment, ReadSegments(Rest(text, p)));
      segments := segments + [segment];
    }
    JoinedStep(segments, "", None);
    ok := true;
  }

  method ReadAfterLengthAt(text: string, n: nat, start: nat) returns (ok: bool, data: PathData)
    requires start <= |text|
    ensures ReadAfterLength(n, text[start..]) == if ok then Some(data) else None
  {
    var p := start;
    data := PathData(None, []);
    if n > |text| - p {
      return false, data;
    }
    if n > 0 {
      data := data.(prefix := Some(text[p..p + n]));
      p := p + n + 1;
    }
    ReadFrom(text, n, start);
    var segments;
    ok, segments := ReadSegmentsAt(text, p);
    data := data.(segments := segments);
  }

  /** With `n` no more than the text holds, the prefix and then the segments are read. */
  lemma ReadFrom(text: string, n: nat, start: nat)
    requires start + n <= |text|
    ensures ReadAfterLength(n, text[start..])
            == if n == 0 then WithPrefix(None, ReadSegments(Rest(text, start)))
               else WithPrefix(Some(text[start..start + n]), ReadSegments(Rest(text, start + n + 1)))
  {
    SkipStringAt(text, start, n);
    assert Rest(text, start) == text[start..];
  }

  lemma SkipStringAt(text: string, p: nat, n: nat)
    requires p + n <= |text|
    ensures text[p..][..n] == text[p..p + n] && SkipString(text[p..], n) == Rest(text, p + n + 1)
  {}

  lemma ReadDataEnds(text: string, start: nat, n: nat, p: nat)
    requires start < p <= |text| && At(text, p) == '\0'
    requires ReadNumber(text[start..], 0, MAX_LENGTH, true) == Some((n, text[p..]))
    ensures ReadData(text[start..]) == if n == 0 then Some(PathData(None, [])) else None
  {}

  lemma ReadDataGoesOn(text: string, start: nat, n: nat, p: nat)
    requires start < p <= |text| && At(text, p) != '\0'
    requires ReadNumber(text[start..], 0, MAX_LENGTH, true) == Some((n, text[p..]))
    ensures ReadData(text[start..]) == ReadAfterLength(n, text[p + 1..])
  {
    assert text[p..][1..] == text[p + 1..];
  }

  method ReadDataAt(text: string, start: nat) returns (ok: bool, data: PathData)
    requires start <= |text|
    ensures ReadData(text[start..]) == if ok then Some(data) else None
  {
    ok, data := false, PathData(None, []);
    ghost var goal := ReadData(text[start..]);
    var numOk, n, p := ReadNumberAt(text, start, MAX_LENGTH, true);
    if numOk {
      if At(text, p) == '\0' {
        ReadDataEnds(text, start, n, p);
        ok := n == 0;
      } else {
        ReadDataGoesOn(text, start, n, p);
        ok, data := ReadAfterLengthAt(text, n, p + 1);
      }
    }
    assert goal == if ok then Some(data) else None;
  }

  /** A failure empties the path; a type that was read stays set. */
  method DoSetSafePath(path: Path, text: string) returns (result: Path, ok: bool)
    ensures (result, ok) == SetSafePath(path, text)
  {
    assert text[0..] == text;
    var numOk, code, p := ReadNumberAt(text, 0, MAX_TYPE, false);
    if !numOk {
      return path.(data := None), false;
    }
    assert Peek(text[p..]) == ' ' && text[p..][1..] == text[p + 1..];
    var data;
    ok, data := ReadDataAt(text, p + 1);
    result := Path(TypeOf(code), if ok then Some(data) else None);
  }
}
