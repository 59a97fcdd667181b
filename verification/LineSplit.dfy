/**
 Splitting listing data into lines. The pure split works on the whole input; the partial
 split emits what is certain while more data may come.
 */
module LineSplit {

  const MAX_LINE: nat := 10000

  type Line = seq<char>

  /** The lines found, and whether an over-long line ended the search. */
  datatype Outcome = Outcome(lines: seq<Line>, failed: bool)

  predicate IsBreak(c: char) {
    c == '\r' || c == '\n' || c == '\0'
  }

  predicate IsBlank(c: char) {
    IsBreak(c) || c == ' ' || c == '\t'
  }

  /** The number of blanks at the start. */
  function BlankLen(s: seq<char>): (n: nat)
    ensures n <= |s|
    ensures forall i :: 0 <= i < n ==> IsBlank(s[i])
    ensures n < |s| ==> !IsBlank(s[n])
  {
    if s != [] && IsBlank(s[0]) then 1 + BlankLen(s[1..]) else 0
  }

  /** The number of characters before the first line break. */
  function LineLen(s: seq<char>): (n: nat)
    ensures n <= |s|
    ensures forall i :: 0 <= i < n ==> !IsBreak(s[i])
    ensures n < |s| ==> IsBreak(s[n])
  {
    if s != [] && !IsBreak(s[0]) then 1 + LineLen(s[1..]) else 0
  }

  function Trimmed(s: seq<char>): (t: seq<char>)
    ensures |t| <= |s| && (t != [] ==> !IsBlank(t[0]))
  {
    s[BlankLen(s)..]
  }

  function Prepend(lines: seq<Line>, o: Outcome): Outcome {
    Outcome(lines + o.lines, o.failed)
  }

  lemma PrependTwice(a: seq<Line>, b: seq<Line>, o: Outcome)
    ensures Prepend(a, Prepend(b, o)) == Prepend(a + b, o)
    ensures Prepend(a, Outcome(b, true)) == Outcome(a + b, true)
    ensures Prepend([], o) == o
  {
    assert a + (b + o.lines) == (a + b) + o.lines;
    assert [] + o.lines == o.lines;
  }

  /** The whole input is there: leading blanks are trimmed, a line ends at CR, LF, NUL or the end. */
  function Split(s: seq<char>): Outcome
    decreases |s|
  {
    var t := Trimmed(s);
    if t == [] then Outcome([], false)
    else if LineLen(t) > MAX_LINE then Outcome([], true)
    else Prepend([t[..LineLen(t)]], Split(t[LineLen(t)..]))
  }

  /** One attempt to take a line off the data. */
  datatype Attempt = Taken(line: Line, rest: seq<char>) | Nothing(rest: seq<char>) | TooLong

  function TakeLine(s: seq<char>, atEnd: bool): (a: Attempt)
    ensures a.Taken? ==> |a.rest| < |s|
  {
    var t := Trimmed(s);
    var n := LineLen(t);
    if t == [] then Nothing([])
    else if n > MAX_LINE then TooLong
    else if n == |t| && !atEnd then Nothing(t)
    else Taken(t[..n], t[n..])
  }

  /** Takes lines for as long as there are some: the lines, what is left, and whether it failed. */
  function TakeLines(s: seq<char>, atEnd: bool): (r: (seq<Line>, seq<char>, bool))
    decreases |s|
  {
    match TakeLine(s, atEnd)
    case Taken(line, rest) =>
      var (lines, left, failed) := TakeLines(rest, atEnd);
      ([line] + lines, left, failed)
    case Nothing(rest) => ([], rest, false)
    case TooLong => ([], s, true)
  }

  // ---------------------------------------------------------------- more data may follow

  lemma {:induction false} LineLenExtends(t: seq<char>, x: seq<char>)
    ensures LineLen(t) < |t| ==> LineLen(t + x) == LineLen(t)
    ensures LineLen(t) == |t| ==> LineLen(t + x) == |t| + LineLen(x)
  {
    if t == [] {
      assert t + x == x;
    } else if !IsBreak(t[0]) {
      LineLenExtends(t[1..], x);
      assert (t + x)[1..] == t[1..] + x;
    }
  }

  lemma {:induction false} BlankLenExtends(s: seq<char>, x: seq<char>)
    ensures BlankLen(s) < |s| ==> BlankLen(s + x) == BlankLen(s)
    ensures BlankLen(s) == |s| ==> BlankLen(s + x) == |s| + BlankLen(x)
  {
    if s == [] {
      assert s + x == x;
    } else if IsBlank(s[0]) {
      BlankLenExtends(s[1..], x);
      assert (s + x)[1..] == s[1..] + x;
    }
  }

  lemma SuffixOver(s: seq<char>, x: seq<char>, n: nat)
    requires n <= |s|
    ensures (s + x)[n..] == s[n..] + x
  {}

  lemma SuffixBehind(s: seq<char>, x: seq<char>, n: nat)
    requires n <= |x|
    ensures (s + x)[|s| + n..] == x[n..]
  {}

  lemma DropBlank(s: seq<char>, x: seq<char>)
    requires BlankLen(s) == |s|
    ensures Trimmed(s + x) == Trimmed(x)
  {
    BlankLenExtends(s, x);
    SuffixBehind(s, x, BlankLen(x));
  }

  lemma DropBlanks(s: seq<char>, x: seq<char>)
    requires BlankLen(s) < |s|
    ensures Trimmed(s + x) == Trimmed(s) + x
  {
    BlankLenExtends(s, x);
    SuffixOver(s, x, BlankLen(s));
  }

  lemma NothingToDrop(t: seq<char>)
    requires t != [] && !IsBlank(t[0])
    ensures Trimmed(t) == t
  {}

  lemma TrimmedExtends(s: seq<char>, x: seq<char>)
    ensures Trimmed(s + x) == Trimmed(Trimmed(s) + x)
  {
    var t := Trimmed(s);
    if BlankLen(s) == |s| {
      DropBlank(s, x);
      assert t + x == x;
    } else {
      DropBlanks(s, x);
      NothingToDrop(t + x);
    }
  }

  lemma SplitOfTrimmed(s: seq<char>, s': seq<char>)
    requires Trimmed(s) == Trimmed(s')
    ensures Split(s) == Split(s')
  {}

  /** Blanks at the start make no difference, now or after more data has come. */
  lemma TrimmingIsHarmless(s: seq<char>, x: seq<char>)
    ensures Split(s + x) == Split(Trimmed(s) + x)
  {
    TrimmedExtends(s, x);
    SplitOfTrimmed(s + x, Trimmed(s) + x);
  }

  /** What an attempt foretells of the split once `x` has been added. */
  function Continued(a: Attempt, x: seq<char>): Outcome {
    match a
    case Taken(line, rest) => Prepend([line], Split(rest + x))
    case Nothing(rest) => Split(rest + x)
    case TooLong => Outcome([], true)
  }

  /** A complete line stays the first line. */
  lemma CompleteLine(t: seq<char>, x: seq<char>)
    requires t != [] && !IsBlank(t[0]) && LineLen(t) < |t|
    ensures Split(t + x) == if LineLen(t) > MAX_LINE then Outcome([], true)
                            else Prepend([t[..LineLen(t)]], Split(t[LineLen(t)..] + x))
  {
    BlankLenExtends(t, x);
    LineLenExtends(t, x);
    assert Trimmed(t + x) == t + x;
    var n := LineLen(t);
    assert (t + x)[..n] == t[..n] && (t + x)[n..] == t[n..] + x;
  }

  /** An over-long beginning of a line stays over-long. */
  lemma OverlongStart(t: seq<char>, x: seq<char>)
    requires t != [] && !IsBlank(t[0]) && LineLen(t) == |t| > MAX_LINE
    ensures Split(t + x) == Outcome([], true)
  {
    BlankLenExtends(t, x);
    LineLenExtends(t, x);
    assert Trimmed(t + x) == t + x;
  }

  /** What one attempt on partial data does agrees with the split of any continuation. */
  lemma TakeLineIsCertain(s: seq<char>, x: seq<char>)
    ensures Split(s + x) == Continued(TakeLine(s, false), x)
  {
    TrimmingIsHarmless(s, x);
    var t := Trimmed(s);
    if t != [] {
      if LineLen(t) < |t| {
        CompleteLine(t, x);
      } else if LineLen(t) > MAX_LINE {
        OverlongStart(t, x);
      }
    }
  }

  /** What lines taken, data left and failure so far say about the split once `x` has been added. */
  function ContinuedLines(r: (seq<Line>, seq<char>, bool), x: seq<char>): Outcome {
    if r.2 then Outcome(r.0, true) else Prepend(r.0, Split(r.1 + x))
  }

  /** The lines taken from partial data are those of the split, whatever follows. */
  lemma {:induction false} TakeLinesIsCertain(s: seq<char>, x: seq<char>)
    ensures Split(s + x) == ContinuedLines(TakeLines(s, false), x)
    decreases |s|
  {
    TakeLineIsCertain(s, x);
    match TakeLine(s, false)
    case Taken(line, rest) =>
      TakeLinesIsCertain(rest, x);
      var r := TakeLines(rest, false);
      PrependTwice([line], r.0, if r.2 then Outcome([], true) else Split(r.1 + x));
    case Nothing(rest) => PrependTwice([], [], Split(rest + x));
    case TooLong =>
  }

  /** With all data there, taking lines is the split, and nothing is left unless it failed. */
  lemma {:induction false} TakeLinesAtEnd(s: seq<char>)
    ensures var (lines, left, failed) := TakeLines(s, true);
            Split(s) == Outcome(lines, failed) && (!failed ==> left == [])
    decreases |s|
  {
    match TakeLine(s, true)
    case Taken(_, rest) => TakeLinesAtEnd(rest);
    case _ =>
  }

  // ---------------------------------------------------------------- whole sessions

  const PARSE_THRESHOLD: nat := 512

  /** The session so far: unconsumed data, bytes seen, lines emitted, and whether it was aborted. */
  datatype Session = Session(rest: seq<char>, total: nat, lines: seq<Line>, failed: bool)

  function Parse(s: Session, atEnd: bool): Session {
    var (lines, left, failed) := TakeLines(s.rest, atEnd);
    s.(rest := left, lines := s.lines + lines, failed := failed)
  }

  /** Data is only looked at once there is enough of it; after a failure the caller stops feeding. */
  function AddData(s: Session, chunk: seq<char>): Session {
    if s.failed then s else
    var s1 := s.(rest := s.rest + chunk, total := s.total + |chunk|);
    if s1.total < PARSE_THRESHOLD then s1 else Parse(s1, false)
  }

  function Feed(chunks: seq<seq<char>>): Session {
    if chunks == [] then Session([], 0, [], false)
    else AddData(Feed(chunks[..|chunks| - 1]), chunks[|chunks| - 1])
  }

  function Joined(chunks: seq<seq<char>>): seq<char> {
    if chunks == [] then [] else Joined(chunks[..|chunks| - 1]) + chunks[|chunks| - 1]
  }

  function Finish(s: Session): Outcome {
    if s.failed then Outcome(s.lines, true) else
    var s' := Parse(s, true);
    Outcome(s'.lines, s'.failed)
  }

  /** The lines emitted and the data still to be looked at stand for all the data fed. */
  predicate StandsFor(s: Session, all: seq<char>, x: seq<char>) {
    Split(all + x) == if s.failed then Outcome(s.lines, true) else Prepend(s.lines, Split(s.rest + x))
  }

  lemma ParseStandsFor(s: Session, all: seq<char>, x: seq<char>)
    requires !s.failed && StandsFor(s, all, x)
    ensures StandsFor(Parse(s, false), all, x)
  {
    TakeLinesIsCertain(s.rest, x);
    var r := TakeLines(s.rest, false);
    PrependTwice(s.lines, r.0, if r.2 then Outcome([], true) else Split(r.1 + x));
  }

  lemma AddDataStandsFor(s: Session, c: seq<char>, all: seq<char>, x: seq<char>)
    requires StandsFor(s, all, c + x)
    ensures StandsFor(AddData(s, c), all + c, x)
  {
    assert (all + c) + x == all + (c + x);
    if !s.failed {
      var s1 := s.(rest := s.rest + c, total := s.total + |c|);
      assert (s.rest + c) + x == s.rest + (c + x);
      if s1.total >= PARSE_THRESHOLD { ParseStandsFor(s1, all + c, x); }
    }
  }

  lemma {:induction false} FeedIsCertain(chunks: seq<seq<char>>, x: seq<char>)
    ensures StandsFor(Feed(chunks), Joined(chunks), x)
  {
    if chunks == [] {
      assert [] + x == x && [] + Split(x).lines == Split(x).lines;
    } else {
      var (init, c) := (chunks[..|chunks| - 1], chunks[|chunks| - 1]);
      FeedIsCertain(init, c + x);
      AddDataStandsFor(Feed(init), c, Joined(init), x);
    }
  }

  /**
   However the input is cut into chunks, feeding them and then parsing the rest gives the lines
   of the pure split of the whole input, and fails exactly when that does.
   */
  lemma SplitIndependentOfChunks(chunks: seq<seq<char>>)
    ensures Finish(Feed(chunks)) == Split(Joined(chunks))
  {
    FeedIsCertain(chunks, []);
    var s := Feed(chunks);
    assert Joined(chunks) + [] == Joined(chunks) && s.rest + [] == s.rest;
    TakeLinesAtEnd(s.rest);
  }

  /** Two ways of cutting the same input give the same lines, and fail together or not at all. */
  lemma FailureIndependentOfChunks(chunks: seq<seq<char>>, others: seq<seq<char>>)
    requires Joined(chunks) == Joined(others)
    ensures Finish(Feed(chunks)) == Finish(Feed(others))
  {
    SplitIndependentOfChunks(chunks);
    SplitIndependentOfChunks(others);
  }

  /** The lines are clean: not empty, no breaks inside, no blank in front, within the limit. */
  lemma {:induction false} SplitLinesClean(s: seq<char>)
    ensures forall i :: 0 <= i < |Split(s).lines| ==> CleanLine(Split(s).lines[i])
    decreases |s|
  {
    var t := Trimmed(s);
    if t != [] && LineLen(t) <= MAX_LINE {
      SplitLinesClean(t[LineLen(t)..]);
    }
  }

  predicate CleanLine(l: Line) {
    && 0 < |l| <= MAX_LINE && !IsBlank(l[0])
    && forall i :: 0 <= i < |l| ==> !IsBreak(l[i])
  }

  // ---------------------------------------------------------------- what is shown of a line

  const BYTE_ORDER_MARK: char := '\U{feff}'

  /** A line as it is handed on: decoded, without a byte order mark in front. */
  function Shown(decode: Line -> Line, line: Line): Line {
    var text := decode(line);
    if text != [] && text[0] == BYTE_ORDER_MARK then text[1..] else text
  }

  /** Lines of which nothing is left are skipped. */
  function ShownAll(decode: Line -> Line, lines: seq<Line>): seq<Line> {
    if lines == [] then []
    else
      var line := Shown(decode, lines[|lines| - 1]);
      ShownAll(decode, lines[..|lines| - 1]) + (if line == [] then [] else [line])
  }

  lemma ShownOneMore(decode: Line -> Line, a: seq<Line>, line: Line)
    ensures ShownAll(decode, a + [line])
            == ShownAll(decode, a) + (if Shown(decode, line) == [] then [] else [Shown(decode, line)])
  {
    assert (a + [line])[..|a|] == a;
  }

  lemma {:induction false} ShownAppend(decode: Line -> Line, a: seq<Line>, b: seq<Line>)
    ensures ShownAll(decode, a + b) == ShownAll(decode, a) + ShownAll(decode, b)
    decreases |b|
  {
    if b == [] {
      assert a + b == a;
    } else {
      var (init, line) := (b[..|b| - 1], b[|b| - 1]);
      assert a + b == (a + init) + [line] && b == init + [line];
      ShownAppend(decode, a, init);
      ShownOneMore(decode, a + init, line);
      ShownOneMore(decode, init, line);
    }
  }
}
