/**
 The listing parser's line extraction: a list of received chunks and an offset into the first,
 scanned and copied from in place. Proved against the splitting of LineSplit.
 */
module ListingParser {
  import opened LineSplit
  import opened Optional

  type Chunks = seq<seq<char>>

  function Flat(chunks: Chunks): seq<char> {
    if chunks == [] then [] else chunks[0] + Flat(chunks[1..])
  }

  /** The data from offset `off` of chunk `i` on. */
  function DataFrom(chunks: Chunks, i: nat, off: nat): seq<char>
    requires i <= |chunks| && (i < |chunks| ==> off <= |chunks[i]|) && (i == |chunks| ==> off == 0)
  {
    Flat(chunks[i..])[off..]
  }

  predicate NonEmpty(chunks: Chunks) {
    forall i :: 0 <= i < |chunks| ==> chunks[i] != []
  }

  predicate Inside(chunks: Chunks, i: nat, off: nat) {
    i < |chunks| && off < |chunks[i]|
  }

  lemma {:induction false} FlatAppend(chunks: Chunks, c: seq<char>)
    ensures Flat(chunks + [c]) == Flat(chunks) + c
  {
    if chunks == [] {
      assert chunks + [c] == [c] && [c][1..] == [] && c + [] == c;
    } else {
      FlatAppend(chunks[1..], c);
      assert (chunks + [c])[1..] == chunks[1..] + [c];
    }
  }

  /** At a position inside a chunk, the data is that chunk's remainder followed by the later chunks. */
  lemma DataHere(chunks: Chunks, i: nat, off: nat)
    requires i < |chunks| && off <= |chunks[i]|
    ensures DataFrom(chunks, i, off) == chunks[i][off..] + DataFrom(chunks, i + 1, 0)
  {
    assert chunks[i..][1..] == chunks[i + 1..];
  }

  /** Where the position after (i, off) is. */
  function NextChunk(chunks: Chunks, i: nat, off: nat): nat
    requires Inside(chunks, i, off)
  {
    if off + 1 == |chunks[i]| then i + 1 else i
  }

  function NextOffset(chunks: Chunks, i: nat, off: nat): nat
    requires Inside(chunks, i, off)
  {
    if off + 1 == |chunks[i]| then 0 else off + 1
  }

  lemma DataNext(chunks: Chunks, i: nat, off: nat)
    requires Inside(chunks, i, off)
    ensures var d := DataFrom(chunks, i, off);
            && d != [] && d[0] == chunks[i][off]
            && d[1..] == DataFrom(chunks, NextChunk(chunks, i, off), NextOffset(chunks, i, off))
  {
    DataHere(chunks, i, off);
    if off + 1 == |chunks[i]| {
      assert chunks[i][off..] == [chunks[i][off]];
    } else {
      DataHere(chunks, i, off + 1);
      assert chunks[i][off..] == [chunks[i][off]] + chunks[i][off + 1..];
    }
  }

  lemma TrimOne(s: seq<char>)
    requires s != [] && IsBlank(s[0])
    ensures Trimmed(s) == Trimmed(s[1..])
  {
    assert s[1..][BlankLen(s[1..])..] == s[BlankLen(s)..];
  }

  lemma TrimStep(chunks: Chunks, i: nat, off: nat)
    requires Inside(chunks, i, off)
    ensures if IsBlank(chunks[i][off])
            then Trimmed(DataFrom(chunks, i, off)) == Trimmed(DataFrom(chunks, NextChunk(chunks, i, off), NextOffset(chunks, i, off)))
            else Trimmed(DataFrom(chunks, i, off)) == DataFrom(chunks, i, off)
  {
    DataNext(chunks, i, off);
    if IsBlank(chunks[i][off]) {
      TrimOne(DataFrom(chunks, i, off));
    }
  }

  lemma LineLenUnique(s: seq<char>, n: nat)
    requires n <= |s| && (forall k :: 0 <= k < n ==> !IsBreak(s[k])) && (n < |s| ==> IsBreak(s[n]))
    ensures LineLen(s) == n
  {}

  lemma SuffixAt(d: seq<char>, n: nat, tail: seq<char>)
    requires n < |d| && d[n..] == tail
    ensures tail != [] && d[n] == tail[0] && d[n + 1..] == tail[1..]
  {}

  /** Later positions have no more data after them. */
  lemma {:induction false} LaterHasLess(chunks: Chunks, i: nat, j: nat, off: nat)
    requires i <= j < |chunks| && off <= |chunks[j]|
    ensures |DataFrom(chunks, j, off)| <= |DataFrom(chunks, i, 0)|
    decreases j - i
  {
    DataHere(chunks, i, 0);
    if i < j {
      LaterHasLess(chunks, i + 1, j, off);
    } else {
      DataHere(chunks, i, off);
    }
  }

  /** A whole remainder of a chunk before the one where the line ends belongs to the line. */
  lemma WholeChunk(d: seq<char>, respos: nat, buflen: nat, chunks: Chunks, i: nat, startpos: nat, iter: nat, cur: nat)
    requires respos <= buflen <= |d| && i < iter <= |chunks| && startpos <= |chunks[i]|
    requires d[respos..] == DataFrom(chunks, i, startpos)
    requires if iter == |chunks| then buflen == |d| else cur <= |chunks[iter]| && DataFrom(chunks, iter, cur) == d[buflen..]
    ensures var n := |chunks[i]| - startpos;
            && respos + n <= buflen
            && chunks[i][startpos..startpos + n] == d[respos..respos + n]
            && d[respos + n..] == DataFrom(chunks, i + 1, 0)
  {
    DataHere(chunks, i, startpos);
    if iter < |chunks| {
      LaterHasLess(chunks, i + 1, iter, cur);
    }
    var n := |chunks[i]| - startpos;
    assert d[respos..][..n] == chunks[i][startpos..] && d[respos..][n..] == DataFrom(chunks, i + 1, 0);
  }

  /** The last piece of the line lies inside the chunk where the line ends. */
  lemma LastChunk(d: seq<char>, respos: nat, buflen: nat, chunks: Chunks, iter: nat, startpos: nat, cur: nat)
    requires respos <= buflen <= |d| && iter < |chunks| && startpos <= |chunks[iter]| && cur < |chunks[iter]|
    requires d[respos..] == DataFrom(chunks, iter, startpos)
    requires DataFrom(chunks, iter, cur) == d[buflen..]
    ensures startpos <= cur && cur - startpos == buflen - respos
    ensures chunks[iter][startpos..cur] == d[respos..buflen]
  {
    DataHere(chunks, iter, startpos);
    DataHere(chunks, iter, cur);
    assert d[respos..][..cur - startpos] == chunks[iter][startpos..cur];
  }

  /** Copies part of a chunk into the line buffer; both ranges lie inside. */
  method CopyInto(res: array<char>, respos: nat, src: seq<char>, startpos: nat, len: nat)
    requires respos + len <= res.Length && startpos + len <= |src|
    modifies res
    ensures res[..respos] == old(res[..respos])
    ensures res[respos..respos + len] == src[startpos..startpos + len]
  {
    for k := 0 to len
      invariant res[..respos] == old(res[..respos])
      invariant res[respos..respos + k] == src[startpos..startpos + k]
    {
      res[respos + k] := src[startpos + k];
    }
  }

  /** Continues a copy of `d` with a piece of a chunk that comes next in it. */
  method CopyNext(res: array<char>, ghost d: seq<char>, respos: nat, src: seq<char>, startpos: nat, len: nat)
    requires respos + len <= res.Length && startpos + len <= |src| && respos + len <= |d|
    requires res[..respos] == d[..respos] && src[startpos..startpos + len] == d[respos..respos + len]
    modifies res
    ensures res[..respos + len] == d[..respos + len]
  {
    CopyInto(res, respos, src, startpos, len);
    assert res[..respos + len] == res[..respos] + res[respos..respos + len];
    assert d[..respos + len] == d[..respos] + d[respos..respos + len];
  }

  /** Skips blanks; at the end of the data no chunk is left. */
  method SkipBlanks(chunks: Chunks, offset: nat) returns (i: nat, off: nat)
    requires NonEmpty(chunks) && Inside(chunks, 0, offset)
    ensures i <= |chunks| && if i < |chunks| then off < |chunks[i]| else off == 0
    ensures DataFrom(chunks, i, off) == Trimmed(DataFrom(chunks, 0, offset))
  {
    i, off := 0, offset;
    while i < |chunks| && IsBlank(chunks[i][off])
      invariant i <= |chunks| && if i < |chunks| then off < |chunks[i]| else off == 0
      invariant Trimmed(DataFrom(chunks, i, off)) == Trimmed(DataFrom(chunks, 0, offset))
      decreases |chunks| - i, if i < |chunks| then |chunks[i]| - off else 0
    {
      TrimStep(chunks, i, off);
      off := off + 1;
      if off >= |chunks[i]| {
        i := i + 1;
        off := 0;
      }
    }
    if i < |chunks| {
      TrimStep(chunks, i, off);
    }
  }

  /** Finds the end of the line that starts at the offset: a break, or the end of the data, where the offset
      into the last chunk stays as it is. */
  method FindBreak(chunks: Chunks, offset: nat) returns (iter: nat, cur: nat, reslen: nat)
    requires NonEmpty(chunks) && Inside(chunks, 0, offset)
    ensures reslen == LineLen(DataFrom(chunks, 0, offset))
    ensures iter == |chunks| <==> reslen == |DataFrom(chunks, 0, offset)|
    ensures iter < |chunks| ==> cur < |chunks[iter]| && DataFrom(chunks, iter, cur) == DataFrom(chunks, 0, offset)[reslen..]
    ensures iter == |chunks| ==> cur == |chunks[|chunks| - 1]|
    ensures iter <= |chunks|
  {
    iter, cur, reslen := 0, offset, 0;
    ghost var d := DataFrom(chunks, 0, offset);
    while !IsBreak(chunks[iter][cur])
      invariant Inside(chunks, iter, cur)
      invariant reslen < |d| && d[reslen..] == DataFrom(chunks, iter, cur)
      invariant forall k :: 0 <= k < reslen ==> !IsBreak(d[k])
      decreases |d| - reslen
    {
      DataNext(chunks, iter, cur);
      SuffixAt(d, reslen, DataFrom(chunks, iter, cur));
      reslen := reslen + 1;
      cur := cur + 1;
      if cur >= |chunks[iter]| {
        iter := iter + 1;
        if iter == |chunks| {
          assert DataFrom(chunks, iter, 0) == [];
          LineLenUnique(d, reslen);
          return;
        }
        cur := 0;
      }
      DataNext(chunks, iter, cur);
    }
    DataNext(chunks, iter, cur);
    SuffixAt(d, reslen, DataFrom(chunks, iter, cur));
    LineLenUnique(d, reslen);
  }

  /** The line of `buflen` characters ends in chunk `iter` at `cur`, or with the data. */
  ghost predicate EndsAt(d: seq<char>, buflen: nat, chunks: Chunks, iter: nat, cur: nat) {
    && buflen <= |d| && iter <= |chunks|
    && if iter == |chunks| then buflen == |d| else cur < |chunks[iter]| && DataFrom(chunks, iter, cur) == d[buflen..]
  }

  /** `respos` characters were copied; the next one is at `startpos` of chunk `i`. */
  ghost predicate CopiedTo(d: seq<char>, res: seq<char>, respos: nat, chunks: Chunks, i: nat, startpos: nat) {
    && respos <= |d| && respos <= |res| && res[..respos] == d[..respos]
    && i <= |chunks| && (if i < |chunks| then startpos <= |chunks[i]| else startpos == 0)
    && d[respos..] == DataFrom(chunks, i, startpos)
  }

  /** The chunks that belong to the line as a whole. */
  method CopyChunks(res: array<char>, ghost d: seq<char>, chunks: Chunks, offset: nat, iter: nat, cur: nat)
    returns (respos: nat, startpos: nat, reslen: nat)
    requires Inside(chunks, 0, offset) && d == DataFrom(chunks, 0, offset) && EndsAt(d, res.Length, chunks, iter, cur)
    modifies res
    ensures respos + reslen == res.Length
    ensures res[..respos] == d[..respos]
    ensures iter < |chunks| && reslen > 0 ==> CopiedTo(d, res[..], respos, chunks, iter, startpos)
    ensures iter == |chunks| ==> reslen == 0
  {
    var i: nat := 0;
    startpos, reslen, respos := offset, res.Length, 0;
    while i != iter && reslen > 0
      invariant i <= iter && respos + reslen == res.Length && CopiedTo(d, res[..], respos, chunks, i, startpos)
    {
      WholeChunk(d, respos, res.Length, chunks, i, startpos, iter, cur);
      var copylen := |chunks[i]| - startpos;
      if copylen > reslen {
        copylen := reslen;
      }
      CopyNext(res, d, respos, chunks[i], startpos, copylen);
      reslen := reslen - copylen;
      respos := respos + (|chunks[i]| - startpos);
      startpos := 0;
      i := i + 1;
    }
    assert res[..][..respos] == res[..respos];
  }

  /** Copies the line's characters, which may span several chunks, into one buffer. */
  method CopyLine(chunks: Chunks, offset: nat, iter: nat, cur: nat, buflen: nat) returns (line: Line)
    requires Inside(chunks, 0, offset) && EndsAt(DataFrom(chunks, 0, offset), buflen, chunks, iter, cur)
    ensures line == DataFrom(chunks, 0, offset)[..buflen]
  {
    var res := new char[buflen];
    ghost var d := DataFrom(chunks, 0, offset);
    var respos, startpos, reslen := CopyChunks(res, d, chunks, offset, iter, cur);
    if iter != |chunks| && reslen > 0 {
      LastChunk(d, respos, buflen, chunks, iter, startpos, cur);
      var copylen := cur - startpos;
      if copylen > reslen {
        copylen := reslen;
      }
      // The line ends before the chunk does, so the chunk is never dropped with it.
      assert reslen < |chunks[iter]|;
      CopyNext(res, d, respos, chunks[iter], startpos, copylen);
    }
    line := res[..];
  }

  class ListingParser {
    var dataList: Chunks
    var currentOffset: nat
    var totalData: nat
    /** The lines handed on. */
    var lines: seq<Line>
    /** The conversion of characters. */
    const decode: Line -> Line
    /** The lines as they were found. */
    ghost var raw: seq<Line>

    /** Chunks are not empty and the offset points into the first one. */
    predicate Valid()
      reads this`dataList, this`currentOffset
    {
      NonEmpty(dataList) && (dataList != [] ==> currentOffset < |dataList[0]|)
    }

    /** What was handed on is what is to be shown of the lines found. */
    ghost predicate Kept()
      reads this`lines, this`raw
    {
      lines == ShownAll(decode, raw)
    }

    /** More data may be added. After the last line was taken at the very end, only a reset makes this true again. */
    predicate Ready()
      reads this`dataList, this`currentOffset
    {
      Valid() && (dataList == [] ==> currentOffset == 0)
    }

    ghost function Data(): seq<char>
      reads this`dataList, this`currentOffset
      requires Valid()
    {
      if dataList == [] then [] else DataFrom(dataList, 0, currentOffset)
    }

    constructor (decode: Line -> Line)
      ensures Ready() && Kept() && Data() == [] && totalData == 0 && raw == [] && this.decode == decode
    {
      dataList, currentOffset, totalData, lines := [], 0, 0, [];
      this.decode, raw := decode, [];
    }

    /** Takes one line off the data, if there is a complete one or the data has ended. */
    method GetRawLine(breakAtEnd: bool) returns (line: Option<Line>, failed: bool)
      requires Valid()
      modifies this`dataList, this`currentOffset
      ensures Valid() && (breakAtEnd && old(Ready()) ==> Ready())
      ensures Got(old(Data()), !breakAtEnd, line, failed, Data())
    {
      if dataList == [] {
        return None, false;
      }
      var first, off := SkipBlanks(dataList, currentOffset);
      dataList, currentOffset := dataList[first..], off;
      assert dataList[0..] == dataList;
      if dataList == [] {
        return None, false;
      }
      ghost var t := Data();
      DataNext(dataList, 0, currentOffset);
      var iter, cur, reslen := FindBreak(dataList, currentOffset);
      if reslen > MAX_LINE {
        return None, true;
      }
      if iter == |dataList| && breakAtEnd {
        return None, false;
      }
      var res := CopyLine(dataList, currentOffset, iter, cur, reslen);
      line, failed := Some(res), false;
      currentOffset := cur;
      dataList := dataList[iter..];
      assert dataList[0..] == dataList;
    }

    /** Takes lines off the data up to the first of which something is to be shown. */
    method GetLine(breakAtEnd: bool) returns (line: Option<Line>, failed: bool, ghost got: seq<Line>)
      requires Valid()
      modifies this`dataList, this`currentOffset
      ensures Valid() && (breakAtEnd && old(Ready()) ==> Ready())
      ensures GotLines(TakeLines(old(Data()), !breakAtEnd), got, !breakAtEnd, line.None?, failed, Data())
      ensures GotShown(decode, got, line, failed)
      ensures |Data()| + |got| <= |old(Data())|
    {
      ghost var (whole, before, atEnd) := (TakeLines(Data(), !breakAtEnd), Data(), !breakAtEnd);
      ghost var rest := before;
      got := [];
      FollowsStart(whole);
      while dataList != []
        invariant Valid() && (breakAtEnd && old(Ready()) ==> Ready()) && rest == Data()
        invariant Skipping(decode, whole, got, rest, atEnd) && |rest| + |got| <= |before|
        decreases |rest|
      {
        var found;
        found, failed := GetRawLine(breakAtEnd);
        SkipStep(decode, whole, got, rest, atEnd, found, failed, Data());
        rest := Data();
        if found.None? {
          return None, failed, got;
        }
        got := got + [found.value];
        var shown := Shown(decode, found.value);
        if shown != [] {
          return Some(shown), false, got;
        }
      }
      SkipEnds(decode, whole, got, atEnd);
      return None, false, got;
    }

    /** Hands on what is shown of the lines got. */
    method Keep(line: Option<Line>, ghost got: seq<Line>, ghost failed: bool)
      requires Kept() && GotShown(decode, got, line, failed)
      modifies this`lines, this`raw
      ensures Kept() && raw == old(raw) + got
      ensures lines == if line.Some? then old(lines) + [line.value] else old(lines)
    {
      ShownAppend(decode, raw, got);
      raw := raw + got;
      if line.Some? {
        lines := lines + [line.value];
      }
    }

    /** Gets a line and hands it on; here it would go to the parsers of single lines. */
    method HandleLine(partial: bool) returns (more: bool, failed: bool, ghost got: seq<Line>)
      requires Valid() && Kept()
      modifies this`dataList, this`currentOffset, this`lines, this`raw
      ensures Valid() && Kept() && (partial && old(Ready()) ==> Ready()) && raw == old(raw) + got
      ensures GotLines(TakeLines(old(Data()), !partial), got, !partial, !more, failed, Data())
      ensures more ==> !failed && |Data()| < |old(Data())|
    {
      var line;
      line, failed, got := GetLine(partial);
      Keep(line, got, failed);
      more := line.Some?;
    }

    /** Takes lines until there are no more. */
    method ParseData(partial: bool) returns (ok: bool)
      requires Valid() && Kept()
      modifies this`dataList, this`currentOffset, this`lines, this`raw
      ensures Valid() && Kept() && (partial && old(Ready()) ==> Ready())
      ensures var r := TakeLines(old(Data()), !partial);
              raw == old(raw) + r.0 && ok == !r.2 && (ok ==> Data() == r.1)
    {
      ghost var (whole, before, atEnd) := (TakeLines(Data(), !partial), Data(), !partial);
      var more, failed, got := HandleLine(partial);
      ghost var (taken, rest) := (got, Data());
      while more
        invariant Valid() && Kept() && (partial && old(Ready()) ==> Ready()) && rest == Data()
        invariant raw == old(raw) + taken && GotLines(whole, taken, atEnd, !more, failed, rest)
        invariant more ==> !failed && |rest| < |before|
        decreases |before|
      {
        before := rest;
        more, failed, got := HandleLine(partial);
        rest := Data();
        GotMore(whole, taken, before, got, atEnd, !more, failed, rest);
        PutBehind(old(raw), taken, got);
        taken := taken + got;
      }
      ok := !failed;
    }

    method AddData(chunk: seq<char>) returns (ok: bool)
      requires Ready() && Kept() && chunk != []
      modifies this
      ensures Ready() && Kept() && totalData == old(totalData) + |chunk|
      ensures ok ==> Session(Data(), totalData, raw, false)
                     == LineSplit.AddData(Session(old(Data()), old(totalData), old(raw), false), chunk)
      ensures !ok ==> var s := LineSplit.AddData(Session(old(Data()), old(totalData), old(raw), false), chunk);
                      s.failed && s.lines == raw
    {
      FlatAppend(dataList, chunk);
      assert dataList != [] ==> (dataList + [chunk])[0] == dataList[0];
      dataList := dataList + [chunk];
      totalData := totalData + |chunk|;
      assert Data() == old(Data()) + chunk by {
        assert dataList[0..] == dataList && old(dataList)[0..] == old(dataList);
        if old(dataList) == [] { assert dataList == [chunk] && [chunk][1..] == [] && chunk + [] == chunk; }
        else { FlatAtLeast(old(dataList)); }
      }
      if totalData < PARSE_THRESHOLD {
        return true;
      }
      ok := ParseData(true);
    }

    /** The end of the session: whatever is left is a line too. */
    method Parse() returns (ok: bool)
      requires Valid() && Kept()
      modifies this
      ensures Valid() && Kept()
      ensures Outcome(raw, !ok) == Finish(Session(old(Data()), old(totalData), old(raw), false))
    {
      ok := ParseData(false);
    }

    method Reset()
      modifies this
      ensures Ready() && Kept() && Data() == [] && lines == [] && raw == [] && totalData == old(totalData)
    {
      dataList, lines, currentOffset, raw := [], [], 0, [];
    }
  }

  /** `whole` is what remains to be taken, put behind what has been taken. */
  ghost predicate Follows(whole: (seq<Line>, seq<char>, bool), taken: seq<Line>, r: (seq<Line>, seq<char>, bool)) {
    whole == (taken + r.0, r.1, r.2)
  }

  /** What was got from the data `s`, leaving `rest`, is what the split takes. */
  ghost predicate Got(s: seq<char>, atEnd: bool, line: Option<Line>, failed: bool, rest: seq<char>) {
    var a := TakeLine(s, atEnd);
    && failed == a.TooLong? && line.Some? == a.Taken?
    && (line.Some? ==> a == Taken(line.value, rest))
    && (line.None? && !failed ==> a == Nothing(rest))
    && |rest| <= |s|
  }

  lemma FollowsStart(whole: (seq<Line>, seq<char>, bool))
    ensures Follows(whole, [], whole)
  {
    assert [] + whole.0 == whole.0;
  }

  lemma PutBehind(lines: seq<Line>, taken: seq<Line>, more: seq<Line>)
    ensures (lines + taken) + more == lines + (taken + more)
  {}

  /** The lines got are the first of `whole`, and `rest` is what they leave. */
  ghost predicate GotLines(whole: (seq<Line>, seq<char>, bool), got: seq<Line>, atEnd: bool, ended: bool, failed: bool, rest: seq<char>) {
    if failed then whole.0 == got && whole.2
    else if ended then whole == (got, rest, false)
    else Follows(whole, got, TakeLines(rest, atEnd))
  }

  /** Of the lines got, nothing is shown but the last one, if there is a line at all. */
  ghost predicate GotShown(decode: Line -> Line, got: seq<Line>, line: Option<Line>, failed: bool) {
    && (line.Some? ==> got != [] && !failed && line.value == Shown(decode, got[|got| - 1]))
    && ShownAll(decode, got) == if line.Some? then [line.value] else []
  }

  /** The lines got so far leave nothing to show. */
  ghost predicate Skipping(decode: Line -> Line, whole: (seq<Line>, seq<char>, bool), got: seq<Line>, s: seq<char>, atEnd: bool) {
    Follows(whole, got, TakeLines(s, atEnd)) && ShownAll(decode, got) == []
  }

  lemma SkipStep(decode: Line -> Line, whole: (seq<Line>, seq<char>, bool), got: seq<Line>, s: seq<char>, atEnd: bool,
                 found: Option<Line>, failed: bool, rest: seq<char>)
    requires Skipping(decode, whole, got, s, atEnd) && Got(s, atEnd, found, failed, rest)
    ensures found.None? ==> GotLines(whole, got, atEnd, true, failed, rest) && GotShown(decode, got, None, failed)
                            && |rest| <= |s|
    ensures found.Some? ==>
              var (got', shown) := (got + [found.value], Shown(decode, found.value));
              && |rest| < |s|
              && (shown == [] ==> Skipping(decode, whole, got', rest, atEnd))
              && (shown != [] ==> GotLines(whole, got', atEnd, false, false, rest) && GotShown(decode, got', Some(shown), false))
  {
    GotStep(whole, got, s, atEnd, found, failed, rest);
    if found.Some? {
      ShownOneMore(decode, got, found.value);
    }
  }

  lemma SkipEnds(decode: Line -> Line, whole: (seq<Line>, seq<char>, bool), got: seq<Line>, atEnd: bool)
    requires Skipping(decode, whole, got, [], atEnd)
    ensures GotLines(whole, got, atEnd, true, false, []) && GotShown(decode, got, None, false)
  {
    assert got + [] == got;
  }

  lemma GotMore(whole: (seq<Line>, seq<char>, bool), taken: seq<Line>, s: seq<char>, got: seq<Line>, atEnd: bool,
                ended: bool, failed: bool, rest: seq<char>)
    requires Follows(whole, taken, TakeLines(s, atEnd)) && GotLines(TakeLines(s, atEnd), got, atEnd, ended, failed, rest)
    ensures GotLines(whole, taken + got, atEnd, ended, failed, rest)
  {
    if !failed && !ended {
      PutBehind(taken, got, TakeLines(rest, atEnd).0);
    }
  }

  lemma TakenUnfolds(s: seq<char>, atEnd: bool)
    ensures var a := TakeLine(s, atEnd);
            && (a.Taken? ==> |a.rest| < |s| && TakeLines(s, atEnd) == ([a.line] + TakeLines(a.rest, atEnd).0, TakeLines(a.rest, atEnd).1, TakeLines(a.rest, atEnd).2))
            && (a.Nothing? ==> TakeLines(s, atEnd) == ([], a.rest, false))
            && (a.TooLong? ==> TakeLines(s, atEnd).0 == [] && TakeLines(s, atEnd).2)
  {}

  lemma FollowsNext(whole: (seq<Line>, seq<char>, bool), taken: seq<Line>, line: Line, r: (seq<Line>, seq<char>, bool))
    requires Follows(whole, taken, ([line] + r.0, r.1, r.2))
    ensures Follows(whole, taken + [line], r)
  {
    assert taken + ([line] + r.0) == (taken + [line]) + r.0;
  }

  lemma GotStep(whole: (seq<Line>, seq<char>, bool), taken: seq<Line>, s: seq<char>, atEnd: bool,
                line: Option<Line>, failed: bool, rest: seq<char>)
    requires Follows(whole, taken, TakeLines(s, atEnd)) && Got(s, atEnd, line, failed, rest)
    ensures line.Some? ==> Follows(whole, taken + [line.value], TakeLines(rest, atEnd)) && |rest| < |s|
    ensures line.None? && !failed ==> whole == (taken, rest, false)
    ensures failed ==> whole.0 == taken && whole.2
  {
    TakenUnfolds(s, atEnd);
    if line.Some? {
      FollowsNext(whole, taken, line.value, TakeLines(rest, atEnd));
    } else {
      assert taken + [] == taken;
    }
  }

  lemma FlatAtLeast(chunks: Chunks)
    requires chunks != []
    ensures |chunks[0]| <= |Flat(chunks)|
  {}
}
