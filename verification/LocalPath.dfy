/**
 Bringing local paths into canonical form (the non-Windows case). The output is written
 through a position into a buffer one longer than the input; a stack of positions remembers
 where segments start.
 */
module LocalPath {
  import opened Optional
  import opened ServerPath
  import opened PathText

  /** A canonical path: every segment is followed by a separator, one more comes first. */
  function Text(segments: seq<string>): string {
    if segments == [] then "/" else Text(segments[..|segments| - 1]) + segments[|segments| - 1] + "/"
  }

  /** The segments of a path, with "." and ".." resolved; ".." at the root stays there. */
  function Resolve(path: string): seq<string> {
    AddAll(Unix, Segs([], false), Pieces(Unix, path)).list
  }

  /** The part behind the last separator. */
  function LastPart(s: string): (r: string)
    ensures |r| <= |s| && r == s[|s| - |r|..]
    ensures forall i :: 0 <= i < |r| ==> r[i] != '/'
    ensures |r| < |s| ==> s[|s| - |r| - 1] == '/'
  {
    if s == [] || s[|s| - 1] == '/' then [] else LastPart(s[..|s| - 1]) + [s[|s| - 1]]
  }

  predicate IsName(s: string) {
    s != "" && s != "." && s != ".."
  }

  /** A text is read up to its first zero. */
  function UpToZero(s: string): (r: string)
    ensures r <= s && '\0' !in r
    ensures |r| < |s| ==> s[|r|] == '\0'
  {
    if s == [] || s[0] == '\0' then [] else [s[0]] + UpToZero(s[1..])
  }

  datatype Outcome = Rejected | Accepted(path: string, file: Option<string>)

  /** Only absolute paths are accepted. A file name is split off the end if asked for and there is one. */
  function SetPathSpec(path: string, wantFile: bool): Outcome {
    if path == "" || path[0] != '/' then Rejected
    else
      var part := LastPart(path);
      if wantFile && IsName(part) then Accepted(Text(Resolve(path[..|path| - |part|])), Some(part))
      else Accepted(Text(Resolve(path)), None)
  }

  // ---------------------------------------------------------------- the stack of positions

  /** Where the segments of a canonical path start; the last position is where the next one would. */
  function Starts(segments: seq<string>): seq<nat> {
    seq(|segments| + 1, j requires 0 <= j <= |segments| => |Text(segments[..j])|)
  }

  lemma TextPush(segments: seq<string>, s: string)
    ensures Text(segments + [s]) == Text(segments) + s + "/"
  {
    assert (segments + [s])[..|segments|] == segments;
  }

  lemma StartsPush(segments: seq<string>, s: string)
    ensures Starts(segments + [s]) == Starts(segments) + [|Text(segments)| + |s| + 1]
  {
    TextPush(segments, s);
    var all := segments + [s];
    assert all[..|all|] == all;
    forall j | 0 <= j <= |segments| ensures Starts(all)[j] == Starts(segments)[j] {
      assert all[..j] == segments[..j];
    }
  }

  lemma TextPop(segments: seq<string>)
    requires segments != []
    ensures Text(segments[..|segments| - 1]) <= Text(segments)
  {
    var init := Text(segments[..|segments| - 1]);
    assert Text(segments) == init + segments[|segments| - 1] + "/";
  }

  lemma StartsPop(segments: seq<string>)
    requires segments != []
    ensures Starts(segments)[..|segments|] == Starts(segments[..|segments| - 1])
  {
    var init := segments[..|segments| - 1];
    forall j | 0 <= j <= |init| ensures Starts(segments)[j] == Starts(init)[j] {
      assert segments[..j] == init[..j];
    }
  }

  /** The effect of finishing the part read since the last separator. */
  lemma FinishPart(done: seq<string>, cur: string, rest: string)
    requires forall i :: 0 <= i < |cur| ==> cur[i] != '/'
    ensures AddAll(Unix, Segs(done, false), Pieces(Unix, cur + (['/'] + rest)))
            == AddAll(Unix, Segs(Resolved(done, cur), false), Pieces(Unix, rest))
  {
    LeadingSeparator(Unix, rest);
    if cur == [] {
      assert cur + (['/'] + rest) == ['/'] + rest;
    } else {
      PiecesOf(Unix, cur, ['/'] + rest);
      var ps := Pieces(Unix, rest);
      assert ([cur] + ps)[1..] == ps;
    }
  }

  function Resolved(done: seq<string>, part: string): seq<string> {
    if part == "" || part == "." then done
    else if part == ".." then (if done == [] then done else done[..|done| - 1])
    else done + [part]
  }

  lemma LastPartResolves(done: seq<string>, cur: string)
    requires forall i :: 0 <= i < |cur| ==> cur[i] != '/'
    ensures AddAll(Unix, Segs(done, false), Pieces(Unix, cur)) == Segs(Resolved(done, cur), false)
  {
    if cur != [] {
      PiecesSingle(Unix, cur);
      AddSingle(Segs(done, false), cur);
    }
  }

  lemma AddSingle(g: Segs, piece: string)
    requires ValidSegs(g)
    ensures AddAll(Unix, g, [piece]) == AddPiece(Unix, g, piece)
  {
    assert [piece][1..] == [];
  }

  // ---------------------------------------------------------------- what the form guarantees

  lemma ResolveClean(path: string)
    ensures CleanSegments(Unix, Resolve(path))
  {
    PiecesClean(Unix, path);
    AddAllClean(Unix, Segs([], false), Pieces(Unix, path));
    UnixNeverAppends(Unix, Segs([], false), Pieces(Unix, path));
  }

  lemma {:induction false} TextPieces(segments: seq<string>)
    requires forall i :: 0 <= i < |segments| ==> CleanPiece(Unix, segments[i])
    ensures Pieces(Unix, Text(segments)) == segments
    ensures Text(segments)[0] == '/' && Text(segments)[|Text(segments)| - 1] == '/'
    decreases |segments|
  {
    if segments == [] {
      assert "/"[1..] == [];
    } else {
      var (init, s) := (segments[..|segments| - 1], segments[|segments| - 1]);
      TextPieces(init);
      var front := Text(init);
      assert front + s + "/" == front + (s + ['/']);
      SplitAtSeparator(front, s + ['/']);
      PiecesOf(Unix, s, ['/']);
      LeadingSeparator(Unix, []);
      assert ['/'] + [] == ['/'] && [s] + [] == [s] && init + [s] == segments;
    }
  }

  /** The canonical form starts and ends with a separator, its segments are clean, and it is a fixed point. */
  lemma CanonicalForm(path: string, wantFile: bool)
    requires SetPathSpec(path, wantFile).Accepted?
    ensures var p := SetPathSpec(path, wantFile).path;
            && p[0] == '/' && p[|p| - 1] == '/'
            && CleanSegments(Unix, Pieces(Unix, p))
            && SetPathSpec(p, wantFile) == Accepted(p, None)
  {
    var p := SetPathSpec(path, wantFile).path;
    var src := if wantFile && IsName(LastPart(path)) then path[..|path| - |LastPart(path)|] else path;
    var segments := Resolve(src);
    ResolveClean(src);
    TextPieces(segments);
    AddCleanSegments(Unix, [], segments);
    assert [] + segments == segments;
    assert LastPart(p) == [];
  }

  // ---------------------------------------------------------------- in place

  datatype Last = Separator | Dot | DotDot | Segment

  /** What the state says about the part read since the last separator. */
  predicate Describes(last: Last, cur: string) {
    match last
    case Separator => cur == ""
    case Dot => cur == "."
    case DotDot => cur == ".."
    case Segment => IsName(cur)
  }

  /** The buffer holds the finished segments, then the part being read. */
  ghost predicate Written(buf: seq<char>, out: nat, segments: seq<nat>, done: seq<string>, cur: string) {
    && segments == Starts(done)
    && out == |Text(done)| + |cur| <= |buf|
    && buf[..out] == Text(done) + cur
  }

  lemma WrittenPrefix(buf: seq<char>, out: nat, segments: seq<nat>, done: seq<string>, cur: string)
    requires Written(buf, out, segments, done, cur)
    ensures |segments| == |done| + 1 && segments[|done|] == |Text(done)| <= out
    ensures Written(buf, |Text(done)|, segments, done, "")
    ensures buf[|Text(done)|..out] == cur
    ensures done != [] ==>
              Written(buf, |Text(done[..|done| - 1])|, segments[..|segments| - 1], done[..|done| - 1], "")
  {
    assert done[..|done|] == done;
    assert buf[..out][..|Text(done)|] == Text(done) && Text(done) + "" == Text(done);
    assert buf[..out][|Text(done)|..] == cur;
    if done != [] {
      StartsPop(done);
      TextPop(done);
      var t := Text(done[..|done| - 1]);
      assert t + "" == t && buf[..|t|] == buf[..out][..|t|];
    }
  }

  lemma WrittenChar(buf: seq<char>, buf': seq<char>, out: nat, segments: seq<nat>, done: seq<string>, cur: string, c: char)
    requires Written(buf, out, segments, done, cur) && out < |buf| && buf' == buf[out := c]
    ensures Written(buf', out + 1, segments, done, cur + [c])
  {
    assert buf'[..out + 1] == buf[..out] + [c];
  }

  lemma WrittenPush(buf: seq<char>, out: nat, segments: seq<nat>, done: seq<string>, cur: string)
    requires Written(buf, out, segments, done, cur + "/")
    ensures Written(buf, out, segments + [out], done + [cur], "")
  {
    TextPush(done, cur);
    StartsPush(done, cur);
    assert Text(done) + (cur + "/") == (Text(done) + cur + "/") + "";
  }

  /** Ends the part read so far at a separator. */
  method EndPart(buf: array<char>, out: nat, segments: seq<nat>, last: Last, ghost done: seq<string>, ghost cur: string)
    returns (out': nat, segments': seq<nat>)
    requires Written(buf[..], out, segments, done, cur) && Describes(last, cur) && out < buf.Length
    modifies buf
    ensures out' <= out + (if last == Segment then 1 else 0)
    ensures Written(buf[..], out', segments', Resolved(done, cur), "")
  {
    out', segments' := out, segments;
    WrittenPrefix(buf[..], out, segments, done, cur);
    if last == Dot {
      out' := segments'[|segments'| - 1];
    } else if last == DotDot {
      if |segments'| > 1 {
        segments' := segments'[..|segments'| - 1];
      }
      out' := segments'[|segments'| - 1];
    } else if last == Segment {
      WrittenChar(buf[..], buf[..][out := '/'], out, segments, done, cur, '/');
      buf[out'] := '/';
      out' := out' + 1;
      WrittenPush(buf[..], out', segments, done, cur);
      segments' := segments' + [out'];
    }
  }

  function Advance(last: Last, c: char): Last {
    if c != '.' then Segment
    else match last
         case Separator => Dot
         case Dot => DotDot
         case _ => Segment
  }

  lemma AdvanceDescribes(last: Last, cur: string, c: char)
    requires Describes(last, cur)
    ensures Describes(Advance(last, c), cur + [c])
  {
    assert (cur + [c])[|cur|] == c && (cur + [c])[..|cur|] == cur;
    assert ".."[..1] == ".";
  }

  lemma WrittenRoot(buf: seq<char>)
    requires buf != [] && buf[0] == '/'
    ensures Written(buf, 1, [1], [], "")
  {
    assert buf[..1] == Text([]) + "" && [1] == Starts([]);
  }

  /** Reads the path up to its first zero into the buffer, resolving parts as they end. */
  method Scan(buf: array<char>, path: string, ghost text: string) returns (out: nat, segments: seq<nat>, last: Last, ghost done: seq<string>, ghost cur: string)
    requires path != "" && path[0] == '/' && buf.Length == |path| + 1
    requires text <= path && '\0' !in text && (|text| < |path| ==> path[|text|] == '\0')
    modifies buf
    ensures out <= |path| && Written(buf[..], out, segments, done, cur)
    ensures Scanned(text, |text|, done, cur) && Describes(last, cur)
  {
    buf[0] := '/';
    out, segments, last := 1, [1], Separator;
    done, cur := [], "";
    InitialScan(text);
    WrittenRoot(buf[..]);
    var i := 1;
    while i < |path| && path[i] != '\0'
      invariant 1 <= i <= |text| && out <= i && Written(buf[..], out, segments, done, cur)
      invariant Scanned(text, i, done, cur) && Describes(last, cur)
    {
      out, segments, last, done, cur := ScanOne(buf, path[i], text, i, out, segments, last, done, cur);
      i := i + 1;
    }
  }

  method ScanOne(buf: array<char>, c: char, ghost path: string, ghost i: nat, out: nat, segments: seq<nat>, last: Last, ghost done: seq<string>, ghost cur: string)
    returns (out': nat, segments': seq<nat>, last': Last, ghost done': seq<string>, ghost cur': string)
    requires i < |path| && c == path[i] && out < buf.Length && Written(buf[..], out, segments, done, cur)
    requires Scanned(path, i, done, cur) && Describes(last, cur)
    modifies buf
    ensures out' <= out + 1 && Written(buf[..], out', segments', done', cur')
    ensures Scanned(path, i + 1, done', cur') && Describes(last', cur')
  {
    if c == '/' {
      ScanSeparator(path, i, done, cur);
      out', segments' := EndPart(buf, out, segments, last, done, cur);
      done', cur', last' := Resolved(done, cur), "", Separator;
    } else {
      ScanChar(path, i, done, cur);
      out', last' := PutChar(buf, out, c, segments, last, done, cur);
      segments', done', cur' := segments, done, cur + [c];
    }
  }

  method PutChar(buf: array<char>, out: nat, c: char, ghost segments: seq<nat>, last: Last, ghost done: seq<string>, ghost cur: string)
    returns (out': nat, last': Last)
    requires Written(buf[..], out, segments, done, cur) && Describes(last, cur) && out < buf.Length
    modifies buf
    ensures out' == out + 1 && Written(buf[..], out', segments, done, cur + [c]) && Describes(last', cur + [c])
  {
    AdvanceDescribes(last, cur, c);
    WrittenChar(buf[..], buf[..][out := c], out, segments, done, cur, c);
    buf[out] := c;
    return out + 1, Advance(last, c);
  }

  /** Accepts absolute paths and brings them into canonical form; the write position stays in the buffer. */
  method SetPath(path: string, wantFile: bool) returns (r: Outcome)
    ensures r == SetPathSpec(UpToZero(path), wantFile)
  {
    if path == "" || path[0] != '/' {
      return Rejected;
    }
    var buf := new char[|path| + 1];
    var out, segments, last, done, cur := Scan(buf, path, UpToZero(path));
    ScanEnd(UpToZero(path), wantFile, done, cur);
    if last == Segment && wantFile {
      WrittenPrefix(buf[..], out, segments, done, cur);
      assert buf[..|Text(done)|] == Text(done) + "" == Text(done);
      r := Accepted(buf[..segments[|segments| - 1]], Some(buf[segments[|segments| - 1]..out]));
    } else {
      out, segments := EndPart(buf, out, segments, last, done, cur);
      assert buf[..out] == Text(Resolved(done, cur)) + "" == Text(Resolved(done, cur));
      r := Accepted(buf[..out], None);
    }
  }

  /** The first `i` characters were read: they end in `cur`, and what comes before it resolves to `done`. */
  ghost predicate Scanned(path: string, i: nat, done: seq<string>, cur: string) {
    && |cur| < i <= |path| && path[i - |cur|..i] == cur && path[i - |cur| - 1] == '/'
    && (forall j :: 0 <= j < |cur| ==> cur[j] != '/')
    && Resolve(path[..i - |cur|]) == done
  }

  lemma InitialScan(path: string)
    requires path != "" && path[0] == '/'
    ensures Scanned(path, 1, [], "")
  {
    assert path[..1] == ['/'] + [];
    LeadingSeparator(Unix, []);
  }

  lemma ScanSeparator(path: string, i: nat, done: seq<string>, cur: string)
    requires i < |path| && path[i] == '/' && Scanned(path, i, done, cur)
    ensures Scanned(path, i + 1, Resolved(done, cur), "")
  {
    FinishPrefix(path, i, cur, done);
  }

  lemma ScanChar(path: string, i: nat, done: seq<string>, cur: string)
    requires i < |path| && path[i] != '/' && Scanned(path, i, done, cur)
    ensures Scanned(path, i + 1, done, cur + [path[i]])
  {
    assert path[i - |cur|..i + 1] == cur + [path[i]];
  }

  /** What the whole path, read to its end, means. */
  lemma ScanEnd(path: string, wantFile: bool, done: seq<string>, cur: string)
    requires Scanned(path, |path|, done, cur) && path[0] == '/'
    ensures SetPathSpec(path, wantFile) == if wantFile && IsName(cur) then Accepted(Text(done), Some(cur))
                                           else Accepted(Text(Resolved(done, cur)), None)
  {
    ScanEndPart(path, done, cur);
    ScanEndResolve(path, done, cur);
  }

  lemma ScanEndPart(path: string, done: seq<string>, cur: string)
    requires Scanned(path, |path|, done, cur)
    ensures LastPart(path) == cur
  {
    LastPartIs(path, cur);
  }

  lemma ScanEndResolve(path: string, done: seq<string>, cur: string)
    requires Scanned(path, |path|, done, cur)
    ensures Resolve(path) == Resolved(done, cur)
  {
    var front := path[..|path| - |cur|];
    assert path[|path| - |cur|..|path|] == path[|path| - |cur|..];
    assert path == front + cur;
    ResolveConcat(front, cur);
    LastPartResolves(done, cur);
  }

  lemma ResolveConcat(front: string, rest: string)
    requires front != [] && front[|front| - 1] == '/'
    ensures Resolve(front + rest) == AddAll(Unix, Segs(Resolve(front), false), Pieces(Unix, rest)).list
  {
    SplitAtSeparator(front, rest);
    AddAllConcat(Unix, Segs([], false), Pieces(Unix, front), Pieces(Unix, rest));
    UnixNeverAppends(Unix, Segs([], false), Pieces(Unix, front));
  }

  /** The pieces of a text that ends in a separator do not mix with what follows. */
  lemma SplitAtSeparator(front: string, rest: string)
    requires front != [] && front[|front| - 1] == '/'
    ensures Pieces(Unix, front + rest) == Pieces(Unix, front) + Pieces(Unix, rest)
  {
    var a := front[..|front| - 1];
    assert front == a + ['/'] && front + rest == a + (['/'] + rest);
    PiecesConcat(Unix, a, ['/'] + rest);
    PiecesConcat(Unix, a, ['/']);
    assert (['/'] + rest)[1..] == rest && ['/'][1..] == [];
    assert Pieces(Unix, a) + [] == Pieces(Unix, a);
  }

  lemma LastPartIs(s: string, part: string)
    requires |part| < |s| && s[|s| - |part|..] == part && s[|s| - |part| - 1] == '/'
    requires forall i :: 0 <= i < |part| ==> part[i] != '/'
    ensures LastPart(s) == part
  {
    var (r, n) := (LastPart(s), |s| - |part|);
    assert forall i :: 0 <= i < |part| ==> s[n + i] == part[i];
    assert forall i :: 0 <= i < |r| ==> s[|s| - |r| + i] == r[i];
  }

  /** The text up to a separator resolves to what the finished part leads to. */
  lemma FinishPrefix(path: string, i: nat, cur: string, done: seq<string>)
    requires i < |path| && path[i] == '/' && |cur| < i && path[i - |cur|..i] == cur && path[i - |cur| - 1] == '/'
    requires forall j :: 0 <= j < |cur| ==> cur[j] != '/'
    requires Resolve(path[..i - |cur|]) == done
    ensures Resolve(path[..i + 1]) == Resolved(done, cur)
  {
    var front := path[..i - |cur|];
    assert path[..i + 1] == (front + path[i - |cur|..i]) + ['/'];
    assert (front + cur) + ['/'] == front + (cur + ['/']);
    ResolveConcat(front, cur + ['/']);
    FinishPart(done, cur, []);
    assert ['/'] + [] == ['/'];
  }
}
