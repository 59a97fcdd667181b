/**
 The text form of server paths: printing a path and changing a path by a directory text,
 for the Unix-like, DOS and VMS types.
 */
module PathText {
  import opened Optional
  import opened ServerPath

  /** The types whose syntax is modelled here. */
  predicate UnixLike(k: ServerType) {
    k.Unix? || k.Zvm? || k.DosVirtual?
  }

  predicate DosLike(k: ServerType) {
    k.Dos? || k.DosFwdSlashes?
  }

  predicate Modelled(k: ServerType) {
    UnixLike(k) || DosLike(k) || k.Vms?
  }

  predicate IsSeparator(k: ServerType, c: char) {
    if HasDots(k) then (c == '/' && !k.DosVirtual?) || (c == '\\' && (DosLike(k) || k.DosVirtual?)) else c == '.'
  }

  function Sep(k: ServerType): (c: char)
    ensures IsSeparator(k, c)
  {
    if !HasDots(k) then '.' else if k.Dos? || k.DosVirtual? then '\\' else '/'
  }

  /** These are the separators of the traits table. */
  lemma SeparatorsAgree(k: ServerType, c: char)
    ensures IsSeparator(k, c) <==> c in Separators(k)
    ensures Sep(k) == Separators(k)[0]
  {}

  // ---------------------------------------------------------------- splitting

  /** The number of characters before the first separator. */
  function RunLen(k: ServerType, s: string): (n: nat)
    ensures n <= |s|
    ensures forall i :: 0 <= i < n ==> !IsSeparator(k, s[i])
    ensures n < |s| ==> IsSeparator(k, s[n])
  {
    if s != [] && !IsSeparator(k, s[0]) then 1 + RunLen(k, s[1..]) else 0
  }

  /** The parts between separators; empty parts do not count. */
  function Pieces(k: ServerType, s: string): seq<string>
    decreases |s|
  {
    if s == [] then []
    else if IsSeparator(k, s[0]) then Pieces(k, s[1..])
    else [s[..RunLen(k, s)]] + Pieces(k, s[RunLen(k, s)..])
  }

  /** The segments so far, and whether the next piece continues the last one. */
  datatype Segs = Segs(list: seq<string>, append: bool)

  predicate ValidSegs(g: Segs) {
    g.append ==> g.list != []
  }

  function AddPiece(k: ServerType, g: Segs, piece: string): (g': Segs)
    requires ValidSegs(g)
    ensures ValidSegs(g')
  {
    if HasDots(k) && piece == "." then g
    else if HasDots(k) && piece == ".." then (if g.list == [] then g else Segs(g.list[..|g.list| - 1], g.append && |g.list| > 1))
    else
      var escaped := k.Vms? && piece != [] && piece[|piece| - 1] == '^';
      var text := if escaped then piece[..|piece| - 1] + [Sep(k)] else piece;
      if g.append then Segs(g.list[..|g.list| - 1] + [g.list[|g.list| - 1] + text], escaped)
      else Segs(g.list + [text], escaped)
  }

  function AddAll(k: ServerType, g: Segs, pieces: seq<string>): (g': Segs)
    requires ValidSegs(g)
    ensures ValidSegs(g')
    decreases |pieces|
  {
    if pieces == [] then g else AddAll(k, AddPiece(k, g, pieces[0]), pieces[1..])
  }

  /** Appends the segments of a text; a trailing escape is an error. */
  function Segmentize(k: ServerType, s: string, segments: seq<string>): Option<seq<string>> {
    var g := AddAll(k, Segs(segments, false), Pieces(k, s));
    if g.append then None else Some(g.list)
  }

  // ---------------------------------------------------------------- printing

  /** Segments, each with a separator in front. */
  function Tail(k: ServerType, segments: seq<string>): string {
    if segments == [] then [] else [Sep(k)] + (Escaped(k, segments[0]) + Tail(k, segments[1..]))
  }

  function Escaped(k: ServerType, s: string): string {
    if !k.Vms? then s
    else if s == [] then []
    else (if s[0] == '.' then "^." else [s[0]]) + Escaped(k, s[1..])
  }

  function Body(k: ServerType, segments: seq<string>): string {
    if segments == [] then [] else Escaped(k, segments[0]) + Tail(k, segments[1..])
  }

  function GetPath(p: Path): string
    requires Modelled(p.kind)
  {
    if p.data.None? then "" else
    var (k, d) := (p.kind, p.data.value);
    var prefix := if d.prefix.Some? then d.prefix.value else "";
    var root := if d.segments == [] then (if !HasRoot(k) || d.prefix.None? then [Sep(k)] else [])
                else if HasRoot(k) && d.prefix.None? then [Sep(k)] else [];
    prefix + (if k.Vms? then "[" else "") + root + Body(k, d.segments) + (if k.Vms? then "]" else "")
    + (if DosLike(k) && |d.segments| == 1 then [Sep(k)] else [])
  }

  // ---------------------------------------------------------------- changing

  /** The first position of a character, or the length. */
  function Find(s: string, c: char): (i: nat)
    ensures i <= |s| && (i < |s| ==> s[i] == c) && (forall j :: 0 <= j < i ==> s[j] != c)
  {
    if s == [] || s[0] == c then 0 else 1 + Find(s[1..], c)
  }

  /** One past the last position of a character, or zero. */
  function FindLast(s: string, c: char): (i: nat)
    ensures i <= |s| && (i > 0 ==> s[i - 1] == c) && (forall j :: i <= j < |s| ==> s[j] != c)
  {
    if s == [] then 0 else if s[|s| - 1] == c then |s| else FindLast(s[..|s| - 1], c)
  }

  /** The data of a path that may be empty. */
  function DataOf(p: Path): PathData {
    if p.data.None? then PathData(None, []) else p.data.value
  }

  function ChangeUnix(p: Path, dir: string): Option<PathData>
    requires dir != []
  {
    var d := DataOf(p);
    if IsSeparator(p.kind, dir[0]) then WithSegments(d.prefix, Segmentize(p.kind, dir, []))
    else if p.data.None? then None
    else WithSegments(d.prefix, Segmentize(p.kind, dir, d.segments))
  }

  function ChangeDos(p: Path, dir: string): Option<PathData>
    requires dir != []
  {
    var d := DataOf(p);
    var colon := Find(dir, ':');
    if 0 < colon < |dir| && colon + 1 == RunLen(p.kind, dir) then
      WithSegments(d.prefix, Segmentize(p.kind, dir, []))
    else if IsSeparator(p.kind, dir[0]) then
      if d.segments == [] then None
      else WithSegments(d.prefix, Segmentize(p.kind, dir[1..], d.segments[..1]))
    else WithSegments(d.prefix, Segmentize(p.kind, dir, d.segments))
  }

  function ChangeVms(p: Path, dir: string): Option<PathData> {
    var d := DataOf(p);
    var (pos1, end2) := (Find(dir, '['), FindLast(dir, ']'));
    if pos1 == |dir| then
      if end2 > 0 then None else WithSegments(d.prefix, Segmentize(p.kind, dir, d.segments))
    else if end2 != |dir| || end2 <= pos1 + 2 then None
    else WithSegments(if pos1 > 0 then Some(dir[..pos1]) else d.prefix, Segmentize(p.kind, dir[pos1 + 1..|dir| - 1], []))
  }

  function WithSegments(prefix: Option<string>, segments: Option<seq<string>>): Option<PathData> {
    if segments.None? then None else Some(PathData(prefix, segments.value))
  }

  /** Changing by an empty text keeps a path, and fails on an empty one. A failure empties the path. */
  function ChangePath(p: Path, dir: string): (Path, bool)
    requires Modelled(p.kind)
  {
    if dir == [] then (p, p.data.Some?) else
    var d := if UnixLike(p.kind) then ChangeUnix(p, dir)
             else if DosLike(p.kind) then ChangeDos(p, dir)
             else ChangeVms(p, dir);
    if d.Some? && (HasRoot(p.kind) || d.value.segments != []) then (p.(data := d), true) else (p.(data := None), false)
  }

  /** Setting a path whose type is known; an empty text changes nothing. */
  function SetPath(p: Path, text: string): (Path, bool)
    requires Modelled(p.kind)
  {
    if text == [] then (p, false) else ChangePath(p.(data := None), text)
  }

  // ---------------------------------------------------------------- what parsing yields

  /** A segment as parsing produces it. */
  predicate CleanSegment(k: ServerType, s: string) {
    && s != []
    && (if k.Vms? then s[|s| - 1] != '.' && s[|s| - 1] != '^'
        else s != "." && s != ".." && forall i :: 0 <= i < |s| ==> !IsSeparator(k, s[i]))
  }

  predicate CleanSegments(k: ServerType, segments: seq<string>) {
    forall i :: 0 <= i < |segments| ==> CleanSegment(k, segments[i])
  }

  predicate Canonical(p: Path) {
    p.data.Some? ==>
      && CleanSegments(p.kind, p.data.value.segments)
      && (HasRoot(p.kind) || p.data.value.segments != [])
      && (p.data.value.prefix.Some? ==>
            p.kind.Vms? && p.data.value.prefix.value != [] && '[' !in p.data.value.prefix.value)
  }

  predicate CleanPiece(k: ServerType, s: string) {
    s != [] && forall i :: 0 <= i < |s| ==> !IsSeparator(k, s[i])
  }

  lemma {:induction false} PiecesClean(k: ServerType, s: string)
    ensures forall i :: 0 <= i < |Pieces(k, s)| ==> CleanPiece(k, Pieces(k, s)[i])
    decreases |s|
  {
    if s != [] {
      if IsSeparator(k, s[0]) { PiecesClean(k, s[1..]); } else { PiecesClean(k, s[RunLen(k, s)..]); }
    }
  }

  /** All segments are clean, but for the last one while it waits to be continued. */
  predicate PartlyClean(k: ServerType, g: Segs) {
    && ValidSegs(g)
    && CleanSegments(k, if g.append then g.list[..|g.list| - 1] else g.list)
    && (g.append ==> k.Vms? && g.list[|g.list| - 1] != [])
  }

  lemma AddPieceClean(k: ServerType, g: Segs, piece: string)
    requires Modelled(k) && PartlyClean(k, g) && CleanPiece(k, piece)
    ensures PartlyClean(k, AddPiece(k, g, piece))
  {
    if k.Vms? { AddPieceCleanVms(k, g, piece); }
  }

  lemma AddPieceCleanVms(k: ServerType, g: Segs, piece: string)
    requires k.Vms? && PartlyClean(k, g) && CleanPiece(k, piece)
    ensures PartlyClean(k, AddPiece(k, g, piece))
  {
    var g' := AddPiece(k, g, piece);
    var init := if g.append then g.list[..|g.list| - 1] else g.list;
    assert CleanSegments(k, init);
    assert g'.list[..|g'.list| - 1] == init;
    var last := g'.list[|g'.list| - 1];
    assert last[|last| - 1] == if g'.append then '.' else piece[|piece| - 1];
    if !g'.append {
      assert g'.list == init + [last];
    }
  }

  lemma {:induction false} AddAllClean(k: ServerType, g: Segs, pieces: seq<string>)
    requires Modelled(k) && PartlyClean(k, g) && forall i :: 0 <= i < |pieces| ==> CleanPiece(k, pieces[i])
    ensures PartlyClean(k, AddAll(k, g, pieces))
    decreases |pieces|
  {
    if pieces != [] {
      AddPieceClean(k, g, pieces[0]);
      AddAllClean(k, AddPiece(k, g, pieces[0]), pieces[1..]);
    }
  }

  lemma SegmentizeClean(k: ServerType, s: string, segments: seq<string>)
    requires Modelled(k) && CleanSegments(k, segments)
    ensures Segmentize(k, s, segments).Some? ==> CleanSegments(k, Segmentize(k, s, segments).value)
  {
    PiecesClean(k, s);
    AddAllClean(k, Segs(segments, false), Pieces(k, s));
  }

  lemma ChangeDosClean(p: Path, dir: string)
    requires DosLike(p.kind) && Canonical(p) && dir != []
    ensures ChangeDos(p, dir).Some? ==> CleanSegments(p.kind, ChangeDos(p, dir).value.segments) && ChangeDos(p, dir).value.prefix.None?
  {
    var d := DataOf(p);
    SegmentizeClean(p.kind, dir, []);
    SegmentizeClean(p.kind, dir, d.segments);
    if d.segments != [] { SegmentizeClean(p.kind, dir[1..], d.segments[..1]); }
  }

  lemma ChangeVmsClean(p: Path, dir: string)
    requires p.kind.Vms? && Canonical(p)
    ensures ChangeVms(p, dir).Some? ==>
              && CleanSegments(p.kind, ChangeVms(p, dir).value.segments)
              && var prefix := ChangeVms(p, dir).value.prefix; prefix.Some? ==> prefix.value != [] && '[' !in prefix.value
  {
    SegmentizeClean(p.kind, dir, DataOf(p).segments);
    var (pos1, end2) := (Find(dir, '['), FindLast(dir, ']'));
    if pos1 < |dir| && end2 == |dir| && end2 > pos1 + 2 {
      SegmentizeClean(p.kind, dir[pos1 + 1..|dir| - 1], []);
    }
  }

  /** Changing a canonical path, or setting one from any text, yields a canonical path. */
  lemma ChangePathCanonical(p: Path, dir: string)
    requires Modelled(p.kind) && Canonical(p)
    ensures Canonical(ChangePath(p, dir).0)
  {
    if dir != [] {
      if UnixLike(p.kind) {
        SegmentizeClean(p.kind, dir, []);
        SegmentizeClean(p.kind, dir, DataOf(p).segments);
      } else if DosLike(p.kind) {
        ChangeDosClean(p, dir);
      } else {
        ChangeVmsClean(p, dir);
      }
    }
  }

  // ---------------------------------------------------------------- composition

  lemma PiecesOf(k: ServerType, run: string, b: string)
    requires CleanPiece(k, run) && (b == [] || IsSeparator(k, b[0]))
    ensures Pieces(k, run + b) == [run] + Pieces(k, b)
  {
    var s := run + b;
    RunIs(k, s, |run|);
    assert s[..|run|] == run && s[|run|..] == b && s[0] == run[0];
  }

  lemma RunIs(k: ServerType, s: string, n: nat)
    requires n <= |s| && (forall i :: 0 <= i < n ==> !IsSeparator(k, s[i])) && (n < |s| ==> IsSeparator(k, s[n]))
    ensures RunLen(k, s) == n
  {}

  /** A separator between two texts separates their pieces. */
  lemma {:induction false} PiecesConcat(k: ServerType, a: string, b: string)
    requires b != [] && IsSeparator(k, b[0])
    ensures Pieces(k, a + b) == Pieces(k, a) + Pieces(k, b[1..])
    decreases |a|, 1
  {
    if a == [] {
      assert a + b == b && [] + Pieces(k, b[1..]) == Pieces(k, b[1..]);
    } else if IsSeparator(k, a[0]) {
      PiecesConcat(k, a[1..], b);
      assert (a + b)[1..] == a[1..] + b;
    } else {
      PiecesConcatRun(k, a, b);
    }
  }

  lemma {:induction false} PiecesConcatRun(k: ServerType, a: string, b: string)
    requires b != [] && IsSeparator(k, b[0]) && a != [] && !IsSeparator(k, a[0])
    ensures Pieces(k, a + b) == Pieces(k, a) + Pieces(k, b[1..])
    decreases |a|, 0
  {
    var n := RunLen(k, a);
    var (run, rest) := (a[..n], a[n..]);
    PiecesConcat(k, rest, b);
    assert a == run + rest && a + b == run + (rest + b);
    PiecesOf(k, run, rest);
    PiecesOf(k, run, rest + b);
    assert ([run] + Pieces(k, rest)) + Pieces(k, b[1..]) == [run] + (Pieces(k, rest) + Pieces(k, b[1..]));
  }

  lemma {:induction false} AddAllConcat(k: ServerType, g: Segs, p: seq<string>, q: seq<string>)
    requires ValidSegs(g)
    ensures AddAll(k, g, p + q) == AddAll(k, AddAll(k, g, p), q)
    decreases |p|
  {
    if p == [] {
      assert p + q == q;
    } else {
      AddAllConcat(k, AddPiece(k, g, p[0]), p[1..], q);
      assert (p + q)[1..] == p[1..] + q;
    }
  }

  lemma {:induction false} UnixNeverAppends(k: ServerType, g: Segs, pieces: seq<string>)
    requires !k.Vms? && !g.append
    ensures !AddAll(k, g, pieces).append
    decreases |pieces|
  {
    if pieces != [] {
      UnixNeverAppends(k, AddPiece(k, g, pieces[0]), pieces[1..]);
    }
  }

  /** Segments of `a/b` are those of `b` put behind those of `a`. */
  lemma SegmentizeComposes(k: ServerType, segments: seq<string>, a: string, b: string)
    requires !k.Vms?
    ensures Segmentize(k, a, segments).Some?
    ensures Segmentize(k, a + ([Sep(k)] + b), segments) == Segmentize(k, b, Segmentize(k, a, segments).value)
  {
    assert ([Sep(k)] + b)[1..] == b;
    PiecesConcat(k, a, [Sep(k)] + b);
    AddAllConcat(k, Segs(segments, false), Pieces(k, a), Pieces(k, b));
    UnixNeverAppends(k, Segs(segments, false), Pieces(k, a));
  }

  /** On Unix-like servers, changing to `a` and then to a relative `b` is changing to `a/b`. */
  lemma ChangeComposes(p: Path, a: string, b: string)
    requires UnixLike(p.kind) && a != [] && b != [] && !IsSeparator(p.kind, b[0])
    ensures ChangePath(ChangePath(p, a).0, b) == ChangePath(p, a + ([Sep(p.kind)] + b))
  {
    var whole := a + ([Sep(p.kind)] + b);
    assert whole[0] == a[0];
    SegmentizeComposes(p.kind, [], a, b);
    SegmentizeComposes(p.kind, DataOf(p).segments, a, b);
  }

  // ---------------------------------------------------------------- round trip

  lemma PiecesSingle(k: ServerType, s: string)
    requires CleanPiece(k, s)
    ensures Pieces(k, s) == [s]
  {
    PiecesOf(k, s, []);
    assert s + [] == s && [s] + [] == [s];
  }

  lemma LeadingSeparator(k: ServerType, body: string)
    ensures Pieces(k, [Sep(k)] + body) == Pieces(k, body)
  {
    assert ([Sep(k)] + body)[1..] == body;
  }

  /** Without escapes, the pieces of printed segments are the segments. */
  lemma {:induction false} TailPieces(k: ServerType, segments: seq<string>)
    requires !k.Vms? && forall i :: 0 <= i < |segments| ==> CleanPiece(k, segments[i])
    ensures Pieces(k, Tail(k, segments)) == segments
    decreases |segments|
  {
    if segments != [] {
      var (s, rest) := (segments[0], Tail(k, segments[1..]));
      TailPieces(k, segments[1..]);
      PiecesOf(k, s, rest);
      LeadingSeparator(k, s + rest);
      assert [s] + segments[1..] == segments;
    }
  }

  lemma {:induction false} AddCleanSegments(k: ServerType, done: seq<string>, segments: seq<string>)
    requires !k.Vms? && CleanSegments(k, segments)
    ensures AddAll(k, Segs(done, false), segments) == Segs(done + segments, false)
    decreases |segments|
  {
    if segments == [] {
      assert done + [] == done;
    } else {
      AddCleanSegments(k, done + [segments[0]], segments[1..]);
      assert (done + [segments[0]]) + segments[1..] == done + segments;
    }
  }

  lemma BodyPieces(k: ServerType, segments: seq<string>)
    requires !k.Vms? && CleanSegments(k, segments) && segments != []
    ensures Pieces(k, Body(k, segments)) == segments
  {
    TailPieces(k, segments[1..]);
    PiecesOf(k, segments[0], Tail(k, segments[1..]));
    assert [segments[0]] + segments[1..] == segments;
  }

  lemma SegmentizeBody(k: ServerType, segments: seq<string>)
    requires !k.Vms? && CleanSegments(k, segments) && segments != []
    ensures Segmentize(k, Body(k, segments), []) == Some(segments)
  {
    BodyPieces(k, segments);
    AddCleanSegments(k, [], segments);
    assert [] + segments == segments;
  }

  lemma UnixRoundTrip(p: Path)
    requires UnixLike(p.kind) && p.data.Some? && Canonical(p)
    ensures SetPath(p, GetPath(p)) == (p, true)
  {
    var (k, segments) := (p.kind, p.data.value.segments);
    var body := Body(k, segments);
    assert GetPath(p) == [Sep(k)] + body;
    assert ([Sep(k)] + body)[1..] == body;
    if segments != [] {
      SegmentizeBody(k, segments);
      assert Pieces(k, [Sep(k)] + body) == Pieces(k, body);
    } else {
      assert Pieces(k, [Sep(k)] + body) == [];
    }
  }

  lemma {:induction false} TrailingSeparator(k: ServerType, s: string)
    requires CleanPiece(k, s)
    ensures Pieces(k, s + [Sep(k)]) == [s]
  {
    PiecesConcat(k, s, [Sep(k)]);
    PiecesSingle(k, s);
    assert [Sep(k)][1..] == [];
    assert [s] + [] == [s];
  }

  lemma SegmentizeDosText(k: ServerType, segments: seq<string>)
    requires DosLike(k) && CleanSegments(k, segments) && segments != []
    ensures Segmentize(k, Body(k, segments) + (if |segments| == 1 then [Sep(k)] else []), []) == Some(segments)
  {
    if |segments| == 1 {
      TrailingSeparator(k, segments[0]);
      AddCleanSegments(k, [], segments);
      assert Body(k, segments) == segments[0] && [segments[0]] == segments && [] + segments == segments;
    } else {
      SegmentizeBody(k, segments);
      assert Body(k, segments) + [] == Body(k, segments);
    }
  }

  lemma DosRoundTrip(p: Path)
    requires DosLike(p.kind) && p.data.Some? && Canonical(p)
    ensures SetPath(p, GetPath(p)) == (p, true)
  {
    var (k, segments) := (p.kind, p.data.value.segments);
    var text := GetPath(p);
    assert text == Body(k, segments) + (if |segments| == 1 then [Sep(k)] else []);
    assert text[0] == segments[0][0];
    SegmentizeDosText(k, segments);
    DosFromScratch(p.(data := None), text);
  }

  /** Set on an empty path, a text that starts with no separator means its segments, drive or not. */
  lemma DosFromScratch(p: Path, text: string)
    requires DosLike(p.kind) && p.data.None? && text != [] && !IsSeparator(p.kind, text[0])
    ensures ChangeDos(p, text) == WithSegments(None, Segmentize(p.kind, text, []))
  {}

  // ---------------------------------------------------------------- VMS

  /** The last character of a segment decides whether it survives being printed. */
  predicate GoodEnd(s: string) {
    s != [] && s[|s| - 1] != '.' && s[|s| - 1] != '^'
  }

  function Continue(g: Segs, s: string): Segs
    requires ValidSegs(g)
  {
    if g.append then Segs(g.list[..|g.list| - 1] + [g.list[|g.list| - 1] + s], false) else Segs(g.list + [s], false)
  }

  /** A dot in a segment is printed behind an escape, and the escape joins the pieces again. */
  lemma {:induction false} EscapedPieces(g: Segs, s: string)
    requires ValidSegs(g) && GoodEnd(s)
    ensures AddAll(Vms, g, Pieces(Vms, Escaped(Vms, s))) == Continue(g, s)
    decreases |s|
  {
    var n := Find(s, '.');
    EscapedRun(s, n);
    if n == |s| {
      PiecesSingle(Vms, s);
      AddOne(g, s);
    } else {
      EscapedPieces(AddPiece(Vms, g, s[..n] + "^"), s[n + 1..]);
      FirstEscapedPiece(s, n);
      AddFirst(g, s[..n] + "^", Pieces(Vms, Escaped(Vms, s[n + 1..])));
      ContinueEscaped(g, s, n);
    }
  }

  lemma FirstEscapedPiece(s: string, n: nat)
    requires n < |s| && s[n] == '.' && forall i :: 0 <= i < n ==> s[i] != '.'
    ensures Pieces(Vms, Escaped(Vms, s)) == [s[..n] + "^"] + Pieces(Vms, Escaped(Vms, s[n + 1..]))
  {
    EscapedRun(s, n);
    PieceThenRest(s[..n] + "^", Escaped(Vms, s[n + 1..]));
  }

  lemma PieceThenRest(run: string, rest: string)
    requires CleanPiece(Vms, run)
    ensures Pieces(Vms, run + (['.'] + rest)) == [run] + Pieces(Vms, rest)
  {
    PiecesOf(Vms, run, ['.'] + rest);
    LeadingSeparator(Vms, rest);
  }

  lemma AddOne(g: Segs, s: string)
    requires ValidSegs(g) && GoodEnd(s)
    ensures AddAll(Vms, g, [s]) == Continue(g, s)
  {
    assert [s][1..] == [];
  }

  lemma AddFirst(g: Segs, piece: string, rest: seq<string>)
    requires ValidSegs(g)
    ensures AddAll(Vms, g, [piece] + rest) == AddAll(Vms, AddPiece(Vms, g, piece), rest)
  {
    assert ([piece] + rest)[1..] == rest;
  }

  lemma ContinueEscaped(g: Segs, s: string, n: nat)
    requires ValidSegs(g) && n < |s| && s[n] == '.'
    ensures Continue(AddPiece(Vms, g, s[..n] + "^"), s[n + 1..]) == Continue(g, s)
  {
    var g1 := AddPiece(Vms, g, s[..n] + "^");
    assert (s[..n] + "^")[..n] == s[..n];
    assert s == (s[..n] + ['.']) + s[n + 1..];
    if g.append {
      var (init, last) := (g.list[..|g.list| - 1], g.list[|g.list| - 1]);
      assert g1.list == init + [last + (s[..n] + ['.'])];
      assert g1.list[..|g1.list| - 1] == init;
      assert (last + (s[..n] + ['.'])) + s[n + 1..] == last + s;
    } else {
      assert g1.list == g.list + [s[..n] + ['.']];
      assert g1.list[..|g1.list| - 1] == g.list;
    }
  }

  /** Up to the first dot nothing is escaped. */
  lemma {:induction false} EscapedRun(s: string, n: nat)
    requires n <= |s| && (forall i :: 0 <= i < n ==> s[i] != '.') && (n < |s| ==> s[n] == '.')
    ensures n == |s| ==> Escaped(Vms, s) == s
    ensures n < |s| ==> Escaped(Vms, s) == (s[..n] + "^") + (['.'] + Escaped(Vms, s[n + 1..]))
    decreases |s|
  {
    if s != [] {
      if n == 0 {
        assert "^." + Escaped(Vms, s[1..]) == (s[..0] + "^") + (['.'] + Escaped(Vms, s[1..]));
      } else {
        EscapedRun(s[1..], n - 1);
        assert n == |s| ==> [s[0]] + s[1..] == s;
        if n < |s| {
          var rest := Escaped(Vms, s[n + 1..]);
          assert s[1..][n..] == s[n + 1..];
          assert [s[0]] + ((s[1..][..n - 1] + "^") + (['.'] + rest)) == (s[..n] + "^") + (['.'] + rest);
        }
      }
    }
  }

  lemma {:induction false} VmsTail(done: seq<string>, segments: seq<string>)
    requires CleanSegments(Vms, segments)
    ensures AddAll(Vms, Segs(done, false), Pieces(Vms, Tail(Vms, segments))) == Segs(done + segments, false)
    decreases |segments|
  {
    if segments == [] {
      assert done + [] == done;
    } else {
      LeadingSeparator(Vms, Body(Vms, segments));
      VmsBody(done, segments);
    }
  }

  lemma {:induction false} VmsBody(done: seq<string>, segments: seq<string>)
    requires CleanSegments(Vms, segments) && segments != []
    ensures AddAll(Vms, Segs(done, false), Pieces(Vms, Body(Vms, segments))) == Segs(done + segments, false)
    decreases |segments|, 0
  {
    var (first, tail) := (Escaped(Vms, segments[0]), Tail(Vms, segments[1..]));
    EscapedPieces(Segs(done, false), segments[0]);
    assert done + segments == (done + [segments[0]]) + segments[1..];
    if segments[1..] == [] {
      assert first + tail == first;
    } else {
      PiecesConcat(Vms, first, tail);
      LeadingSeparator(Vms, tail[1..]);
      assert tail == [Sep(Vms)] + tail[1..];
      AddAllConcat(Vms, Segs(done, false), Pieces(Vms, first), Pieces(Vms, tail));
      VmsTail(done + [segments[0]], segments[1..]);
    }
  }

  lemma {:induction false} EscapedNotEmpty(s: string)
    requires s != []
    ensures Escaped(Vms, s) != []
  {}

  lemma FindEnclosure(prefix: string, inner: string)
    requires '[' !in prefix
    ensures var text := prefix + "[" + inner + "]";
            && Find(text, '[') == |prefix| && FindLast(text, ']') == |text|
            && text[|prefix| + 1..|text| - 1] == inner && text[..|prefix|] == prefix
  {
    var text := prefix + "[" + inner + "]";
    assert text[|prefix|] == '[' && text[|text| - 1] == ']';
    FindIs(text, '[', |prefix|);
  }

  lemma FindIs(s: string, c: char, i: nat)
    requires i < |s| && s[i] == c && forall j :: 0 <= j < i ==> s[j] != c
    ensures Find(s, c) == i
  {}

  lemma VmsText(p: Path)
    requires p.kind.Vms? && p.data.Some? && p.data.value.segments != []
    ensures var prefix := if p.data.value.prefix.Some? then p.data.value.prefix.value else "";
            GetPath(p) == prefix + "[" + Body(Vms, p.data.value.segments) + "]"
  {
    var prefix := if p.data.value.prefix.Some? then p.data.value.prefix.value else "";
    var inner := Body(Vms, p.data.value.segments);
    assert prefix + "[" + [] + inner + "]" + [] == prefix + "[" + inner + "]";
  }

  lemma VmsFromScratch(p: Path, prefix: string, inner: string)
    requires p.kind.Vms? && p.data.None? && '[' !in prefix && inner != []
    ensures ChangeVms(p, prefix + "[" + inner + "]")
            == WithSegments(if prefix == [] then None else Some(prefix), Segmentize(Vms, inner, []))
  {
    FindEnclosure(prefix, inner);
  }

  lemma VmsRoundTrip(p: Path)
    requires p.kind.Vms? && p.data.Some? && Canonical(p)
    ensures SetPath(p, GetPath(p)) == (p, true)
  {
    var d := p.data.value;
    EscapedNotEmpty(d.segments[0]);
    VmsText(p);
    VmsBody([], d.segments);
    assert [] + d.segments == d.segments;
    VmsFromScratch(p.(data := None), if d.prefix.Some? then d.prefix.value else "", Body(Vms, d.segments));
  }

  /**
   Printing a path and setting it again, the type being known, gives the path back if and only
   if the path is canonical. On VMS segments may hold dots and escapes, as long as they do not
   end in one.
   */
  lemma PathRoundTrip(p: Path)
    requires Modelled(p.kind) && p.data.Some?
    ensures SetPath(p, GetPath(p)) == (p, true) <==> Canonical(p)
  {
    ChangePathCanonical(p.(data := None), GetPath(p));
    if Canonical(p) {
      if UnixLike(p.kind) { UnixRoundTrip(p); } else if DosLike(p.kind) { DosRoundTrip(p); } else { VmsRoundTrip(p); }
    }
  }
}
