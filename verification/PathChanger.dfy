/**
 Changing a server path step by step: the cursor of the splitting loop, the growing segment
 list and the branches per server type. Proved against PathText.
 */
module PathChanger {
  import opened Optional
  import opened ServerPath
  import opened PathText

  /** The next separator at or after a position, or the length. */
  method FindSeparator(k: ServerType, s: string, start: nat) returns (pos: nat)
    requires start <= |s|
    ensures start <= pos <= |s| && pos == start + RunLen(k, s[start..])
  {
    pos := start;
    while pos < |s| && !IsSeparator(k, s[pos])
      invariant start <= pos <= |s|
      invariant forall i :: start <= i < pos ==> !IsSeparator(k, s[i])
    {
      pos := pos + 1;
    }
    RunIs(k, s[start..], pos - start);
  }

  method AddSegment(k: ServerType, piece: string, segments: seq<string>, append: bool)
    returns (segments': seq<string>, append': bool)
    requires ValidSegs(Segs(segments, append)) && (append ==> k.Vms?)
    ensures Segs(segments', append') == AddPiece(k, Segs(segments, append), piece)
    ensures append' ==> k.Vms?
  {
    segments', append' := segments, append;
    if HasDots(k) {
      if piece == "." {
        return;
      }
      if piece == ".." {
        if segments' != [] {
          segments' := segments'[..|segments'| - 1];
        }
        return;
      }
    }
    var (text, next) := (piece, false);
    if text != [] && k.Vms? && text[|text| - 1] == '^' {
      next := true;
      text := text[|text| - 1 := Sep(k)];
      assert text == piece[..|piece| - 1] + [Sep(k)];
    }
    if append {
      var last := |segments'| - 1;
      segments' := segments'[last := segments'[last] + text];
      assert segments' == segments[..last] + [segments[last] + text];
    } else {
      segments' := segments' + [text];
    }
    append' := next;
  }

  lemma SegmentizeStep(k: ServerType, g: Segs, s: string, start: nat, pos: nat)
    requires ValidSegs(g) && start < pos <= |s| && pos == start + RunLen(k, s[start..])
    ensures AddAll(k, g, Pieces(k, s[start..])) == AddAll(k, AddPiece(k, g, s[start..pos]), Pieces(k, s[pos..]))
  {
    var (piece, rest) := (s[start..pos], s[pos..]);
    assert s[start..] == piece + rest;
    PiecesOf(k, piece, rest);
    assert ([piece] + Pieces(k, rest))[1..] == Pieces(k, rest);
  }

  lemma SkipSeparator(k: ServerType, s: string, start: nat)
    requires start < |s| && IsSeparator(k, s[start])
    ensures Pieces(k, s[start..]) == Pieces(k, s[start + 1..])
  {
    assert s[start..][1..] == s[start + 1..];
  }

  /** Skips a separator, or takes one piece and the separator behind it. */
  method TakePiece(k: ServerType, s: string, start: nat, segments: seq<string>, append: bool)
    returns (segments': seq<string>, append': bool, start': nat)
    requires start < |s| && ValidSegs(Segs(segments, append)) && (append ==> k.Vms?)
    ensures start < start' <= |s| && ValidSegs(Segs(segments', append')) && (append' ==> k.Vms?)
    ensures AddAll(k, Segs(segments, append), Pieces(k, s[start..])) == AddAll(k, Segs(segments', append'), Pieces(k, s[start'..]))
  {
    var pos := FindSeparator(k, s, start);
    if pos == start {
      SkipSeparator(k, s, start);
      return segments, append, start + 1;
    }
    SegmentizeStep(k, Segs(segments, append), s, start, pos);
    segments', append' := AddSegment(k, s[start..pos], segments, append);
    if pos < |s| {
      SkipSeparator(k, s, pos);
    }
    start' := if pos < |s| then pos + 1 else pos;
  }

  /** Splits a text at the separators and adds the pieces to the segments. */
  method SegmentizeText(k: ServerType, s: string, before: seq<string>) returns (ok: bool, segments: seq<string>)
    ensures Segmentize(k, s, before) == if ok then Some(segments) else None
  {
    segments := before;
    var append, start: nat := false, 0;
    ghost var goal := AddAll(k, Segs(before, false), Pieces(k, s));
    assert s[0..] == s;
    while start < |s|
      invariant start <= |s| && ValidSegs(Segs(segments, append)) && (append ==> k.Vms?)
      invariant goal == AddAll(k, Segs(segments, append), Pieces(k, s[start..]))
      decreases |s| - start
    {
      segments, append, start := TakePiece(k, s, start, segments, append);
    }
    ok := !append;
  }

  /** Changes a path by a directory text; on failure the path is left empty. */
  method DoChangePath(p: Path, subdir: string) returns (p': Path, ok: bool)
    requires Modelled(p.kind)
    ensures (p', ok) == ChangePath(p, subdir)
  {
    if subdir == [] {
      return p, p.data.Some?;
    }
    var data := DataOf(p);
    var dir := subdir;
    ok := true;
    if p.kind.Vms? {
      var pos1, end2 := Find(dir, '['), FindLast(dir, ']');
      if pos1 == |dir| {
        ok := end2 == 0;
      } else if end2 != |dir| || end2 <= pos1 + 2 {
        ok := false;
      } else {
        if pos1 > 0 {
          data := data.(prefix := Some(dir[..pos1]));
        }
        dir := dir[pos1 + 1..|dir| - 1];
        data := data.(segments := []);
      }
    } else if DosLike(p.kind) {
      var colon := Find(dir, ':');
      var sep := FindSeparator(p.kind, dir, 0);
      assert dir[0..] == dir;
      if colon < |dir| && colon > 0 && colon + 1 == sep {
        data := data.(segments := []);
      } else if IsSeparator(p.kind, dir[0]) {
        if data.segments == [] {
          ok := false;
        } else {
          data := data.(segments := data.segments[..1]);
          dir := dir[1..];
        }
      }
    } else if IsSeparator(p.kind, dir[0]) {
      data := data.(segments := []);
    } else if p.data.None? {
      ok := false;
    }
    if ok {
      var segments;
      ok, segments := SegmentizeText(p.kind, dir, data.segments);
      data := data.(segments := segments);
    }
    if !HasRoot(p.kind) && data.segments == [] {
      ok := false;
    }
    p' := p.(data := if ok then Some(data) else None);
  }
}
