/**
 Server paths: a server type, an optional prefix and a list of segments.
 This module holds the data type, the per-type traits, the subdirectory relation and
 the ordering under which paths are kept in sorted sets.
 */
module ServerPath {
  import opened Optional

  /** The server types, in the order of their numeric codes. */
  datatype ServerType =
    Default | Unix | Vms | Dos | Mvs | VxWorks | Zvm | HpNonStop | DosVirtual | Cygwin | DosFwdSlashes

  datatype PathData = PathData(prefix: Option<string>, segments: seq<string>)

  /** Without data the path is the empty path; its type is kept all the same. */
  datatype Path = Path(kind: ServerType, data: Option<PathData>)

  predicate IsEmpty(p: Path) {
    p.data.None?
  }

  // ---------------------------------------------------------------- type traits

  function Code(k: ServerType): nat {
    match k
    case Default => 0
    case Unix => 1
    case Vms => 2
    case Dos => 3
    case Mvs => 4
    case VxWorks => 5
    case Zvm => 6
    case HpNonStop => 7
    case DosVirtual => 8
    case Cygwin => 9
    case DosFwdSlashes => 10
  }

  /** The separators a type accepts; the first one is used for printing. */
  function Separators(k: ServerType): (s: string)
    ensures s != []
  {
    match k
    case Vms | Mvs | HpNonStop => "."
    case Dos => "\\/"
    case DosVirtual => "\\"
    case DosFwdSlashes => "/\\"
    case _ => "/"
  }

  predicate HasRoot(k: ServerType) {
    !k.Vms? && !k.Dos? && !k.Mvs? && !k.HpNonStop? && !k.DosFwdSlashes?
  }

  /** "." and ".." have their usual meaning. */
  predicate HasDots(k: ServerType) {
    !k.Vms? && !k.Mvs? && !k.HpNonStop?
  }

  /** On MVS the prefix is printed as a suffix. */
  predicate PrefixIsSuffix(k: ServerType) {
    k.Mvs?
  }

  predicate HasParent(p: Path) {
    && p.data.Some?
    && if HasRoot(p.kind) then p.data.value.segments != [] else |p.data.value.segments| > 1
  }

  // ---------------------------------------------------------------- case folding

  function FoldChar(c: char): char {
    if 'A' <= c <= 'Z' then c + ' ' else c
  }

  function Fold(s: string): (r: string)
    ensures |r| == |s|
  {
    seq(|s|, i requires 0 <= i < |s| => FoldChar(s[i]))
  }

  predicate SameName(noCase: bool, a: string, b: string) {
    if noCase then Fold(a) == Fold(b) else a == b
  }

  predicate SamePrefix(noCase: bool, a: Option<string>, b: Option<string>) {
    (a.None? && b.None?) || (a.Some? && b.Some? && SameName(noCase, a.value, b.value))
  }

  /** Two paths differ at most in the case of their segments. */
  predicate SameNoCase(p: Path, q: Path) {
    || (p.data.None? && q.data.None?)
    || (&& p.data.Some? && q.data.Some?
        && p.kind == q.kind
        && p.data.value.prefix == q.data.value.prefix
        && |p.data.value.segments| == |q.data.value.segments|
        && forall i :: 0 <= i < |p.data.value.segments| ==>
             SameName(true, p.data.value.segments[i], q.data.value.segments[i]))
  }

  // ---------------------------------------------------------------- subdirectories

  /** The segments of the parent are the first ones of the child. */
  predicate StartsWith(noCase: bool, child: seq<string>, parent: seq<string>) {
    && |parent| <= |child|
    && forall i :: 0 <= i < |parent| ==> SameName(noCase, child[i], parent[i])
  }

  predicate IsSubdirOf(p: Path, parent: Path, noCase: bool, allowEqual: bool) {
    && HasParent(p)
    && parent.data.Some?
    && p.kind == parent.kind
    && (if PrefixIsSuffix(p.kind) then parent.data.value.prefix.Some?
        else SamePrefix(noCase, p.data.value.prefix, parent.data.value.prefix))
    && StartsWith(noCase, p.data.value.segments, parent.data.value.segments)
    && (allowEqual || |parent.data.value.segments| < |p.data.value.segments|)
  }

  /** The segment-by-segment comparison decides the relation above. */
  method CheckSubdirOf(p: Path, parent: Path, noCase: bool, allowEqual: bool) returns (r: bool)
    ensures r == IsSubdirOf(p, parent, noCase, allowEqual)
  {
    if p.data.None? || parent.data.None? || p.kind != parent.kind || !HasParent(p) {
      return false;
    }
    var ld, rd := p.data.value, parent.data.value;
    if !PrefixIsSuffix(p.kind) && !SamePrefix(noCase, ld.prefix, rd.prefix) {
      return false;
    }
    if PrefixIsSuffix(p.kind) && rd.prefix.None? {
      return false;
    }
    var i := 0;
    while i < |ld.segments|
      invariant 0 <= i <= |ld.segments| && i <= |rd.segments|
      invariant forall j :: 0 <= j < i ==> SameName(noCase, ld.segments[j], rd.segments[j])
    {
      if i == |rd.segments| {
        return true;
      }
      if !SameName(noCase, ld.segments[i], rd.segments[i]) {
        return false;
      }
      i := i + 1;
    }
    return allowEqual && i == |rd.segments|;
  }

  /** Being a subdirectory is a strict order: nothing is below itself, and it is transitive. */
  lemma SubdirStrictOrder(p: Path, q: Path, r: Path, noCase: bool)
    ensures !IsSubdirOf(p, p, noCase, false)
    ensures IsSubdirOf(p, q, noCase, false) && IsSubdirOf(q, r, noCase, false) ==> IsSubdirOf(p, r, noCase, false)
    ensures IsSubdirOf(p, q, noCase, false) ==> !IsSubdirOf(q, p, noCase, false)
  {
    if IsSubdirOf(p, q, noCase, false) && IsSubdirOf(q, r, noCase, false) {
      var ps, qs, rs := p.data.value.segments, q.data.value.segments, r.data.value.segments;
      forall i | 0 <= i < |rs| ensures SameName(noCase, ps[i], rs[i]) {
        assert SameName(noCase, ps[i], qs[i]) && SameName(noCase, qs[i], rs[i]);
      }
    }
  }

  // ---------------------------------------------------------------- ordering

  predicate StrLess(a: string, b: string) {
    b != [] && (a == [] || a[0] < b[0] || (a[0] == b[0] && StrLess(a[1..], b[1..])))
  }

  predicate SegmentsLess(a: seq<string>, b: seq<string>) {
    b != [] && (a == [] || StrLess(a[0], b[0]) || (a[0] == b[0] && SegmentsLess(a[1..], b[1..])))
  }

  predicate PrefixLess(a: Option<string>, b: Option<string>) {
    b.Some? && (a.None? || StrLess(a.value, b.value))
  }

  predicate PathLess(p: Path, q: Path) {
    if IsEmpty(p) then !IsEmpty(q)
    else if IsEmpty(q) then false
    else
      var l, r := p.data.value, q.data.value;
      if PrefixLess(l.prefix, r.prefix) then true
      else if PrefixLess(r.prefix, l.prefix) then false
      else if Code(p.kind) != Code(q.kind) then Code(p.kind) < Code(q.kind)
      else SegmentsLess(l.segments, r.segments)
  }

  /** The loop of the comparison operator decides the order above. */
  method ComparePaths(p: Path, q: Path) returns (less: bool)
    ensures less == PathLess(p, q)
  {
    if p.data.None? { return q.data.Some?; }
    if q.data.None? { return false; }
    var l, r := p.data.value, q.data.value;
    if PrefixLess(l.prefix, r.prefix) { return true; }
    if PrefixLess(r.prefix, l.prefix) { return false; }
    if Code(p.kind) > Code(q.kind) { return false; }
    if Code(p.kind) < Code(q.kind) { return true; }
    var i := 0;
    while i < |l.segments|
      invariant 0 <= i <= |l.segments| && i <= |r.segments|
      invariant SegmentsLess(l.segments, r.segments) == SegmentsLess(l.segments[i..], r.segments[i..])
    {
      if i == |r.segments| { return false; }
      if StrLess(l.segments[i], r.segments[i]) { return true; }
      StrOrder(l.segments[i], r.segments[i], []);
      if l.segments[i] != r.segments[i] { return false; }
      assert l.segments[i..][1..] == l.segments[i + 1..];
      assert r.segments[i..][1..] == r.segments[i + 1..];
      i := i + 1;
    }
    return i != |r.segments|;
  }

  lemma {:induction false} StrOrder(a: string, b: string, c: string)
    ensures !StrLess(a, a)
    ensures StrLess(a, b) ==> !StrLess(b, a)
    ensures StrLess(a, b) || StrLess(b, a) || a == b
    ensures StrLess(a, b) && StrLess(b, c) ==> StrLess(a, c)
  {
    if a != [] {
      StrOrder(a[1..], if b == [] then [] else b[1..], if c == [] then [] else c[1..]);
      if b != [] {
        assert a == [a[0]] + a[1..] && b == [b[0]] + b[1..];
      }
    }
  }

  lemma {:induction false} SegmentsOrder(a: seq<string>, b: seq<string>, c: seq<string>)
    ensures !SegmentsLess(a, a)
    ensures SegmentsLess(a, b) ==> !SegmentsLess(b, a)
    ensures SegmentsLess(a, b) || SegmentsLess(b, a) || a == b
    ensures SegmentsLess(a, b) && SegmentsLess(b, c) ==> SegmentsLess(a, c)
  {
    if a != [] {
      SegmentsOrder(a[1..], if b == [] then [] else b[1..], if c == [] then [] else c[1..]);
      StrOrder(a[0], if b == [] then "" else b[0], if c == [] then "" else c[0]);
      if b != [] {
        assert a == [a[0]] + a[1..] && b == [b[0]] + b[1..];
      }
    }
  }

  lemma PrefixOrder(a: Option<string>, b: Option<string>, c: Option<string>)
    ensures !PrefixLess(a, a)
    ensures PrefixLess(a, b) ==> !PrefixLess(b, a)
    ensures PrefixLess(a, b) || PrefixLess(b, a) || a == b
    ensures PrefixLess(a, b) && PrefixLess(b, c) ==> PrefixLess(a, c)
  {
    if a.Some? {
      StrOrder(a.value, if b.None? then "" else b.value, if c.None? then "" else c.value);
    }
  }

  /**
   The comparison is a strict order. Two paths that neither precedes are equal, except that
   all empty paths are equivalent whatever their types.
   */
  lemma PathOrder(p: Path, q: Path, r: Path)
    ensures !PathLess(p, p)
    ensures PathLess(p, q) ==> !PathLess(q, p)
    ensures !PathLess(p, q) && !PathLess(q, p) <==> p == q || (IsEmpty(p) && IsEmpty(q))
    ensures PathLess(p, q) && PathLess(q, r) ==> PathLess(p, r)
  {
    var none := PathData(None, []);
    var pd := if IsEmpty(p) then none else p.data.value;
    var qd := if IsEmpty(q) then none else q.data.value;
    var rd := if IsEmpty(r) then none else r.data.value;
    PrefixOrder(pd.prefix, qd.prefix, rd.prefix);
    PrefixOrder(qd.prefix, rd.prefix, pd.prefix);
    SegmentsOrder(pd.segments, qd.segments, rd.segments);
  }
}
