/**
 Lexical path normalisation: `normalize_lexically` of `packages/gateway-rust/src/app_config.rs`
 and the link resolver inside `copy_symlink` of `packages/gateway-rust/src/copy_shell_integration.rs`.
 Paths are Unix paths, as text and as the components the standard library splits them into.
 */
module LexicalPath {
  datatype Component = CurDir | ParentDir | Normal(name: string)

  datatype Path = Path(absolute: bool, parts: seq<Component>)

  // ----- the specification of the loop -----

  /** One component against the buffer built so far. */
  function PushPart(absolute: bool, out: seq<Component>, c: Component): seq<Component> {
    match c
    case CurDir => out
    case ParentDir =>
      if out != [] && out[|out| - 1].Normal? then out[..|out| - 1]
      else if absolute then out
      else out + [ParentDir]
    case Normal(_) => out + [c]
  }

  function Fold(absolute: bool, parts: seq<Component>): seq<Component> {
    if parts == [] then []
    else PushPart(absolute, Fold(absolute, parts[..|parts| - 1]), parts[|parts| - 1])
  }

  /** The normal form; an empty relative result is written `.`. */
  function Norm(p: Path): Path {
    var out := Fold(p.absolute, p.parts);
    Path(p.absolute, if out == [] && !p.absolute then [CurDir] else out)
  }

  /** `base.join(other)`: an absolute `other` replaces the base. */
  function Append(base: Path, other: Path): Path {
    if other.absolute then other else Path(base.absolute, base.parts + other.parts)
  }

  // ----- what a path means -----

  /** Walk one component from the directory `at`, given by its names from the root. */
  function Walk(at: seq<string>, c: Component): seq<string> {
    match c
    case CurDir => at
    case ParentDir => if at == [] then [] else at[..|at| - 1]
    case Normal(name) => at + [name]
  }

  function WalkAll(at: seq<string>, parts: seq<Component>): seq<string> {
    if parts == [] then at else Walk(WalkAll(at, parts[..|parts| - 1]), parts[|parts| - 1])
  }

  /** Where `p` leads from the working directory `cwd`, without following links. */
  function Denote(p: Path, cwd: seq<string>): seq<string> {
    WalkAll(if p.absolute then [] else cwd, p.parts)
  }

  // ----- the methods -----

  method NormalizeLexically(path: Path) returns (r: Path)
    ensures r == Norm(path)
  {
    var out: seq<Component> := [];
    for i := 0 to |path.parts|
      invariant out == Fold(path.absolute, path.parts[..i])
    {
      assert path.parts[..i + 1][..i] == path.parts[..i];
      match path.parts[i] {
        case CurDir =>
        case ParentDir =>
          var canPop := out != [] && out[|out| - 1].Normal?;
          if canPop {
            out := out[..|out| - 1];
          } else if !path.absolute {
            out := out + [ParentDir];
          }
        case Normal(_) => out := out + [path.parts[i]];
      }
    }
    assert path.parts[..|path.parts|] == path.parts;
    if out == [] && !path.absolute {
      out := [CurDir];
    }
    r := Path(path.absolute, out);
  }

  /** The resolver for link targets; it works on absolute paths only, and pops without looking. */
  method ResolveLink(absolute: Path) returns (names: seq<string>)
    requires absolute.absolute
    ensures names == Denote(absolute, [])
    ensures Norm(absolute) == Path(true, Named(names))
  {
    names := [];
    for i := 0 to |absolute.parts|
      invariant names == WalkAll([], absolute.parts[..i])
    {
      assert absolute.parts[..i + 1][..i] == absolute.parts[..i];
      match absolute.parts[i] {
        case Normal(part) => names := names + [part];
        case ParentDir =>
          if names != [] {
            names := names[..|names| - 1];
          }
        case CurDir =>
      }
    }
    assert absolute.parts[..|absolute.parts|] == absolute.parts;
    AbsoluteNorm(absolute.parts);
  }

  function Named(names: seq<string>): seq<Component> {
    seq(|names|, i requires 0 <= i < |names| => Normal(names[i]))
  }

  /** Both normalisers give one answer on absolute paths. */
  lemma {:induction false} AbsoluteNorm(parts: seq<Component>)
    ensures Fold(true, parts) == Named(WalkAll([], parts))
  {
    if parts != [] {
      AbsoluteNorm(parts[..|parts| - 1]);
    }
  }

  // ----- shape -----

  /** `..` only at the front, then names. */
  predicate UpsThenNames(out: seq<Component>, ups: nat) {
    && ups <= |out|
    && (forall i :: 0 <= i < ups ==> out[i] == ParentDir)
    && (forall i :: ups <= i < |out| ==> out[i].Normal?)
  }

  lemma {:induction false} FoldShape(absolute: bool, parts: seq<Component>) returns (ups: nat)
    ensures UpsThenNames(Fold(absolute, parts), ups) && (absolute ==> ups == 0)
  {
    ups := 0;
    if parts != [] {
      ups := FoldShape(absolute, parts[..|parts| - 1]);
      if parts[|parts| - 1] == ParentDir && ups == |Fold(absolute, parts[..|parts| - 1])| && !absolute {
        ups := ups + 1;
      }
    }
  }

  /** Absolute results have no dots at all; relative ones have `..` only as a prefix, or are `.`. */
  lemma NormShape(p: Path)
    ensures p.absolute ==> Norm(p).absolute && UpsThenNames(Norm(p).parts, 0)
    ensures !p.absolute ==>
              !Norm(p).absolute
              && (Norm(p).parts == [CurDir] || (Norm(p).parts != [] && exists ups: nat :: UpsThenNames(Norm(p).parts, ups)))
  {
    var ups := FoldShape(p.absolute, p.parts);
    assert UpsThenNames(Fold(p.absolute, p.parts), ups);
  }

  // ----- folding in two parts -----

  /** Continue a fold from a buffer. */
  function FoldFrom(absolute: bool, out: seq<Component>, parts: seq<Component>): seq<Component> {
    if parts == [] then out
    else PushPart(absolute, FoldFrom(absolute, out, parts[..|parts| - 1]), parts[|parts| - 1])
  }

  lemma {:induction false} FoldSplit(absolute: bool, a: seq<Component>, b: seq<Component>)
    ensures Fold(absolute, a + b) == FoldFrom(absolute, Fold(absolute, a), b)
    decreases |b|
  {
    if b == [] {
      assert a + b == a;
    } else {
      assert (a + b)[..|a + b| - 1] == a + b[..|b| - 1];
      FoldSplit(absolute, a, b[..|b| - 1]);
    }
  }

  /** A buffer already in shape folds to itself. */
  lemma {:induction false} FoldFixed(absolute: bool, out: seq<Component>, ups: nat)
    requires UpsThenNames(out, ups) && (absolute ==> ups == 0)
    ensures Fold(absolute, out) == out
  {
    if out != [] {
      var front := out[..|out| - 1];
      FoldFixed(absolute, front, if ups < |out| then ups else ups - 1);
      assert front + [out[|out| - 1]] == out;
    }
  }

  lemma FoldNorm(p: Path)
    ensures Fold(p.absolute, Norm(p).parts) == Fold(p.absolute, p.parts)
  {
    var ups := FoldShape(p.absolute, p.parts);
    FoldFixed(p.absolute, Fold(p.absolute, p.parts), ups);
    assert Fold(false, [CurDir]) == [];
  }

  /** Normalising again changes nothing. */
  lemma NormIdempotent(p: Path)
    ensures Norm(Norm(p)) == Norm(p)
  {
    FoldNorm(p);
  }

  /** The base of a join may be normalised first. */
  lemma NormOfJoin(a: Path, b: Path)
    ensures Norm(Append(a, b)) == Norm(Append(Norm(a), b))
  {
    if !b.absolute {
      FoldSplit(a.absolute, a.parts, b.parts);
      FoldSplit(a.absolute, Norm(a).parts, b.parts);
      FoldNorm(a);
    }
  }

  // ----- meaning -----

  lemma {:induction false} WalkSplit(at: seq<string>, a: seq<Component>, b: seq<Component>)
    ensures WalkAll(at, a + b) == WalkAll(WalkAll(at, a), b)
    decreases |b|
  {
    if b == [] {
      assert a + b == a;
    } else {
      assert (a + b)[..|a + b| - 1] == a + b[..|b| - 1];
      WalkSplit(at, a, b[..|b| - 1]);
    }
  }

  /** Dropping a name and the `..` after it leads to the same place. */
  lemma PopMeans(at: seq<string>, out: seq<Component>)
    requires out != [] && out[|out| - 1].Normal?
    ensures WalkAll(at, out[..|out| - 1]) == Walk(WalkAll(at, out), ParentDir)
  {
  }

  /** In an absolute path the buffer holds names only, so an ignored `..` is at the root. */
  lemma {:induction false} FoldMeans(absolute: bool, parts: seq<Component>, at: seq<string>)
    requires absolute ==> at == []
    ensures WalkAll(at, Fold(absolute, parts)) == WalkAll(at, parts)
  {
    if parts != [] {
      var front, c := parts[..|parts| - 1], parts[|parts| - 1];
      FoldMeans(absolute, front, at);
      var out := Fold(absolute, front);
      if c == ParentDir && out != [] && out[|out| - 1].Normal? {
        PopMeans(at, out);
      } else if c == ParentDir && absolute {
        var ups := FoldShape(absolute, front);
        assert out == [];
      } else if c != CurDir {
        assert (out + [c])[..|out|] == out;
      }
    }
  }

  /** The normal form leads where the path leads, from every working directory. */
  lemma NormMeans(p: Path, cwd: seq<string>)
    ensures Denote(Norm(p), cwd) == Denote(p, cwd)
  {
    FoldMeans(p.absolute, p.parts, if p.absolute then [] else cwd);
    assert WalkAll(cwd, [CurDir]) == Walk(WalkAll(cwd, []), CurDir);
  }

  // ----- one normal form for one meaning -----

  /** A working directory deep and unusual enough to tell every `..` and every name apart. */
  function DeepCwd(depth: nat, mark: string): seq<string> {
    seq(depth, _ => mark)
  }

  function NamesFrom(out: seq<Component>, ups: nat): seq<string>
    requires UpsThenNames(out, ups)
  {
    seq(|out| - ups, i requires 0 <= i < |out| - ups => out[ups + i].name)
  }

  lemma {:induction false} WalkShape(out: seq<Component>, ups: nat, depth: nat, mark: string)
    requires UpsThenNames(out, ups) && ups <= depth
    ensures WalkAll(DeepCwd(depth, mark), out) == DeepCwd(depth - ups, mark) + NamesFrom(out, ups)
  {
    if out != [] {
      var front := out[..|out| - 1];
      if ups < |out| {
        WalkShape(front, ups, depth, mark);
      } else {
        WalkShape(front, ups - 1, depth, mark);
        assert DeepCwd(depth - ups + 1, mark) + [] == DeepCwd(depth - ups + 1, mark);
      }
    }
  }

  /** A name longer than every name of the two buffers. */
  function LongName(n: nat): string {
    seq(n, _ => 'x')
  }

  lemma {:induction false} NameBound(out: seq<Component>) returns (n: nat)
    ensures forall i :: 0 <= i < |out| && out[i].Normal? ==> |out[i].name| < n
  {
    n := 0;
    if out != [] {
      n := NameBound(out[1..]);
      assert forall i :: 1 <= i < |out| ==> out[i] == out[1..][i - 1];
      if out[0].Normal? && n <= |out[0].name| {
        n := |out[0].name| + 1;
      }
    }
  }

  ghost predicate Avoids(out: seq<Component>, mark: string) {
    forall k :: 0 <= k < |out| && out[k].Normal? ==> out[k].name != mark
  }

  /** Marks, then names: the number of marks can be read off. */
  lemma MarksCount(m: nat, names: seq<string>, n: nat, names': seq<string>, mark: string)
    requires mark !in names && mark !in names'
    requires DeepCwd(m, mark) + names == DeepCwd(n, mark) + names'
    ensures m == n && names == names'
    decreases m
  {
    var left, right := DeepCwd(m, mark) + names, DeepCwd(n, mark) + names';
    assert m > 0 ==> left[0] == mark;
    assert n > 0 ==> right[0] == mark;
    assert m == 0 && names != [] ==> left[0] == names[0];
    assert n == 0 && names' != [] ==> right[0] == names'[0];
    if m > 0 && n > 0 {
      assert left[1..] == DeepCwd(m - 1, mark) + names;
      assert right[1..] == DeepCwd(n - 1, mark) + names';
      MarksCount(m - 1, names, n - 1, names', mark);
    } else if m == 0 && n == 0 {
      assert left == names && right == names';
    }
  }

  /** Shaped buffers that lead to the same place from a deep marked directory are the same. */
  lemma ShapesApart(a: seq<Component>, i: nat, b: seq<Component>, j: nat, depth: nat, mark: string)
    requires UpsThenNames(a, i) && UpsThenNames(b, j) && i <= depth && j <= depth
    requires Avoids(a, mark) && Avoids(b, mark)
    requires WalkAll(DeepCwd(depth, mark), a) == WalkAll(DeepCwd(depth, mark), b)
    ensures a == b
  {
    WalkShape(a, i, depth, mark);
    WalkShape(b, j, depth, mark);
    var na, nb := NamesFrom(a, i), NamesFrom(b, j);
    MarksCount(depth - i, na, depth - j, nb, mark);
    forall k | 0 <= k < |a| ensures a[k] == b[k] {
      if i <= k {
        assert na[k - i] == nb[k - i];
      }
    }
  }

  /** Two paths of one kind have one normal form exactly when they always lead to the same place. */
  lemma NormIsCanonical(p: Path, q: Path)
    requires p.absolute == q.absolute
    ensures Norm(p) == Norm(q) <==> forall cwd :: Denote(p, cwd) == Denote(q, cwd)
  {
    if Norm(p) == Norm(q) {
      forall cwd ensures Denote(p, cwd) == Denote(q, cwd) {
        NormMeans(p, cwd);
        NormMeans(q, cwd);
      }
    }
    if forall cwd :: Denote(p, cwd) == Denote(q, cwd) {
      var a, b := Fold(p.absolute, p.parts), Fold(q.absolute, q.parts);
      var i := FoldShape(p.absolute, p.parts);
      var j := FoldShape(q.absolute, q.parts);
      var m := NameBound(a);
      var n := NameBound(b);
      var mark := LongName(m + n);
      var depth := i + j;
      var cwd := DeepCwd(if p.absolute then 0 else depth, mark);
      assert Denote(p, cwd) == Denote(q, cwd);
      FoldMeans(p.absolute, p.parts, cwd);
      FoldMeans(q.absolute, q.parts, cwd);
      ShapesApart(a, i, b, j, |cwd|, mark);
    }
  }
}
