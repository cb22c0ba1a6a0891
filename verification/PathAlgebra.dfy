/**
 Lexical path algebra shared by checks/citation_lines.py and checks/doc_pointers.py.
 A path string is represented by its components, the pieces between slashes: "a//b/" is
 ["a", "", "b", ""], a leading slash is a leading empty component.
 */
module PathAlgebra {
  datatype Option<T> = None | Some(value: T)

  type Path = seq<string>

  const HERE: string := "."
  const UP: string := ".."

  predicate IsName(part: string) { part != "" && part != HERE && part != UP }

  /** Only names: neither `.` nor `..` nor an empty component is left. */
  predicate Names(p: Path)
  {
    forall k :: 0 <= k < |p| ==> IsName(p[k])
  }

  function Step(at: Path, part: string): Option<Path>
  {
    if part == HERE || part == "" then Some(at)
    else if part == UP then if at == [] then None else Some(at[..|at| - 1])
    else Some(at + [part])
  }

  /** Following a path from a place; None once it climbs above the root. */
  function Walk(start: Path, p: Path): Option<Path>
    decreases |p|
  {
    if p == [] then Some(start)
    else match Walk(start, p[..|p| - 1])
      case None => None
      case Some(at) => Step(at, p[|p| - 1])
  }

  function Normal(p: Path): Option<Path>
  {
    match Walk([], p)
    case Some(at) => if at == [] then None else Some(at)
    case None => None
  }

  /** The loop of both files. */
  method Normalise(p: Path) returns (r: Option<Path>)
    ensures r == Normal(p)
  {
    var parts: Path := [];
    for i := 0 to |p|
      invariant Walk([], p[..i]) == Some(parts)
    {
      assert p[..i + 1][..i] == p[..i];
      if p[i] == UP && parts == [] {
        WalkStuck(p, i + 1);
        return None;
      }
      parts := Step(parts, p[i]).value;
    }
    assert p[..|p|] == p;
    return if parts != [] then Some(parts) else None;
  }

  /** A climb above the root cannot be repaired by what follows. */
  lemma {:induction false} WalkStuck(p: Path, k: nat)
    requires k <= |p| && Walk([], p[..k]).None?
    ensures Walk([], p).None?
    decreases |p|
  {
    if k < |p| {
      assert p[..|p| - 1][..k] == p[..k];
      WalkStuck(p[..|p| - 1], k);
    } else {
      assert p[..k] == p;
    }
  }

  // ----- exactly when a path escapes -----

  /** Levels below the root: what a path adds, independent of any stack. */
  function Depth(p: Path): int
  {
    if p == [] then 0
    else
      var last := p[|p| - 1];
      Depth(p[..|p| - 1]) + (if last == UP then -1 else if IsName(last) then 1 else 0)
  }

  predicate ClimbsAt(p: Path, k: nat)
  {
    k <= |p| && Depth(p[..k]) < 0
  }

  lemma {:induction false} WalkDepth(p: Path)
    ensures Walk([], p).None? <==> exists k :: ClimbsAt(p, k)
    ensures Walk([], p).Some? ==> |Walk([], p).value| == Depth(p) && Names(Walk([], p).value)
    decreases |p|
  {
    if p == [] {
      assert forall k: nat :: !ClimbsAt(p, k);
    } else {
      var q := p[..|p| - 1];
      WalkDepth(q);
      assert p[..|p|] == p;
      forall k: nat | k < |p| ensures ClimbsAt(q, k) <==> ClimbsAt(p, k) {
        assert q[..k] == p[..k];
      }
      if Walk([], p).None? && Walk([], q).Some? {
        assert ClimbsAt(p, |p|);
      }
    }
  }

  /** None exactly when some prefix climbs above the root or nothing is left; otherwise
      the result is a list of names whose length is the depth of the path. */
  lemma {:induction false} NormaliseExactly(p: Path)
    ensures Normal(p).None? <==> (exists k :: ClimbsAt(p, k)) || Depth(p) == 0
    ensures Normal(p).Some? ==> Names(Normal(p).value) && |Normal(p).value| == Depth(p) > 0
  {
    WalkDepth(p);
    assert p[..|p|] == p;
    assert Depth(p) < 0 ==> ClimbsAt(p, |p|);
  }

  // ----- the algebra -----

  lemma {:induction false} WalkAppend(start: Path, p: Path, q: Path)
    ensures Walk(start, p + q)
         == match Walk(start, p) case None => None case Some(at) => Walk(at, q)
    decreases |q|
  {
    if q == [] {
      assert p + q == p;
    } else {
      WalkAppend(start, p, q[..|q| - 1]);
      assert (p + q)[..|p + q| - 1] == p + q[..|q| - 1];
    }
  }

  lemma {:induction false} WalkNames(start: Path, p: Path)
    requires Names(p)
    ensures Walk(start, p) == Some(start + p)
    decreases |p|
  {
    if p == [] {
      assert start + p == start;
    } else {
      var q := p[..|p| - 1];
      assert Names(q);
      WalkNames(start, q);
      assert start + p == start + q + [p[|p| - 1]];
    }
  }

  /** A normal form is its own normal form, and a list of names is a normal form. */
  lemma {:induction false} NormaliseIdempotent(p: Path)
    ensures Normal(p).Some? ==> Normal(Normal(p).value) == Normal(p)
    ensures p != [] && Names(p) ==> Normal(p) == Some(p)
  {
    WalkDepth(p);
    assert forall n: Path :: [] + n == n;
    if Normal(p).Some? { WalkNames([], Normal(p).value); }
    if Names(p) { WalkNames([], p); }
  }

  /** A base may be normalised before or after it is joined; a base that collapses to the root
      contributes nothing, one that escapes stays escaped. */
  lemma {:induction false} NormaliseJoin(p: Path, q: Path)
    ensures Normal(p).Some? ==> Normal(p + q) == Normal(Normal(p).value + q)
    ensures Walk([], p) == Some([]) ==> Normal(p + q) == Normal(q)
    ensures Walk([], p).None? ==> Normal(p + q).None?
  {
    WalkAppend([], p, q);
    if Normal(p).Some? {
      var n := Normal(p).value;
      NormaliseIdempotent(p);
      WalkAppend([], n, q);
    }
  }

  /** `x/..` cancels wherever it stands, and `.` and empty components vanish. */
  lemma {:induction false} Cancel(a: Path, x: string, b: Path)
    ensures IsName(x) ==> Normal(a + [x, UP] + b) == Normal(a + b)
    ensures !IsName(x) && x != UP ==> Normal(a + [x] + b) == Normal(a + b)
  {
    WalkAppend([], a, b);
    WalkAppend([], a + [x, UP], b);
    WalkAppend([], a + [x], b);
    assert (a + [x, UP])[..|a| + 1] == a + [x];
    assert (a + [x])[..|a|] == a;
    if Walk([], a).Some? && IsName(x) {
      var at := Walk([], a).value;
      assert (at + [x])[..|at|] == at;
    }
  }

  // ----- paths -----

  predicate EndsWith(p: Path, tail: Path)
  {
    |tail| <= |p| && p[|p| - |tail|..] == tail
  }

  predicate StartsWith(p: Path, head: Path)
  {
    |head| <= |p| && p[..|head|] == head
  }

  /** The directory of a repository-relative file: what is left of its names without the last. */
  function Parent(file: Path): (r: Path)
    ensures |r| < |file| || r == []
  {
    var q := Kept(file);
    if q == [] then [] else q[..|q| - 1]
  }

  /** The components pathlib keeps of a relative path: `.` and empty ones are dropped. */
  function Kept(p: Path): (r: Path)
    ensures |r| <= |p|
  {
    if p == [] then []
    else if p[|p| - 1] == "" || p[|p| - 1] == HERE then Kept(p[..|p| - 1])
    else Kept(p[..|p| - 1]) + [p[|p| - 1]]
  }

  lemma {:induction false} KeptNames(p: Path)
    requires Names(p)
    ensures Kept(p) == p
    decreases |p|
  {
    if p != [] {
      KeptNames(p[..|p| - 1]);
      assert p == p[..|p| - 1] + [p[|p| - 1]];
    }
  }
}
