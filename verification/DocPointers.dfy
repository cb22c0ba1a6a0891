/**
 checks/doc_pointers.py: the resolution universe, what it means for a pointer to resolve, and
 the mask that blanks code without moving anything.
 */
module DocPointers {
  import opened PathAlgebra

  // ----- the universe -----

  /** A path as git lists it: relative, and already a list of names. */
  predicate Listed(file: Path) { file != [] && Names(file) }

  /** The tracked files and every directory that holds one. */
  ghost function Universe(files: seq<Path>): iset<Path>
  {
    iset p: Path | p != [] && Holds(files, p)
  }

  /** `p` is a listed file or a directory above one. */
  ghost predicate Holds(files: seq<Path>, p: Path)
  {
    exists f :: f in files && StartsWith(f, p)
  }

  /** A directory above the file, or the file itself, with more than n names. */
  predicate Above(rel: Path, p: Path, n: nat) { p != [] && StartsWith(rel, p) && |p| > n }

  /** Climbing from a file to the root, every directory on the way joins the universe. */
  method AddParents(before: set<Path>, rel: Path) returns (universe: set<Path>)
    requires Listed(rel)
    ensures forall p :: p in universe <==> p in before || (p != [] && StartsWith(rel, p))
  {
    universe := before + {rel};
    KeptNames(rel);
    var parent := Parent(rel);
    while parent != []
      invariant StartsWith(rel, parent) && |parent| < |rel|
      invariant forall p :: p in universe <==> p in before || Above(rel, p, |parent|)
      decreases |parent|
    {
      ClimbOne(rel, parent);
      universe := universe + {parent};
      parent := Parent(parent);
    }
  }

  lemma {:induction false} ClimbOne(rel: Path, at: Path)
    requires Listed(rel) && StartsWith(rel, at) && at != []
    ensures StartsWith(rel, Parent(at)) && |Parent(at)| == |at| - 1
    ensures forall p {:trigger Above(rel, p, |Parent(at)|)} ::
      Above(rel, p, |Parent(at)|) <==> Above(rel, p, |at|) || p == at
  {
    assert Names(at);
    KeptNames(at);
    forall p | StartsWith(rel, p) && |p| == |at| ensures p == at {}
  }

  method TrackedPaths(files: seq<Path>) returns (universe: set<Path>)
    requires forall f :: f in files ==> Listed(f)
    ensures forall p :: p in universe <==> p != [] && Holds(files, p)
  {
    universe := {};
    for i := 0 to |files|
      invariant forall p :: p in universe <==> p != [] && Holds(files[..i], p)
    {
      assert files[i] in files;
      universe := AddParents(universe, files[i]);
      forall p ensures p in universe <==> p != [] && Holds(files[..i + 1], p) {
        HoldsNext(files, i, p);
      }
    }
    assert files[..|files|] == files;
  }

  lemma {:induction false} HoldsNext(files: seq<Path>, i: nat, p: Path)
    requires i < |files|
    ensures Holds(files[..i + 1], p) <==> Holds(files[..i], p) || StartsWith(files[i], p)
  {
    assert forall f :: f in files[..i + 1] <==> f in files[..i] || f == files[i];
    if StartsWith(files[i], p) { assert files[i] in files[..i + 1]; }
  }

  /** The universe is the least set that contains the listed files and, with a path, its parent. */
  lemma {:induction false} UniverseIsLeast(files: seq<Path>, s: iset<Path>)
    requires forall f :: f in files ==> Listed(f)
    ensures forall f :: f in files ==> f in Universe(files)
    ensures ParentClosed(Universe(files))
    ensures (forall f :: f in files ==> f in s) && ParentClosed(s) ==> Universe(files) <= s
  {
    forall f | f in files ensures f in Universe(files) {
      assert StartsWith(f, f);
    }
    forall p | p in Universe(files) && |p| > 1 ensures p[..|p| - 1] in Universe(files) {
      var f :| f in files && StartsWith(f, p);
      assert StartsWith(f, p[..|p| - 1]);
    }
    if (forall f :: f in files ==> f in s) && ParentClosed(s) {
      forall p | p in Universe(files) ensures p in s {
        var f :| f in files && StartsWith(f, p);
        AncestorsIn(s, f, |p|);
      }
    }
  }

  ghost predicate ParentClosed(s: iset<Path>)
  {
    forall p :: p in s && |p| > 1 ==> p[..|p| - 1] in s
  }

  lemma {:induction false} AncestorsIn(s: iset<Path>, f: Path, k: nat)
    requires ParentClosed(s) && f in s && 0 < k <= |f|
    ensures f[..k] in s
    decreases |f| - k
  {
    if k == |f| {
      assert f[..k] == f;
    } else {
      AncestorsIn(s, f, k + 1);
      assert f[..k + 1][..k] == f[..k];
    }
  }

  // ----- resolution -----

  /** The pointer resolves when, read from the citing file or from the root, it ends on a
      listed file or on a directory that holds one. */
  ghost predicate LeadsSomewhere(files: seq<Path>, citing: Path, target: Path)
  {
    || (exists at :: Walk(Parent(citing), target) == Some(at) && at != [] && Holds(files, at))
    || (exists at :: Walk([], target) == Some(at) && at != [] && Holds(files, at))
  }

  method Resolves(universe: set<Path>, ghost files: seq<Path>, citing: Path, target: Path) returns (ok: bool)
    requires forall p :: p in universe <==> p != [] && Holds(files, p)
    requires Listed(citing)
    ensures ok <==> LeadsSomewhere(files, citing, target)
  {
    KeptNames(citing);
    var bases := [Parent(citing), []];
    WalkFrom(bases[0], target);
    assert [] + target == target;
    for i := 0 to 2
      invariant i > 0 ==> !(Normal(bases[0] + target).Some? && Normal(bases[0] + target).value in universe)
      invariant i > 1 ==> !(Normal(target).Some? && Normal(target).value in universe)
    {
      var candidate := Normalise(bases[i] + target);
      if candidate.Some? && candidate.value in universe {
        return true;
      }
    }
    return false;
  }

  /** Joining to a directory and normalising is walking from that directory. */
  lemma {:induction false} WalkFrom(base: Path, target: Path)
    requires Names(base)
    ensures Normal(base + target)
         == match Walk(base, target) case None => None case Some(at) => if at == [] then None else Some(at)
  {
    WalkAppend([], base, target);
    WalkNames([], base);
    assert [] + base == base;
  }

  // ----- masking -----

  predicate Blank(c: char) { c == ' ' || '\t' <= c <= '\r' || '\U{1C}' <= c <= '\U{1F}' }

  function Leading(line: string): nat
  {
    if line != "" && Blank(line[0]) then 1 + Leading(line[1..]) else 0
  }

  function Run(line: string, i: nat, c: char): nat
    decreases |line| - i
  {
    if i < |line| && line[i] == c then 1 + Run(line, i + 1, c) else 0
  }

  /** The character of the fence a line opens or closes, if it is one. */
  function Fence(line: string): Option<char>
  {
    var i := Leading(line);
    if i > 3 then None
    else if Run(line, i, '`') >= 3 then Some('`')
    else if Run(line, i, '~') >= 3 then Some('~')
    else None
  }

  /** What str.splitlines guarantees here: a newline only ends a line. */
  predicate IsLine(line: string)
  {
    forall k :: 0 <= k < |line| - 1 ==> line[k] != '\n'
  }

  /** Spaces over everything but the final newline. */
  function BlankLine(line: string): (r: string)
    requires IsLine(line)
  {
    seq(|line|, k requires 0 <= k < |line| => if line[k] == '\n' then '\n' else ' ')
  }

  /** The fence that is open after the first lines. */
  function OpenFence(lines: seq<string>): Option<char>
  {
    if lines == [] then None
    else
      var fence := Fence(lines[|lines| - 1]);
      match OpenFence(lines[..|lines| - 1])
      case None => fence
      case Some(c) => if fence == Some(c) then None else Some(c)
  }

  /** A line is blanked when a fence is open before it or opens on it. */
  predicate Fenced(lines: seq<string>, k: nat)
    requires k < |lines|
  {
    OpenFence(lines[..k]).Some? || Fence(lines[k]).Some?
  }

  function Masked(lines: seq<string>, k: nat): string
    requires forall k :: 0 <= k < |lines| ==> IsLine(lines[k])
    requires k < |lines|
  {
    if Fenced(lines, k) then BlankLine(lines[k]) else lines[k]
  }

  /** How many fences the lines open. */
  function Opened(lines: seq<string>): nat
  {
    if lines == [] then 0
    else
      var before := lines[..|lines| - 1];
      Opened(before) + (if OpenFence(before).None? && Fence(lines[|lines| - 1]).Some? then 1 else 0)
  }

  // ----- the same, read from the lines -----

  /** Up to three blanks, and then three of the character. */
  ghost predicate FenceReads(line: string, c: char)
  {
    (c == '`' || c == '~') && exists lead {:trigger LeadReads(line, lead, c)} :: LeadReads(line, lead, c)
  }

  predicate LeadReads(line: string, lead: nat, c: char)
  {
    && lead <= 3 && lead + 3 <= |line| && (forall k :: 0 <= k < lead ==> Blank(line[k]))
    && line[lead] == c && line[lead + 1] == c && line[lead + 2] == c
  }

  lemma {:induction false} LeadingIs(line: string, n: nat)
    requires n <= |line| && (forall k :: 0 <= k < n ==> Blank(line[k])) && (n < |line| ==> !Blank(line[n]))
    ensures Leading(line) == n
  {
    if n > 0 { LeadingIs(line[1..], n - 1); }
  }

  lemma {:induction false} LeadingBlank(line: string)
    ensures Leading(line) <= |line| && forall k :: 0 <= k < Leading(line) ==> Blank(line[k])
    ensures Leading(line) < |line| ==> !Blank(line[Leading(line)])
  {
    if line != "" && Blank(line[0]) {
      LeadingBlank(line[1..]);
      assert forall k :: 0 < k < |line| ==> line[k] == line[1..][k - 1];
    }
  }

  lemma {:induction false} RunThree(line: string, i: nat, c: char)
    ensures Run(line, i, c) >= 3 <==> i + 3 <= |line| && line[i] == c && line[i + 1] == c && line[i + 2] == c
  {
    assert Run(line, i, c) == if i < |line| && line[i] == c then 1 + Run(line, i + 1, c) else 0;
    assert Run(line, i + 1, c) == if i + 1 < |line| && line[i + 1] == c then 1 + Run(line, i + 2, c) else 0;
    assert Run(line, i + 2, c) == if i + 2 < |line| && line[i + 2] == c then 1 + Run(line, i + 3, c) else 0;
  }

  lemma {:induction false} FenceIff(line: string, c: char)
    ensures Fence(line) == Some(c) <==> FenceReads(line, c)
  {
    var i := Leading(line);
    LeadingBlank(line);
    RunThree(line, i, '`');
    RunThree(line, i, '~');
    if Fence(line) == Some(c) { assert LeadReads(line, i, c); }
    if FenceReads(line, c) {
      var lead :| LeadReads(line, lead, c);
      LeadingIs(line, lead);
    }
  }

  /** A block of code, from the line that opens it to the one that closes it, or to the end. */
  datatype Block = Block(open: nat, close: nat)

  ghost predicate BlockReads(lines: seq<string>, b: Block, c: char)
  {
    && b.open < b.close <= |lines| && FenceReads(lines[b.open], c)
    && (forall m :: b.open < m < b.close ==> !FenceReads(lines[m], c))
    && (b.close < |lines| ==> FenceReads(lines[b.close], c))
  }

  ghost predicate IsBlock(lines: seq<string>, b: Block) { exists c :: BlockReads(lines, b, c) }

  ghost predicate InBlock(bs: seq<Block>, k: nat) { exists i {:trigger At(bs, i, k)} :: 0 <= i < |bs| && At(bs, i, k) }

  predicate At(bs: seq<Block>, i: nat, k: nat)
    requires i < |bs|
  {
    bs[i].open <= k <= bs[i].close
  }

  ghost predicate HasFence(line: string) { exists c :: FenceReads(line, c) }

  /** The blocks of the text, in order; every fence belongs to one. */
  ghost predicate BlocksRead(lines: seq<string>, bs: seq<Block>)
  {
    && (forall i :: 0 <= i < |bs| ==> IsBlock(lines, bs[i]))
    && Ordered(bs)
    && (forall k {:trigger Belongs(lines, bs, k)} :: 0 <= k < |lines| ==> Belongs(lines, bs, k))
  }

  predicate Ordered(bs: seq<Block>) { forall i, j :: 0 <= i < j < |bs| ==> bs[i].close < bs[j].open }

  ghost predicate Belongs(lines: seq<string>, bs: seq<Block>, k: nat)
    requires k < |lines|
  {
    HasFence(lines[k]) ==> InBlock(bs, k)
  }

  /** The line with everything blanked but its newline. */
  predicate AllBlank(line: string, out: string)
  {
    |out| == |line| && forall k :: 0 <= k < |line| ==> out[k] == if line[k] == '\n' then '\n' else ' '
  }

  /** Exactly the lines of the blocks are blanked. */
  ghost predicate BlocksMasked(lines: seq<string>, out: seq<string>, bs: seq<Block>)
  {
    && BlocksRead(lines, bs) && |out| == |lines|
    && forall k {:trigger InBlock(bs, k)} :: 0 <= k < |lines| ==>
         if InBlock(bs, k) then AllBlank(lines[k], out[k]) else out[k] == lines[k]
  }

  /** The blocks so far; the last one reaches to the end while its fence is open. */
  ghost predicate Tracks(lines: seq<string>, bs: seq<Block>)
  {
    && BlocksRead(lines, bs) && |bs| == Opened(lines)
    && (forall k {:trigger Agrees(lines, bs, k)} :: 0 <= k < |lines| ==> Agrees(lines, bs, k))
    && EndsOpen(lines, bs)
  }

  ghost predicate Agrees(lines: seq<string>, bs: seq<Block>, k: nat)
    requires k < |lines|
  {
    Fenced(lines, k) <==> InBlock(bs, k)
  }

  ghost predicate EndsOpen(lines: seq<string>, bs: seq<Block>)
  {
    match OpenFence(lines)
    case None => forall i :: 0 <= i < |bs| ==> bs[i].close < |lines|
    case Some(c) => bs != [] && bs[|bs| - 1].close == |lines| && BlockReads(lines, bs[|bs| - 1], c)
  }

  lemma {:induction false} LongerBlock(init: seq<string>, last: string, b: Block, c: char)
    requires BlockReads(init, b, c) && b.close < |init|
    ensures BlockReads(init + [last], b, c)
  {
    assert forall m :: 0 <= m < |init| ==> (init + [last])[m] == init[m];
  }

  /** The blocks after one more line. */
  function NextBlocks(init: seq<string>, last: string, bs: seq<Block>): seq<Block>
    requires OpenFence(init).Some? ==> bs != []
  {
    match OpenFence(init)
    case None => if Fence(last).Some? then bs + [Block(|init|, |init| + 1)] else bs
    case Some(c) =>
      if Fence(last) == Some(c) then bs else bs[..|bs| - 1] + [Block(bs[|bs| - 1].open, |init| + 1)]
  }

  /** The block that is open behind the longer text, or was closed by its last line. */
  lemma {:induction false} LastBlock(init: seq<string>, last: string, bs: seq<Block>)
    requires EndsOpen(init, bs) && (OpenFence(init).Some? || Fence(last).Some?)
    ensures var (lines, next) := (init + [last], NextBlocks(init, last, bs));
      && next != [] && next[|next| - 1].open <= |init| <= next[|next| - 1].close
      && BlockReads(lines, next[|next| - 1],
                    if OpenFence(init).Some? then OpenFence(init).value else Fence(last).value)
  {
    var lines, next := init + [last], NextBlocks(init, last, bs);
    assert lines[|init|] == last && forall m :: 0 <= m < |init| ==> lines[m] == init[m];
    match OpenFence(init)
    case None => FenceIff(last, Fence(last).value);
    case Some(c) => FenceIff(last, c);
  }

  /** How far the blocks reach: to the end if a fence is open, and not so far otherwise. */
  ghost predicate Reach(init: seq<string>, bs: seq<Block>)
  {
    match OpenFence(init)
    case None => forall i :: 0 <= i < |bs| ==> bs[i].close < |init|
    case Some(c) =>
      && bs != [] && bs[|bs| - 1].open < bs[|bs| - 1].close == |init|
      && forall i :: 0 <= i < |bs| - 1 ==> bs[i].close < bs[|bs| - 1].open
  }

  lemma {:induction false} TracksReach(init: seq<string>, bs: seq<Block>)
    requires Tracks(init, bs)
    ensures Reach(init, bs)
  {
  }

  lemma {:induction false} NextReads(init: seq<string>, last: string, bs: seq<Block>, i: nat)
    requires EndsOpen(init, bs) && Reach(init, bs) && i < |NextBlocks(init, last, bs)|
    requires i < |bs| ==> IsBlock(init, bs[i])
    ensures IsBlock(init + [last], NextBlocks(init, last, bs)[i])
  {
    var next := NextBlocks(init, last, bs);
    if i == |next| - 1 && (OpenFence(init).Some? || Fence(last).Some?) {
      LastBlock(init, last, bs);
    } else {
      assert next[i] == bs[i] && bs[i].close < |init|;
      EarlierBlock(init, last, bs[i]);
    }
  }

  lemma {:induction false} EarlierBlock(init: seq<string>, last: string, b: Block)
    requires IsBlock(init, b) && b.close < |init|
    ensures IsBlock(init + [last], b)
  {
    var c :| BlockReads(init, b, c);
    LongerBlock(init, last, b, c);
  }

  /** Which lines lie in a block. */
  lemma {:induction false} NextIn(init: seq<string>, last: string, bs: seq<Block>, k: nat)
    requires Reach(init, bs) && k < |init|
    ensures InBlock(NextBlocks(init, last, bs), k) <==> InBlock(bs, k)
  {
    var next := NextBlocks(init, last, bs);
    assert forall i :: 0 <= i < |bs| ==> (At(bs, i, k) <==> At(next, i, k));
    if InBlock(next, k) {
      var i :| 0 <= i < |next| && At(next, i, k);
      assert i < |bs|;
    }
  }

  lemma {:induction false} LastIn(init: seq<string>, last: string, bs: seq<Block>)
    requires Reach(init, bs)
    ensures InBlock(NextBlocks(init, last, bs), |init|) <==> OpenFence(init).Some? || Fence(last).Some?
  {
    var next := NextBlocks(init, last, bs);
    if OpenFence(init).Some? || Fence(last).Some? { assert At(next, |next| - 1, |init|); }
  }

  lemma {:induction false} SameFenced(init: seq<string>, last: string, k: nat)
    requires k <= |init|
    ensures Fenced(init + [last], k) ==
      if k < |init| then Fenced(init, k) else OpenFence(init).Some? || Fence(last).Some?
  {
    assert (init + [last])[..k] == init[..k] && init[..|init|] == init;
  }

  lemma {:induction false} NextOrdered(init: seq<string>, last: string, bs: seq<Block>)
    requires Reach(init, bs) && Ordered(bs)
    ensures Ordered(NextBlocks(init, last, bs))
  {
  }

  lemma {:induction false} HasFenceIff(line: string)
    ensures Fence(line).Some? <==> HasFence(line)
  {
    if Fence(line).Some? { FenceIff(line, Fence(line).value); }
    if HasFence(line) {
      var c :| FenceReads(line, c);
      FenceIff(line, c);
    }
  }

  lemma {:induction false} NextBlocksRead(init: seq<string>, last: string, bs: seq<Block>)
    requires Tracks(init, bs)
    ensures BlocksRead(init + [last], NextBlocks(init, last, bs))
  {
    var lines, next := init + [last], NextBlocks(init, last, bs);
    TracksReach(init, bs);
    NextOrdered(init, last, bs);
    forall i | 0 <= i < |next| ensures IsBlock(lines, next[i]) {
      assert i < |bs| ==> IsBlock(init, bs[i]);
      NextReads(init, last, bs, i);
    }
    forall k | 0 <= k < |lines| ensures Belongs(lines, next, k) {
      assert k < |init| ==> Belongs(init, bs, k);
      NextBelongs(init, last, bs, k);
    }
  }

  lemma {:induction false} NextBelongs(init: seq<string>, last: string, bs: seq<Block>, k: nat)
    requires Reach(init, bs) && k <= |init| && (k < |init| ==> Belongs(init, bs, k))
    ensures Belongs(init + [last], NextBlocks(init, last, bs), k)
  {
    if k < |init| {
      assert (init + [last])[k] == init[k];
      NextIn(init, last, bs, k);
    } else {
      HasFenceIff(last);
      LastIn(init, last, bs);
    }
  }

  lemma {:induction false} NextAgrees(init: seq<string>, last: string, bs: seq<Block>, k: nat)
    requires Reach(init, bs) && k <= |init| && (k < |init| ==> Agrees(init, bs, k))
    ensures Agrees(init + [last], NextBlocks(init, last, bs), k)
  {
    SameFenced(init, last, k);
    if k < |init| { NextIn(init, last, bs, k); } else { LastIn(init, last, bs); }
  }

  lemma {:induction false} NextEnds(init: seq<string>, last: string, bs: seq<Block>)
    requires EndsOpen(init, bs) && Reach(init, bs) && |bs| == Opened(init)
    ensures EndsOpen(init + [last], NextBlocks(init, last, bs))
    ensures |NextBlocks(init, last, bs)| == Opened(init + [last])
  {
    assert (init + [last])[..|init + [last]| - 1] == init;
    if OpenFence(init).Some? || Fence(last).Some? { LastBlock(init, last, bs); }
  }

  lemma {:induction false} NextTracks(init: seq<string>, last: string, bs: seq<Block>)
    requires Tracks(init, bs)
    ensures Tracks(init + [last], NextBlocks(init, last, bs))
  {
    var lines, next := init + [last], NextBlocks(init, last, bs);
    TracksReach(init, bs);
    NextBlocksRead(init, last, bs);
    NextEnds(init, last, bs);
    forall k | 0 <= k < |lines| ensures Agrees(lines, next, k) {
      assert k < |init| ==> Agrees(init, bs, k);
      NextAgrees(init, last, bs, k);
    }
  }

  lemma {:induction false} SomeBlocks(lines: seq<string>) returns (bs: seq<Block>)
    ensures Tracks(lines, bs)
    decreases |lines|
  {
    bs := [];
    if lines != [] {
      var init, last := lines[..|lines| - 1], lines[|lines| - 1];
      assert lines == init + [last];
      bs := SomeBlocks(init);
      NextTracks(init, last, bs);
      bs := NextBlocks(init, last, bs);
    }
  }

  /** The lines of the blocks are blanked, and no others. */
  ghost predicate Blocked(lines: seq<string>, out: seq<string>, blocks: nat)
  {
    exists bs :: BlocksMasked(lines, out, bs) && |bs| == blocks
  }

  lemma {:induction false} MaskedBlocks(lines: seq<string>, out: seq<string>)
    requires AreMasked(lines, out)
    ensures Blocked(lines, out, Opened(lines))
  {
    var bs := SomeBlocks(lines);
    forall k | 0 <= k < |lines|
      ensures if InBlock(bs, k) then AllBlank(lines[k], out[k]) else out[k] == lines[k]
    {
      assert Agrees(lines, bs, k);
      assert out[k] == Masked(lines, k);
    }
    assert BlocksMasked(lines, out, bs);
  }

  /** The fence loop of mask_code; `blocks` counts the fences opened. */
  method MaskFences(lines: seq<string>) returns (out: seq<string>, blocks: nat)
    requires forall k :: 0 <= k < |lines| ==> IsLine(lines[k])
    ensures AreMasked(lines, out)
    ensures blocks == Opened(lines) && Blocked(lines, out, blocks)
  {
    out, blocks := [], 0;
    var fenceChar: Option<char> := None;
    for i := 0 to |lines|
      invariant |out| == i
      invariant fenceChar == OpenFence(lines[..i])
      invariant forall k :: 0 <= k < i ==> out[k] == Masked(lines, k)
      invariant blocks == Opened(lines[..i])
    {
      var line := lines[i];
      var m := Fence(line);
      assert lines[..i + 1][..i] == lines[..i];
      if fenceChar.None? && m.Some? {
        fenceChar, blocks := m, blocks + 1;
        out := out + [BlankLine(line)];
      } else if fenceChar.Some? {
        if m == fenceChar { fenceChar := None; }
        out := out + [BlankLine(line)];
      } else {
        out := out + [line];
      }
    }
    assert lines[..|lines|] == lines;
    MaskedBlocks(lines, out);
  }

  // ----- what masking keeps -----

  /** The same length, the same newlines, and nothing but blanks where the texts differ. */
  predicate SamePlaces(a: string, b: string)
  {
    && |a| == |b|
    && forall k :: 0 <= k < |a| ==> (a[k] == '\n' <==> b[k] == '\n') && (b[k] == a[k] || b[k] == ' ')
  }

  function Text(lines: seq<string>): string
  {
    if lines == [] then "" else Text(lines[..|lines| - 1]) + lines[|lines| - 1]
  }

  datatype Span = Span(start: nat, end: nat)

  /** A span of inline code: inside the text, and on one line. */
  predicate Inline(text: string, sp: Span)
  {
    sp.start <= sp.end <= |text| && forall k :: sp.start <= k < sp.end ==> text[k] != '\n'
  }

  /** Inline code is blanked on the joined text. */
  function BlankSpans(text: string, spans: seq<Span>): (r: string)
    requires forall k :: 0 <= k < |spans| ==> Inline(text, spans[k])
    ensures |r| == |text|
  {
    if spans == [] then text
    else
      var sp, before := spans[|spans| - 1], BlankSpans(text, spans[..|spans| - 1]);
      assert Inline(text, sp);
      before[..sp.start] + seq(sp.end - sp.start, k => ' ') + before[sp.end..]
  }

  ghost predicate InSpan(spans: seq<Span>, k: nat)
  {
    exists i {:trigger SpanAt(spans, i, k)} :: 0 <= i < |spans| && SpanAt(spans, i, k)
  }

  predicate SpanAt(spans: seq<Span>, i: nat, k: nat)
    requires i < |spans|
  {
    spans[i].start <= k < spans[i].end
  }

  /** Exactly the spans are blanked. */
  lemma {:induction false} SpansBlanked(text: string, spans: seq<Span>, k: nat)
    requires (forall i :: 0 <= i < |spans| ==> Inline(text, spans[i])) && k < |text|
    ensures BlankSpans(text, spans)[k] == if InSpan(spans, k) then ' ' else text[k]
    decreases |spans|
  {
    if spans != [] {
      var init, last := spans[..|spans| - 1], spans[|spans| - 1];
      SpansBlanked(text, init, k);
      assert forall i {:trigger SpanAt(init, i, k)} {:trigger SpanAt(spans, i, k)} ::
        0 <= i < |init| ==> (SpanAt(init, i, k) <==> SpanAt(spans, i, k));
      assert InSpan(spans, k) <==> InSpan(init, k) || SpanAt(spans, |init|, k);
    }
  }

  lemma {:induction false} SpansKeepPlaces(text: string, spans: seq<Span>)
    requires forall k :: 0 <= k < |spans| ==> Inline(text, spans[k])
    ensures SamePlaces(text, BlankSpans(text, spans))
    decreases |spans|
  {
    if spans != [] { SpansKeepPlaces(text, spans[..|spans| - 1]); }
  }

  function LineNumber(text: string, offset: nat): nat
    requires offset <= |text|
  {
    if offset == 0 then 1 else LineNumber(text, offset - 1) + (if text[offset - 1] == '\n' then 1 else 0)
  }

  lemma {:induction false} SameJoined(a: string, b: string, c: string, d: string)
    requires SamePlaces(a, b) && SamePlaces(c, d)
    ensures SamePlaces(a + c, b + d)
  {}

  predicate AreMasked(lines: seq<string>, out: seq<string>)
  {
    && |out| == |lines|
    && (forall k :: 0 <= k < |lines| ==> IsLine(lines[k]))
    && forall k :: 0 <= k < |lines| ==> out[k] == Masked(lines, k)
  }

  lemma {:induction false} MaskedFront(lines: seq<string>, out: seq<string>, n: nat)
    requires AreMasked(lines, out) && n <= |lines|
    ensures AreMasked(lines[..n], out[..n])
  {
    forall k | 0 <= k < n ensures out[..n][k] == Masked(lines[..n], k) {
      assert lines[..n][..k] == lines[..k];
    }
  }

  lemma {:induction false} MaskedText(lines: seq<string>, out: seq<string>)
    requires AreMasked(lines, out)
    ensures SamePlaces(Text(lines), Text(out))
    decreases |lines|
  {
    if lines != [] {
      var n := |lines| - 1;
      MaskedFront(lines, out, n);
      MaskedText(lines[..n], out[..n]);
      assert out[n] == Masked(lines, n) && SamePlaces(lines[n], out[n]);
      SameJoined(Text(lines[..n]), Text(out[..n]), lines[n], out[n]);
    }
  }

  lemma {:induction false} SameNumbers(a: string, b: string, offset: nat)
    requires SamePlaces(a, b) && offset <= |a|
    ensures LineNumber(a, offset) == LineNumber(b, offset)
    decreases offset
  {
    if offset > 0 { SameNumbers(a, b, offset - 1); }
  }

  /** After both masks an offset lies on the line it lay on, and what is not blank is untouched. */
  lemma {:induction false} MaskKeepsLineNumbers(lines: seq<string>, out: seq<string>, spans: seq<Span>, offset: nat)
    requires AreMasked(lines, out) && offset <= |Text(lines)|
    requires forall k :: 0 <= k < |spans| ==> Inline(Text(out), spans[k])
    ensures var masked := BlankSpans(Text(out), spans);
      SamePlaces(Text(lines), masked) && LineNumber(Text(lines), offset) == LineNumber(masked, offset)
  {
    MaskedText(lines, out);
    SpansKeepPlaces(Text(out), spans);
    SameNumbers(Text(lines), BlankSpans(Text(out), spans), offset);
  }
}
