/**
 tools/bridge_fqn_map.py: the explicit-stack walk over a sharded state dict finds exactly the
 tensor and object keys that occur in it, and the declared names are their filtered union.
 */
module TreeWalk {
  /** What stands where a container does not: its key, and which of the two type lists it matches. */
  datatype Leaf = Leaf(key: string, tensor: bool, sharded: bool)

  /** A dict is walked by its values, a list or a tuple by its items. */
  datatype Obj = Dict(children: seq<Obj>) | Items(children: seq<Obj>) | One(leaf: Leaf)

  /** The leaf occurs somewhere inside; no order of children is involved. */
  predicate Occurs(l: Leaf, o: Obj)
  {
    if o.One? then o.leaf == l else exists c :: c in o.children && Occurs(l, c)
  }

  ghost predicate TensorKey(key: string, o: Obj)
  {
    exists l :: Occurs(l, o) && l.tensor && l.key == key
  }

  /** A leaf that matches both lists counts as a tensor. */
  ghost predicate ObjectKey(key: string, o: Obj)
  {
    exists l :: Occurs(l, o) && l.sharded && !l.tensor && l.key == key
  }

  predicate OnStack(l: Leaf, stack: seq<Obj>)
  {
    exists o :: o in stack && Occurs(l, o)
  }

  function Size(objs: seq<Obj>): nat
  {
    if objs == [] then 0
    else
      var last := objs[|objs| - 1];
      Size(objs[..|objs| - 1]) + 1 + (if last.One? then 0 else Size(last.children))
  }

  lemma {:induction false} SizeAppend(a: seq<Obj>, b: seq<Obj>)
    ensures Size(a + b) == Size(a) + Size(b)
    decreases |b|
  {
    if b == [] {
      assert a + b == a;
    } else {
      SizeAppend(a, b[..|b| - 1]);
      assert (a + b)[..|a + b| - 1] == a + b[..|b| - 1];
    }
  }

  /** Replacing a container on the stack by its children keeps the leaves. */
  lemma {:induction false} Unpacked(l: Leaf, rest: seq<Obj>, cur: Obj)
    ensures OnStack(l, rest + [cur]) <==>
            if cur.One? then OnStack(l, rest) || cur.leaf == l else OnStack(l, rest + cur.children)
  {
    assert OnStack(l, rest + [cur]) <==> OnStack(l, rest) || Occurs(l, cur) by {
      assert forall o :: o in rest + [cur] <==> o in rest || o == cur;
    }
    if !cur.One? {
      assert forall o :: o in rest + cur.children <==> o in rest || o in cur.children;
    }
  }

  method CollectKeys(obj: Obj) returns (tensors: set<string>, objects: set<string>)
    ensures forall k :: k in tensors <==> TensorKey(k, obj)
    ensures forall k :: k in objects <==> ObjectKey(k, obj)
  {
    tensors, objects := {}, {};
    var stack := [obj];
    ghost var met: iset<Leaf> := iset{};
    while stack != []
      invariant forall l :: Occurs(l, obj) <==> l in met || OnStack(l, stack)
      invariant forall k :: k in tensors <==> exists l :: l in met && l.tensor && l.key == k
      invariant forall k :: k in objects <==> exists l :: l in met && l.sharded && !l.tensor && l.key == k
      decreases Size(stack)
    {
      var cur := stack[|stack| - 1];
      var rest := stack[..|stack| - 1];
      assert stack == rest + [cur];
      forall l { Unpacked(l, rest, cur); }
      if cur.One? {
        met := met + iset{cur.leaf};
        if cur.leaf.tensor { tensors := tensors + {cur.leaf.key}; }
        else if cur.leaf.sharded { objects := objects + {cur.leaf.key}; }
        stack := rest;
      } else {
        SizeAppend(rest, cur.children);
        stack := rest + cur.children;
      }
    }
  }

  const EXTRA_STATE: string := "_extra_state"

  predicate Contains(s: string, part: string)
  {
    exists i :: 0 <= i <= |s| && StandsAt(s, i, part)
  }

  predicate StandsAt(s: string, i: nat, part: string)
  {
    i + |part| <= |s| && s[i..i + |part|] == part
  }

  /** The declared names and the number of declared objects over all chunks of a model. */
  method BuildMap(chunks: seq<Obj>) returns (declared: set<string>, declaredObjects: nat)
    ensures forall k :: k in declared <==>
              !Contains(k, EXTRA_STATE) && exists c :: c in chunks && TensorKey(k, c)
    ensures exists objects: set<string> ::
              && declaredObjects == |objects|
              && forall k :: k in objects <==> exists c :: c in chunks && ObjectKey(k, c)
  {
    var tensors, objects := {}, {};
    for i := 0 to |chunks|
      invariant forall k :: k in tensors <==> exists c :: c in chunks[..i] && TensorKey(k, c)
      invariant forall k :: k in objects <==> exists c :: c in chunks[..i] && ObjectKey(k, c)
    {
      var t, o := CollectKeys(chunks[i]);
      tensors, objects := tensors + t, objects + o;
      assert forall c :: c in chunks[..i + 1] <==> c in chunks[..i] || c == chunks[i];
    }
    assert chunks[..|chunks|] == chunks;
    return set k | k in tensors && !Contains(k, EXTRA_STATE), |objects|;
  }

  /** Reordering what a container holds, at any depth, is invisible. */
  predicate Reordered(a: Obj, b: Obj)
    decreases a, 1
  {
    if a.One? || b.One? then a == b
    else
      && a.Dict? == b.Dict?
      && (forall x :: x in a.children ==> FoundIn(x, b))
      && (forall y :: y in b.children ==> FoundFrom(a, y))
  }

  predicate FoundIn(x: Obj, b: Obj)
    requires !b.One?
    decreases x, 2
  {
    exists y :: y in b.children && Reordered(x, y)
  }

  predicate FoundFrom(a: Obj, y: Obj)
    requires !a.One?
    decreases a, 0
  {
    exists x :: x in a.children && Reordered(x, y)
  }

  lemma {:induction false} OrderIsInvisible(a: Obj, b: Obj, l: Leaf)
    requires Reordered(a, b)
    ensures Occurs(l, a) <==> Occurs(l, b)
    decreases a
  {
    if !a.One? && Occurs(l, a) {
      var x :| x in a.children && Occurs(l, x);
      assert FoundIn(x, b);
      var y :| y in b.children && Reordered(x, y);
      OrderIsInvisible(x, y, l);
    } else if !a.One? && Occurs(l, b) {
      var y :| y in b.children && Occurs(l, y);
      assert FoundFrom(a, y);
      var x :| x in a.children && Reordered(x, y);
      OrderIsInvisible(x, y, l);
    }
  }

  lemma {:induction false} SameKeys(a: Obj, b: Obj, key: string)
    requires Reordered(a, b)
    ensures (TensorKey(key, a) <==> TensorKey(key, b)) && (ObjectKey(key, a) <==> ObjectKey(key, b))
  {
    forall l ensures Occurs(l, a) <==> Occurs(l, b) {
      OrderIsInvisible(a, b, l);
    }
  }
}
