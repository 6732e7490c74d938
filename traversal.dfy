/** Facts about the hierarchy walk: an exception stops it for good, it is a
    fold of the per-node step over the nodes in depth-first order, and what
    it adds comes only from the nodes' references. */
module Traversal {
  import opened SpecIF
  import opened Dicts
  import opened Closure

  /** Once adding a prefix of the resolved resources fails, adding them all fails the same way. */
  lemma {:induction false} AddResourcesFailurePersists(ctx: Context, acc: Accumulators, rs: seq<Option<Resource>>, j: nat, k: Key)
    requires acc.Valid() && j <= |rs|
    requires AddResources(ctx, acc, rs[..j]) == Failure(k)
    ensures AddResources(ctx, acc, rs) == Failure(k)
    decreases |rs|
  {
    if j < |rs| {
      assert rs[..|rs| - 1][..j] == rs[..j];
      AddResourcesFailurePersists(ctx, acc, rs[..|rs| - 1], j, k);
    } else {
      assert rs[..j] == rs;
    }
  }

  /** Once visiting a prefix of the children fails, visiting them all fails the same way. */
  lemma {:induction false} VisitAllFailurePersists(ctx: Context, acc: Accumulators, ns: seq<Node>, j: nat, k: Key)
    requires acc.Valid() && j <= |ns|
    requires VisitAll(ctx, acc, ns[..j]) == Failure(k)
    ensures VisitAll(ctx, acc, ns) == Failure(k)
    decreases |ns|
  {
    if j < |ns| {
      assert ns[..|ns| - 1][..j] == ns[..j];
      VisitAllFailurePersists(ctx, acc, ns[..|ns| - 1], j, k);
    } else {
      assert ns[..j] == ns;
    }
  }

  /** One more child walked: the walk of the first i + 1 children continues from that of the first i. */
  lemma VisitAllStep(ctx: Context, acc: Accumulators, ns: seq<Node>, i: nat, before: Accumulators)
    requires acc.Valid() && i < |ns| && VisitAll(ctx, acc, ns[..i]) == Success(before)
    ensures VisitAll(ctx, acc, ns[..i + 1]) == Visit(ctx, before, ns[i])
  {
    assert ns[..i + 1][..i] == ns[..i];
  }

  // ---------------------------------------------------------------------
  // The walk as a fold over the nodes in depth-first order

  /** The nodes of a tree in the order the walk reaches them: the node, then each child subtree in order. */
  function Preorder(n: Node): seq<Node>
    decreases n
  {
    [n] + PreorderAll(n.Nodes)
  }

  function PreorderAll(ns: seq<Node>): seq<Node>
    decreases ns
  {
    if ns == [] then [] else PreorderAll(ns[..|ns| - 1]) + Preorder(ns[|ns| - 1])
  }

  /** The node's own step applied to each node of a list in order, stopping at the first failure. */
  function Steps(ctx: Context, acc: Accumulators, ns: seq<Node>): (r: Result<Accumulators, Key>)
    requires acc.Valid()
    ensures r.Success? ==> r.value.Valid()
    decreases |ns|
  {
    if ns == [] then Success(acc)
    else match Steps(ctx, acc, ns[..|ns| - 1])
      case Failure(k) => Failure(k)
      case Success(before) => NodeOwn(ctx, before, ns[|ns| - 1])
  }

  /** Steps over a concatenation: first over the left part, then, unless that failed, over the right part. */
  lemma {:induction false} StepsAppend(ctx: Context, acc: Accumulators, xs: seq<Node>, ys: seq<Node>)
    requires acc.Valid()
    ensures Steps(ctx, acc, xs + ys) ==
            match Steps(ctx, acc, xs)
            case Failure(k) => Failure(k)
            case Success(a) => Steps(ctx, a, ys)
    decreases |ys|
  {
    if ys == [] {
      assert xs + ys == xs;
    } else {
      var zs := xs + ys;
      assert zs[..|zs| - 1] == xs + ys[..|ys| - 1];
      assert zs[|zs| - 1] == ys[|ys| - 1];
      StepsAppend(ctx, acc, xs, ys[..|ys| - 1]);
    }
  }

  /** Every node of the tree is processed exactly once, in depth-first order:
      the recursive walk is the node step folded over `Preorder(n)`. */
  lemma {:induction false} VisitIsPreorderFold(ctx: Context, acc: Accumulators, n: Node)
    requires acc.Valid()
    ensures Visit(ctx, acc, n) == Steps(ctx, acc, Preorder(n))
    decreases n
  {
    StepsAppend(ctx, acc, [n], PreorderAll(n.Nodes));
    assert [n][..0] == [];
    match NodeOwn(ctx, acc, n)
    case Failure(k) =>
    case Success(a) => VisitAllIsPreorderFold(ctx, a, n.Nodes);
  }

  lemma {:induction false} VisitAllIsPreorderFold(ctx: Context, acc: Accumulators, ns: seq<Node>)
    requires acc.Valid()
    ensures VisitAll(ctx, acc, ns) == Steps(ctx, acc, PreorderAll(ns))
    decreases ns
  {
    if ns != [] {
      var prefix, last := ns[..|ns| - 1], ns[|ns| - 1];
      StepsAppend(ctx, acc, PreorderAll(prefix), Preorder(last));
      VisitAllIsPreorderFold(ctx, acc, prefix);
      match VisitAll(ctx, acc, prefix)
      case Failure(k) =>
      case Success(a) => VisitIsPreorderFold(ctx, a, last);
    }
  }

  /** A node without a reference, or whose reference key is already a key of
      Resources, adds nothing itself, and its children are still walked. */
  lemma SkippedNodeStillRecurses(ctx: Context, acc: Accumulators, n: Node)
    requires acc.Valid()
    requires n.ResourceReference.None? || n.ResourceReference.value in acc.Resources.Entries
    ensures Visit(ctx, acc, n) == VisitAll(ctx, acc, n.Nodes)
  {
  }
}

