/** The duplicate-key exception of `Resources.Add` is reachable: a node's
    reference is checked against Resources by the reference's own key, but
    what is added is keyed by the resolved resource's key. Two small
    hierarchies show both ways in. */
module Duplicates {
  import opened SpecIF
  import opened Readers
  import opened Closure

  /** In general: a resolved list that holds a resource whose key is
      already stored makes the loop throw. */
  lemma {:induction false} ResolvedDuplicateFails(ctx: Context, acc: Accumulators, rs: seq<Option<Resource>>, res: Resource)
    requires acc.Valid() && Some(res) in rs && res.OwnKey() in acc.Resources.Entries
    ensures AddResources(ctx, acc, rs).Failure?
    decreases |rs|
  {
    var prefix := rs[..|rs| - 1];
    if Some(res) in prefix {
      ResolvedDuplicateFails(ctx, acc, prefix, res);
    } else {
      assert rs == prefix + [rs[|rs| - 1]];
    }
  }

  /** A node whose reference key is not stored, but whose resolution holds a
      resource whose own key is, makes the walk throw. */
  lemma NodeDuplicateFails(ctx: Context, acc: Accumulators, n: Node, res: Resource)
    requires acc.Valid() && n.ResourceReference.Some? && n.ResourceReference.value !in acc.Resources.Entries
    requires ResolveReference(ctx, n.ResourceReference.value).Some?
    requires Some(res) in ResolveReference(ctx, n.ResourceReference.value).value
    requires res.OwnKey() in acc.Resources.Entries
    ensures NodeOwn(ctx, acc, n).Failure?
  {
    ResolvedDuplicateFails(ctx, acc, ResolveReference(ctx, n.ResourceReference.value).value, res);
  }

  const First: Resource := Resource("R", "1", Key("C", "1"))
  const Second: Resource := Resource("R", "2", Key("C", "1"))
  const RootKey: Key := Key("H", "1")

  /** A root without a reference whose two children reference `R` first
      with revision "1", then without a revision. */
  const Root: Node := Node("P", None, [Node("P", Some(Key("R", "1")), []), Node("P", Some(Key("R", "")), [])])

  const NoMetadata: MetadataReader := MetadataReader(k => None, k => None, k => None, k => None)

  /** A store holding revisions "1" and "2" of `R`; a lookup of `R` without a revision yields revision "1". */
  const Store: DataReader := DataReader(
    k => if k == RootKey then Some(Root) else None,
    (k: Key) => if k.ID == "R" && k.Revision != "2" then Some(First) else if k == Key("R", "2") then Some(Second) else None,
    id => if id == "R" then Some([Some(First), Some(Second)]) else None,
    k => [])

  /** Adding a one-element list of resolved resources is adding that resource. */
  lemma AddSingle(ctx: Context, acc: Accumulators, res: Resource)
    requires acc.Valid()
    ensures AddResources(ctx, acc, [Some(res)]) == AddResource(ctx, acc, res)
  {
    assert [Some(res)][..0] == [];
  }

  /** Walking two sibling leaves is the node step on the first, then on the second. */
  lemma TwoLeaves(ctx: Context, acc: Accumulators, ns: seq<Node>)
    requires acc.Valid() && |ns| == 2 && ns[0].Nodes == [] && ns[1].Nodes == []
    ensures NodeOwn(ctx, acc, ns[0]).Failure? ==> VisitAll(ctx, acc, ns) == NodeOwn(ctx, acc, ns[0])
    ensures NodeOwn(ctx, acc, ns[0]).Success? ==> VisitAll(ctx, acc, ns) == NodeOwn(ctx, NodeOwn(ctx, acc, ns[0]).value, ns[1])
  {
    assert ns[..1][..0] == [];
    assert ns[..2] == ns;
    assert ns[..2][..1] == ns[..1];
    Leaf(ctx, acc, ns[0]);
    assert VisitAll(ctx, acc, ns[..1]) == NodeOwn(ctx, acc, ns[0]);
    if NodeOwn(ctx, acc, ns[0]).Success? {
      Leaf(ctx, NodeOwn(ctx, acc, ns[0]).value, ns[1]);
    }
  }

  lemma Leaf(ctx: Context, acc: Accumulators, n: Node)
    requires acc.Valid() && n.Nodes == []
    ensures Visit(ctx, acc, n) == NodeOwn(ctx, acc, n)
  {
  }

  /** Without revisions: the reference ("R", "") is not a key of Resources,
      but it resolves to revision "1", which the first child already added. */
  lemma EmptyRevisionResolvesToPresentKey()
    ensures Export(Context(NoMetadata, Store, Flags(false, false, false)), RootKey) == Failure(DuplicateResourceKey(Key("R", "1")))
  {
    var ctx := Context(NoMetadata, Store, Flags(false, false, false));
    var empty := EmptyAccumulators();
    assert NodeOwn(ctx, empty, Root) == Success(empty);
    TwoLeaves(ctx, empty, Root.Nodes);
    AddSingle(ctx, empty, First);
    var a := AddResource(ctx, empty, First).value;
    assert NodeOwn(ctx, empty, Root.Nodes[0]) == Success(a);
    AddSingle(ctx, a, First);
    assert NodeOwn(ctx, a, Root.Nodes[1]) == Failure(Key("R", "1"));
  }

  /** With revisions: the first child adds every revision of `R`; the
      second child's reference is not a key of Resources, and its revision
      list overlaps what is already there. */
  lemma RevisionListOverlapsPresentKeys()
    ensures Export(Context(NoMetadata, Store, Flags(false, false, true)), RootKey) == Failure(DuplicateResourceKey(Key("R", "1")))
  {
    var ctx := Context(NoMetadata, Store, Flags(false, false, true));
    var empty := EmptyAccumulators();
    assert NodeOwn(ctx, empty, Root) == Success(empty);
    TwoLeaves(ctx, empty, Root.Nodes);
    FirstChildAddsRevisions(ctx);
    SecondChildOverlaps(ctx, NodeOwn(ctx, empty, Root.Nodes[0]).value);
  }

  lemma FirstChildAddsRevisions(ctx: Context)
    requires ctx.Data == Store && ctx.Flags.IncludeRevisions
    ensures NodeOwn(ctx, EmptyAccumulators(), Root.Nodes[0]).Success?
    ensures Key("R", "1") in NodeOwn(ctx, EmptyAccumulators(), Root.Nodes[0]).value.Resources.Entries
    ensures Key("R", "") !in NodeOwn(ctx, EmptyAccumulators(), Root.Nodes[0]).value.Resources.Entries
  {
    var empty := EmptyAccumulators();
    RevisionsAdded(ctx, empty);
    assert NodeOwn(ctx, empty, Root.Nodes[0]) == AddResources(ctx, empty, [Some(First), Some(Second)]);
  }

  lemma SecondChildOverlaps(ctx: Context, acc: Accumulators)
    requires ctx.Data == Store && ctx.Flags.IncludeRevisions
    requires acc.Valid() && Key("R", "1") in acc.Resources.Entries && Key("R", "") !in acc.Resources.Entries
    ensures NodeOwn(ctx, acc, Root.Nodes[1]) == Failure(Key("R", "1"))
  {
    RevisionsOverlap(ctx, acc);
  }

  lemma RevisionsAdded(ctx: Context, acc: Accumulators)
    requires acc.Valid() && acc.Resources.Entries == map[]
    ensures AddResources(ctx, acc, [Some(First), Some(Second)]).Success?
    ensures Key("R", "1") in AddResources(ctx, acc, [Some(First), Some(Second)]).value.Resources.Entries
    ensures Key("R", "") !in AddResources(ctx, acc, [Some(First), Some(Second)]).value.Resources.Entries
  {
    var revisions := [Some(First), Some(Second)];
    assert revisions[..1] == [Some(First)];
    AddSingle(ctx, acc, First);
    var one := AddResource(ctx, acc, First).value;
    assert AddResources(ctx, acc, revisions) == AddResource(ctx, one, Second);
  }

  lemma RevisionsOverlap(ctx: Context, acc: Accumulators)
    requires acc.Valid() && Key("R", "1") in acc.Resources.Entries
    ensures AddResources(ctx, acc, [Some(First), Some(Second)]) == Failure(Key("R", "1"))
  {
    var revisions := [Some(First), Some(Second)];
    assert revisions[..1] == [Some(First)];
    AddSingle(ctx, acc, First);
  }
}
