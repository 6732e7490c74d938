/** With revisions included, a node's reference is expanded to every
    revision of its ID. When the data store lists under each ID only
    resources that carry that ID, the export holds every listed revision
    of every referenced ID, even for a node whose reference key was
    already stored by an earlier node. */
module RevisionExpansion {
  import opened SpecIF
  import opened Dicts
  import opened Readers
  import opened Closure
  import opened Traversal
  import opened WalkProperties
  import opened PackageProperties
  import opened Duplicates

  /** The store hypothesis: every revision listed for an ID carries that ID. */
  ghost predicate RevisionsCarryID(data: DataReader)
  {
    forall id: string, o: Option<Resource> ::
      data.GetAllResourceRevisions(id).Some? && o in data.GetAllResourceRevisions(id).value && o.Some? ==>
        o.value.ID == id
  }

  /** Every listed revision of `id` is stored under its own key. */
  ghost predicate RevisionListStored(data: DataReader, acc: Accumulators, id: string)
  {
    data.GetAllResourceRevisions(id).Some? ==>
      forall o :: o in data.GetAllResourceRevisions(id).value && o.Some? ==>
        o.value.OwnKey() in acc.Resources.Entries && acc.Resources.Entries[o.value.OwnKey()] == o.value
  }

  /** The walk invariant: the revision list of every stored resource's ID is stored in full. */
  ghost predicate RevisionsComplete(data: DataReader, acc: Accumulators)
  {
    forall k :: k in acc.Resources.Entries ==> RevisionListStored(data, acc, acc.Resources.Entries[k].ID)
  }

  lemma ListStaysStored(data: DataReader, a: Accumulators, b: Accumulators, id: string)
    requires Grows(a.Resources, b.Resources) && RevisionListStored(data, a, id)
    ensures RevisionListStored(data, b, id)
  {
  }

  /** One node's step keeps the invariant. */
  lemma NodeKeepsRevisionsComplete(ctx: Context, acc: Accumulators, n: Node)
    requires acc.Valid() && ctx.Flags.IncludeRevisions
    requires RevisionsCarryID(ctx.Data) && RevisionsComplete(ctx.Data, acc)
    ensures NodeOwn(ctx, acc, n).Success? ==> RevisionsComplete(ctx.Data, NodeOwn(ctx, acc, n).value)
  {
    if n.ResourceReference.Some? && n.ResourceReference.value !in acc.Resources.Entries
      && ResolveReference(ctx, n.ResourceReference.value).Some?
    {
      var ref := n.ResourceReference.value;
      var rs := ResolveReference(ctx, ref).value;
      ResourcesGrow(ctx, acc, rs);
      if AddResources(ctx, acc, rs).Success? {
        var r := AddResources(ctx, acc, rs).value;
        assert RevisionListStored(ctx.Data, r, ref.ID);
        forall k | k in r.Resources.Entries
          ensures RevisionListStored(ctx.Data, r, r.Resources.Entries[k].ID)
        {
          if k in acc.Resources.Entries {
            ListStaysStored(ctx.Data, acc, r, acc.Resources.Entries[k].ID);
          } else {
            assert Some(r.Resources.Entries[k]) in rs;
          }
        }
      }
    }
  }

  /** With revisions included, a covered node's reference has its whole
      revision list stored. */
  lemma CoveredNodeExpanded(ctx: Context, acc: Accumulators, n: Node)
    requires acc.Valid() && ctx.Flags.IncludeRevisions && RevisionsComplete(ctx.Data, acc)
    requires n.ResourceReference.Some? && NodeCovered(ctx, acc, n)
    ensures RevisionListStored(ctx.Data, acc, n.ResourceReference.value.ID)
  {
    var ref := n.ResourceReference.value;
    if ref in acc.Resources.Entries {
      assert acc.Resources.Entries[ref].OwnKey() == ref;
    }
  }

  /** The invariant over the nodes in depth-first order. */
  lemma {:induction false} StepsKeepRevisionsComplete(ctx: Context, acc: Accumulators, ns: seq<Node>)
    requires acc.Valid() && ctx.Flags.IncludeRevisions
    requires RevisionsCarryID(ctx.Data) && RevisionsComplete(ctx.Data, acc)
    ensures Steps(ctx, acc, ns).Success? ==> RevisionsComplete(ctx.Data, Steps(ctx, acc, ns).value)
    decreases |ns|
  {
    if ns != [] {
      StepsKeepRevisionsComplete(ctx, acc, ns[..|ns| - 1]);
      match Steps(ctx, acc, ns[..|ns| - 1])
      case Failure(_) =>
      case Success(before) =>
        NodeKeepsRevisionsComplete(ctx, before, ns[|ns| - 1]);
    }
  }

  /** With revisions included and a store that lists under each ID only
      resources of that ID, a successful export holds every listed revision
      of every ID that a node of the tree references. */
  lemma ExportExpandsRevisions(ctx: Context, hierarchyKey: Key)
    requires RevisionsCarryID(ctx.Data)
    ensures var r := Export(ctx, hierarchyKey);
            r.Success? && ctx.Flags.IncludeRevisions ==>
              forall n, o ::
                (&& n in Preorder(ctx.Data.GetHierarchyByKey(hierarchyKey).value) && n.ResourceReference.Some?
                 && ctx.Data.GetAllResourceRevisions(n.ResourceReference.value.ID).Some?
                 && o in ctx.Data.GetAllResourceRevisions(n.ResourceReference.value.ID).value && o.Some?)
                ==> o.value in r.value.Resources
  {
    if Export(ctx, hierarchyKey).Success? && ctx.Flags.IncludeRevisions {
      var root, acc := ExportedWalk(ctx, hierarchyKey);
      var p := Assemble(root, acc);
      StepsGrow(ctx, EmptyAccumulators(), Preorder(root));
      StepsKeepRevisionsComplete(ctx, EmptyAccumulators(), Preorder(root));
      forall n, o | n in Preorder(root) && n.ResourceReference.Some? &&
          ctx.Data.GetAllResourceRevisions(n.ResourceReference.value.ID).Some? &&
          o in ctx.Data.GetAllResourceRevisions(n.ResourceReference.value.ID).value && o.Some?
        ensures o.value in p.Resources
      {
        CoveredNodeExpanded(ctx, acc, n);
      }
    }
  }

  /** Without the store hypothesis the expansion can miss revisions: a
      listed revision that carries another ID is stored, and a later node
      whose reference key is that revision's own key then skips its own list. */
  const Stray: Resource := Resource("B", "1", Key("C", ""))
  const Own: Resource := Resource("B", "2", Key("C", ""))
  const MixedRootKey: Key := Key("H", "")

  /** A root whose two children reference ("A", "1") and then ("B", "1"). */
  const MixedRoot: Node := Node("P", None, [Node("P", Some(Key("A", "1")), []), Node("P", Some(Key("B", "1")), [])])

  /** A store that lists revision "1" of `B` under the ID `A` as well. */
  const MixedStore: DataReader := DataReader(
    k => if k == MixedRootKey then Some(MixedRoot) else None,
    k => None,
    id => if id == "A" then Some([Some(Stray)]) else if id == "B" then Some([Some(Stray), Some(Own)]) else None,
    k => [])

  lemma StrayRevisionHidesList()
    ensures !RevisionsCarryID(MixedStore)
    ensures var r := Export(Context(NoMetadata, MixedStore, Flags(false, false, true)), MixedRootKey);
            r.Success? && Own !in r.value.Resources
  {
    StoreMixesIDs();
    var ctx := Context(NoMetadata, MixedStore, Flags(false, false, true));
    var a := StrayWalk(ctx);
    StrayPackage(a);
  }

  lemma StoreMixesIDs()
    ensures !RevisionsCarryID(MixedStore)
  {
    assert Some(Stray) in MixedStore.GetAllResourceRevisions("A").value;
  }

  lemma StrayPackage(a: Accumulators)
    requires a.Valid() && a.Resources.Order == [Stray.OwnKey()] && a.Resources.Entries == map[Stray.OwnKey() := Stray]
    ensures Own !in Assemble(MixedRoot, a).Resources
  {
    assert a.Resources.Values() == [Stray];
  }

  /** The first child stores `Stray`; the second child's key is then present, so it adds nothing. */
  lemma StrayWalk(ctx: Context) returns (a: Accumulators)
    requires ctx == Context(NoMetadata, MixedStore, Flags(false, false, true))
    ensures a.Valid() && Visit(ctx, EmptyAccumulators(), MixedRoot) == Success(a)
    ensures a.Resources.Order == [Stray.OwnKey()] && a.Resources.Entries == map[Stray.OwnKey() := Stray]
  {
    var empty := EmptyAccumulators();
    assert NodeOwn(ctx, empty, MixedRoot) == Success(empty);
    TwoLeaves(ctx, empty, MixedRoot.Nodes);
    AddSingle(ctx, empty, Stray);
    a := AddResource(ctx, empty, Stray).value;
    assert NodeOwn(ctx, empty, MixedRoot.Nodes[0]) == Success(a);
    assert NodeOwn(ctx, a, MixedRoot.Nodes[1]) == Success(a);
  }
}
