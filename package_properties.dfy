/** What an exported package promises, stated on the package itself and
    proved from the walk's invariants: no two resources or statements share
    a key, flags switched off leave their lists empty, every node reference
    is covered and nothing unreferenced is exported, statements and the
    metadata closure are complete, and no property class keeps an empty
    value list. */
module PackageProperties {
  import opened SpecIF
  import opened Dicts
  import opened Readers
  import opened Closure
  import opened Traversal
  import opened MetadataClosure
  import opened WalkProperties
  import opened InstanceClosure

  // ---------------------------------------------------------------------
  // The package's own closure

  ghost function ResourceKeys(rs: seq<Resource>): set<Key>
  {
    set r | r in rs :: r.OwnKey()
  }

  ghost function StatementKeys(ss: seq<Statement>): set<Key>
  {
    set s | s in ss :: s.OwnKey()
  }

  /** Every resource's and statement's class, if the reader resolves it, is in the package. */
  ghost predicate InstancesHaveClasses(meta: MetadataReader, p: Package)
  {
    && (forall r :: r in p.Resources && meta.GetResourceClassByKey(ResourceClassKey(meta, r.Class)).Some?
          ==> meta.GetResourceClassByKey(ResourceClassKey(meta, r.Class)).value in p.ResourceClasses)
    && (forall s :: s in p.Statements && meta.GetStatementClassByKey(s.Class).Some?
          ==> meta.GetStatementClassByKey(s.Class).value in p.StatementClasses)
  }

  /** Every property class a class names, if the reader resolves it, is in the package (normalised). */
  ghost predicate ClassesHaveProperties(meta: MetadataReader, p: Package)
  {
    && (forall rc, pk :: rc in p.ResourceClasses && pk in rc.PropertyClasses && meta.GetPropertyClassByKey(pk).Some?
          ==> NormalizeValues(meta.GetPropertyClassByKey(pk).value) in p.PropertyClasses)
    && (forall sc, pk :: sc in p.StatementClasses && pk in Listed(sc.PropertyClasses) && meta.GetPropertyClassByKey(pk).Some?
          ==> NormalizeValues(meta.GetPropertyClassByKey(pk).value) in p.PropertyClasses)
  }

  /** Every subject and object class of a statement class, if the reader resolves it, is in the package. */
  ghost predicate StatementClassesHaveEndpoints(meta: MetadataReader, p: Package)
  {
    forall sc, ck :: sc in p.StatementClasses && ck in Endpoints(sc) && meta.GetResourceClassByKey(ResourceClassKey(meta, ck)).Some?
      ==> meta.GetResourceClassByKey(ResourceClassKey(meta, ck)).value in p.ResourceClasses
  }

  /** Every property class's data type, if the reader resolves it, is in the package. */
  ghost predicate PropertyClassesHaveTypes(meta: MetadataReader, p: Package)
  {
    forall pc :: pc in p.PropertyClasses && meta.GetDataTypeByKey(pc.DataType).Some?
      ==> meta.GetDataTypeByKey(pc.DataType).value in p.DataTypes
  }

  ghost predicate PackageClosed(meta: MetadataReader, p: Package)
  {
    && InstancesHaveClasses(meta, p)
    && ClassesHaveProperties(meta, p)
    && StatementClassesHaveEndpoints(meta, p)
    && PropertyClassesHaveTypes(meta, p)
  }

  // ---------------------------------------------------------------------
  // From the dictionaries to the package's lists

  lemma NormalizedMember(pcs: seq<PropertyClass>, pc: PropertyClass)
    requires pc in pcs
    ensures NormalizeValues(pc) in NormalizeAll(pcs)
  {
    var i :| 0 <= i < |pcs| && pcs[i] == pc;
    assert NormalizeAll(pcs)[i] == NormalizeValues(pc);
  }

  lemma NormalizedSource(pcs: seq<PropertyClass>, q: PropertyClass) returns (pc: PropertyClass)
    requires q in NormalizeAll(pcs)
    ensures pc in pcs && q == NormalizeValues(pc)
  {
    var i :| 0 <= i < |pcs| && NormalizeAll(pcs)[i] == q;
    pc := pcs[i];
  }

  /** A covered property class is in the package's (normalised) list. */
  lemma CoveredPropertyListed(meta: MetadataReader, acc: Accumulators, pk: Key)
    requires acc.Valid() && PropertiesSound(meta, acc) && PropertyCovered(meta, acc, pk)
    requires meta.GetPropertyClassByKey(pk).Some?
    ensures NormalizeValues(meta.GetPropertyClassByKey(pk).value) in NormalizeAll(acc.PropertyClasses.Values())
  {
    NormalizedMember(acc.PropertyClasses.Values(), acc.PropertyClasses.Entries[pk]);
  }

  lemma CoveredResourceClassListed(meta: MetadataReader, acc: Accumulators, ck: Key)
    requires acc.Valid() && ClassesSound(meta, acc) && ResourceClassCovered(meta, acc, ck)
    requires meta.GetResourceClassByKey(ResourceClassKey(meta, ck)).Some?
    ensures meta.GetResourceClassByKey(ResourceClassKey(meta, ck)).value in acc.ResourceClasses.Values()
  {
  }

  lemma AssembledInstancesHaveClasses(meta: MetadataReader, root: Node, acc: Accumulators)
    requires acc.Valid() && Closed(meta, acc)
    ensures InstancesHaveClasses(meta, Assemble(root, acc))
  {
    var p := Assemble(root, acc);
    forall r | r in p.Resources && meta.GetResourceClassByKey(ResourceClassKey(meta, r.Class)).Some?
      ensures meta.GetResourceClassByKey(ResourceClassKey(meta, r.Class)).value in p.ResourceClasses
    {
      var k := ValueStored(acc.Resources, r);
      CoveredResourceClassListed(meta, acc, r.Class);
    }
    forall s | s in p.Statements && meta.GetStatementClassByKey(s.Class).Some?
      ensures meta.GetStatementClassByKey(s.Class).value in p.StatementClasses
    {
      var k := ValueStored(acc.Statements, s);
    }
  }

  lemma AssembledClassesHaveProperties(meta: MetadataReader, root: Node, acc: Accumulators)
    requires acc.Valid() && Closed(meta, acc)
    ensures ClassesHaveProperties(meta, Assemble(root, acc))
  {
    var p := Assemble(root, acc);
    forall rc, pk | rc in p.ResourceClasses && pk in rc.PropertyClasses && meta.GetPropertyClassByKey(pk).Some?
      ensures NormalizeValues(meta.GetPropertyClassByKey(pk).value) in p.PropertyClasses
    {
      var k := ValueStored(acc.ResourceClasses, rc);
      CoveredPropertyListed(meta, acc, pk);
    }
    forall sc, pk | sc in p.StatementClasses && pk in Listed(sc.PropertyClasses) && meta.GetPropertyClassByKey(pk).Some?
      ensures NormalizeValues(meta.GetPropertyClassByKey(pk).value) in p.PropertyClasses
    {
      var k := ValueStored(acc.StatementClasses, sc);
      CoveredPropertyListed(meta, acc, pk);
    }
  }

  lemma AssembledStatementClassesHaveEndpoints(meta: MetadataReader, root: Node, acc: Accumulators)
    requires acc.Valid() && Closed(meta, acc)
    ensures StatementClassesHaveEndpoints(meta, Assemble(root, acc))
  {
    var p := Assemble(root, acc);
    forall sc, ck | sc in p.StatementClasses && ck in Endpoints(sc) && meta.GetResourceClassByKey(ResourceClassKey(meta, ck)).Some?
      ensures meta.GetResourceClassByKey(ResourceClassKey(meta, ck)).value in p.ResourceClasses
    {
      var k := ValueStored(acc.StatementClasses, sc);
      CoveredResourceClassListed(meta, acc, ck);
    }
  }

  lemma AssembledPropertyClassesHaveTypes(meta: MetadataReader, root: Node, acc: Accumulators)
    requires acc.Valid() && Closed(meta, acc)
    ensures PropertyClassesHaveTypes(meta, Assemble(root, acc))
  {
    var p := Assemble(root, acc);
    forall q | q in p.PropertyClasses && meta.GetDataTypeByKey(q.DataType).Some?
      ensures meta.GetDataTypeByKey(q.DataType).value in p.DataTypes
    {
      var pc := NormalizedSource(acc.PropertyClasses.Values(), q);
      var k := ValueStored(acc.PropertyClasses, pc);
      assert DataTypeCovered(meta, acc, acc.PropertyClasses.Entries[k]);
    }
  }

  /** The package assembled from closed dictionaries is closed. */
  lemma AssembledClosed(meta: MetadataReader, root: Node, acc: Accumulators)
    requires acc.Valid() && Closed(meta, acc)
    ensures PackageClosed(meta, Assemble(root, acc))
  {
    AssembledInstancesHaveClasses(meta, root, acc);
    AssembledClassesHaveProperties(meta, root, acc);
    AssembledStatementClassesHaveEndpoints(meta, root, acc);
    AssembledPropertyClassesHaveTypes(meta, root, acc);
  }

  // ---------------------------------------------------------------------
  // The export

  /** A node's reference is exported: a resource with the reference's key
      is in the package, or every resource the reference resolves to is. */
  ghost predicate ReferenceExported(ctx: Context, p: Package, n: Node)
  {
    match n.ResourceReference
    case None => true
    case Some(ref) =>
      ref in ResourceKeys(p.Resources) ||
      match ResolveReference(ctx, ref)
      case None => true
      case Some(rs) => forall o :: o in rs && o.Some? ==> o.value in p.Resources
  }

  /** The walk of a successful export is the fold over the tree's nodes from empty dictionaries. */
  lemma ExportedWalk(ctx: Context, hierarchyKey: Key) returns (root: Node, acc: Accumulators)
    requires Export(ctx, hierarchyKey).Success?
    ensures ctx.Data.GetHierarchyByKey(hierarchyKey) == Some(root)
    ensures Steps(ctx, EmptyAccumulators(), Preorder(root)) == Success(acc)
    ensures acc.Valid() && Export(ctx, hierarchyKey).value == Assemble(root, acc)
  {
    root := ctx.Data.GetHierarchyByKey(hierarchyKey).value;
    acc := Visit(ctx, EmptyAccumulators(), root).value;
    VisitIsPreorderFold(ctx, EmptyAccumulators(), root);
  }

  /** With metadata included, the exported package is closed. */
  lemma ExportClosed(ctx: Context, hierarchyKey: Key)
    ensures var r := Export(ctx, hierarchyKey); r.Success? && ctx.Flags.IncludeMetadata ==> PackageClosed(ctx.Meta, r.value)
  {
    if Export(ctx, hierarchyKey).Success? && ctx.Flags.IncludeMetadata {
      var root, acc := ExportedWalk(ctx, hierarchyKey);
      EmptyIsClosed(ctx.Meta);
      StepsClosed(ctx, EmptyAccumulators(), Preorder(root));
      AssembledClosed(ctx.Meta, root, acc);
    }
  }

  /** Without metadata the four metadata lists are empty, without statements
      the statement list is, and without revisions there is at most one
      resource per node reference. */
  lemma ExportFlagsOff(ctx: Context, hierarchyKey: Key)
    ensures var r := Export(ctx, hierarchyKey);
            r.Success? && !ctx.Flags.IncludeMetadata ==>
              r.value.ResourceClasses == [] && r.value.StatementClasses == [] && r.value.PropertyClasses == [] && r.value.DataTypes == []
    ensures var r := Export(ctx, hierarchyKey);
            r.Success? && !ctx.Flags.IncludeStatements ==> r.value.Statements == []
    ensures var r := Export(ctx, hierarchyKey);
            r.Success? && !ctx.Flags.IncludeRevisions ==>
              |r.value.Resources| <= |References(Preorder(ctx.Data.GetHierarchyByKey(hierarchyKey).value))|
  {
    if Export(ctx, hierarchyKey).Success? {
      var root, acc := ExportedWalk(ctx, hierarchyKey);
      StepsFrames(ctx, EmptyAccumulators(), Preorder(root));
    }
  }

  /** Every node of the tree has its reference exported. */
  lemma ExportCoversReferences(ctx: Context, hierarchyKey: Key)
    ensures var r := Export(ctx, hierarchyKey);
            r.Success? ==>
              forall n :: n in Preorder(ctx.Data.GetHierarchyByKey(hierarchyKey).value) ==> ReferenceExported(ctx, r.value, n)
  {
    if Export(ctx, hierarchyKey).Success? {
      var root, acc := ExportedWalk(ctx, hierarchyKey);
      var p := Assemble(root, acc);
      StepsGrow(ctx, EmptyAccumulators(), Preorder(root));
      forall n | n in Preorder(root)
        ensures ReferenceExported(ctx, p, n)
      {
        assert NodeCovered(ctx, acc, n);
        if n.ResourceReference.Some? {
          var ref := n.ResourceReference.value;
          if ref in acc.Resources.Entries {
            assert acc.Resources.Entries[ref].OwnKey() == ref;
          } else if ResolveReference(ctx, ref).Some? {
            forall o | o in ResolveReference(ctx, ref).value && o.Some?
              ensures o.value in p.Resources
            {
            }
          }
        }
      }
    }
  }

  /** Every exported resource is one that some node's reference resolves to. */
  lemma ExportSound(ctx: Context, hierarchyKey: Key)
    ensures var p := Export(ctx, hierarchyKey);
            p.Success? ==>
              forall r :: r in p.value.Resources ==> r in ResolvedAll(ctx, Preorder(ctx.Data.GetHierarchyByKey(hierarchyKey).value))
  {
    if Export(ctx, hierarchyKey).Success? {
      var root, acc := ExportedWalk(ctx, hierarchyKey);
      StepsGrow(ctx, EmptyAccumulators(), Preorder(root));
      forall r | r in acc.Resources.Values()
        ensures r in ResolvedAll(ctx, Preorder(root))
      {
        var k := ValueStored(acc.Resources, r);
      }
    }
  }

  /** With statements included, every statement the store lists for an
      exported resource is exported (by key: the first statement with a
      given key is the one kept). */
  lemma ExportStatementsComplete(ctx: Context, hierarchyKey: Key)
    ensures var p := Export(ctx, hierarchyKey);
            p.Success? && ctx.Flags.IncludeStatements ==>
              forall r, s :: r in p.value.Resources && s in ctx.Data.GetAllStatementsForResource(r.OwnKey()) ==>
                s.OwnKey() in StatementKeys(p.value.Statements)
  {
    if Export(ctx, hierarchyKey).Success? && ctx.Flags.IncludeStatements {
      var root, acc := ExportedWalk(ctx, hierarchyKey);
      var p := Assemble(root, acc);
      StepsGrow(ctx, EmptyAccumulators(), Preorder(root));
      forall r, s | r in p.Resources && s in ctx.Data.GetAllStatementsForResource(r.OwnKey())
        ensures s.OwnKey() in StatementKeys(p.Statements)
      {
        var k := ValueStored(acc.Resources, r);
        assert acc.Statements.Entries[s.OwnKey()].OwnKey() == s.OwnKey();
      }
    }
  }

  /** Every exported statement is one the store lists for some exported
      resource: statements enter the package only through their resource. */
  lemma ExportStatementsSound(ctx: Context, hierarchyKey: Key)
    ensures var p := Export(ctx, hierarchyKey);
            p.Success? ==>
              forall s :: s in p.value.Statements ==>
                exists r :: r in p.value.Resources && s in ctx.Data.GetAllStatementsForResource(r.OwnKey())
  {
    if Export(ctx, hierarchyKey).Success? {
      var root, acc := ExportedWalk(ctx, hierarchyKey);
      var p := Assemble(root, acc);
      StepsKeepStatementsSound(ctx, EmptyAccumulators(), Preorder(root));
      forall s | s in p.Statements
        ensures exists r :: r in p.Resources && s in ctx.Data.GetAllStatementsForResource(r.OwnKey())
      {
        var k := ValueStored(acc.Statements, s);
        var rk :| rk in acc.Resources.Entries && acc.Statements.Entries[k] in ctx.Data.GetAllStatementsForResource(rk);
        var r := acc.Resources.Entries[rk];
        assert r in p.Resources && r.OwnKey() == rk;
      }
    }
  }

  /** No two exported resources, and no two exported statements, share a key. */
  lemma ExportKeysUnique(ctx: Context, hierarchyKey: Key)
    ensures var p := Export(ctx, hierarchyKey);
            p.Success? ==> forall i, j :: 0 <= i < j < |p.value.Resources| ==> p.value.Resources[i].OwnKey() != p.value.Resources[j].OwnKey()
    ensures var p := Export(ctx, hierarchyKey);
            p.Success? ==> forall i, j :: 0 <= i < j < |p.value.Statements| ==> p.value.Statements[i].OwnKey() != p.value.Statements[j].OwnKey()
  {
    if Export(ctx, hierarchyKey).Success? {
      var root, acc := ExportedWalk(ctx, hierarchyKey);
    }
  }

  /** No exported property class has an empty value list; with metadata
      included each is the reader's property class with that one change. */
  lemma ExportNormalized(ctx: Context, hierarchyKey: Key)
    ensures var p := Export(ctx, hierarchyKey);
            p.Success? ==> forall pc :: pc in p.value.PropertyClasses ==> pc.Values != Some([])
    ensures var p := Export(ctx, hierarchyKey);
            p.Success? && ctx.Flags.IncludeMetadata ==>
              forall q :: q in p.value.PropertyClasses ==>
                exists k :: ctx.Meta.GetPropertyClassByKey(k).Some? && q == NormalizeValues(ctx.Meta.GetPropertyClassByKey(k).value)
  {
    if Export(ctx, hierarchyKey).Success? {
      var root, acc := ExportedWalk(ctx, hierarchyKey);
      var p := Assemble(root, acc);
      forall q | q in p.PropertyClasses
        ensures q.Values != Some([])
      {
        var pc := NormalizedSource(acc.PropertyClasses.Values(), q);
      }
      if ctx.Flags.IncludeMetadata {
        EmptyIsClosed(ctx.Meta);
        StepsClosed(ctx, EmptyAccumulators(), Preorder(root));
        forall q | q in p.PropertyClasses
          ensures exists k :: ctx.Meta.GetPropertyClassByKey(k).Some? && q == NormalizeValues(ctx.Meta.GetPropertyClassByKey(k).value)
        {
          var pc := NormalizedSource(acc.PropertyClasses.Values(), q);
          var k := ValueStored(acc.PropertyClasses, pc);
          assert ctx.Meta.GetPropertyClassByKey(k) == Some(pc);
        }
      }
    }
  }
}
