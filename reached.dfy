/** The other direction of the metadata closure: nothing enters the
    metadata dictionaries unless something already stored asks for it.
    A resource class is there because a stored resource, or an endpoint
    of a stored statement class, names it; a statement class because a
    stored statement names it; a property class because a stored class
    lists it; a data type because a stored property class uses it. */
module MetadataReached {
  import opened SpecIF
  import opened Dicts
  import opened Readers
  import opened Closure
  import opened Traversal
  import opened MetadataClosure
  import opened WalkProperties
  import opened InstanceClosure
  import opened PackageProperties

  // ---------------------------------------------------------------------
  // Why a key is stored

  /** `k` is the canonical class key of a stored resource's class, or of an
      endpoint of a stored statement class. */
  ghost predicate ResourceClassReached(meta: MetadataReader, acc: Accumulators, k: Key)
  {
    || (exists rk :: rk in acc.Resources.Entries && ResourceClassKey(meta, acc.Resources.Entries[rk].Class) == k)
    || (exists sk, ck :: sk in acc.StatementClasses.Entries && ck in Endpoints(acc.StatementClasses.Entries[sk]) &&
          ResourceClassKey(meta, ck) == k)
  }

  /** `k` is the class of a stored statement. */
  ghost predicate StatementClassReached(acc: Accumulators, k: Key)
  {
    exists sk :: sk in acc.Statements.Entries && acc.Statements.Entries[sk].Class == k
  }

  /** `k` is listed by a stored resource class or statement class. */
  ghost predicate PropertyClassReached(acc: Accumulators, k: Key)
  {
    || (exists ck :: ck in acc.ResourceClasses.Entries && k in acc.ResourceClasses.Entries[ck].PropertyClasses)
    || (exists sk :: sk in acc.StatementClasses.Entries && k in Listed(acc.StatementClasses.Entries[sk].PropertyClasses))
  }

  /** `k` is the data type of a stored property class. */
  ghost predicate DataTypeReached(acc: Accumulators, k: Key)
  {
    exists pk :: pk in acc.PropertyClasses.Entries && acc.PropertyClasses.Entries[pk].DataType == k
  }

  /** Every key of the four metadata dictionaries is reached. */
  ghost predicate Reached(meta: MetadataReader, acc: Accumulators)
  {
    && (forall k {:trigger ResourceClassReached(meta, acc, k)} :: k in acc.ResourceClasses.Entries ==> ResourceClassReached(meta, acc, k))
    && (forall k {:trigger StatementClassReached(acc, k)} :: k in acc.StatementClasses.Entries ==> StatementClassReached(acc, k))
    && (forall k {:trigger PropertyClassReached(acc, k)} :: k in acc.PropertyClasses.Entries ==> PropertyClassReached(acc, k))
    && (forall k {:trigger DataTypeReached(acc, k)} :: k in acc.DataTypes.Entries ==> DataTypeReached(acc, k))
  }

  // ---------------------------------------------------------------------
  // A reason to be stored stays a reason as the dictionaries grow

  lemma ResourceClassStaysReached(meta: MetadataReader, a: Accumulators, b: Accumulators, k: Key)
    requires Extends(a, b) && ResourceClassReached(meta, a, k)
    ensures ResourceClassReached(meta, b, k)
  {
    if exists rk :: rk in a.Resources.Entries && ResourceClassKey(meta, a.Resources.Entries[rk].Class) == k {
      var rk :| rk in a.Resources.Entries && ResourceClassKey(meta, a.Resources.Entries[rk].Class) == k;
      assert rk in b.Resources.Entries && b.Resources.Entries[rk] == a.Resources.Entries[rk];
    } else {
      var sk, ck :| sk in a.StatementClasses.Entries && ck in Endpoints(a.StatementClasses.Entries[sk]) && ResourceClassKey(meta, ck) == k;
      assert sk in b.StatementClasses.Entries && b.StatementClasses.Entries[sk] == a.StatementClasses.Entries[sk];
    }
  }

  lemma StatementClassStaysReached(a: Accumulators, b: Accumulators, k: Key)
    requires Extends(a, b) && StatementClassReached(a, k)
    ensures StatementClassReached(b, k)
  {
    var sk :| sk in a.Statements.Entries && a.Statements.Entries[sk].Class == k;
    assert sk in b.Statements.Entries && b.Statements.Entries[sk] == a.Statements.Entries[sk];
  }

  lemma PropertyClassStaysReached(a: Accumulators, b: Accumulators, k: Key)
    requires Extends(a, b) && PropertyClassReached(a, k)
    ensures PropertyClassReached(b, k)
  {
    if exists ck :: ck in a.ResourceClasses.Entries && k in a.ResourceClasses.Entries[ck].PropertyClasses {
      var ck :| ck in a.ResourceClasses.Entries && k in a.ResourceClasses.Entries[ck].PropertyClasses;
      assert ck in b.ResourceClasses.Entries && b.ResourceClasses.Entries[ck] == a.ResourceClasses.Entries[ck];
    } else {
      var sk :| sk in a.StatementClasses.Entries && k in Listed(a.StatementClasses.Entries[sk].PropertyClasses);
      assert sk in b.StatementClasses.Entries && b.StatementClasses.Entries[sk] == a.StatementClasses.Entries[sk];
    }
  }

  lemma DataTypeStaysReached(a: Accumulators, b: Accumulators, k: Key)
    requires Extends(a, b) && DataTypeReached(a, k)
    ensures DataTypeReached(b, k)
  {
    var pk :| pk in a.PropertyClasses.Entries && a.PropertyClasses.Entries[pk].DataType == k;
    assert pk in b.PropertyClasses.Entries && b.PropertyClasses.Entries[pk] == a.PropertyClasses.Entries[pk];
  }

  /** To keep `Reached` across growth, only the new keys need a reason. */
  lemma ReachedExtended(meta: MetadataReader, a: Accumulators, b: Accumulators)
    requires Extends(a, b) && Reached(meta, a)
    requires forall k :: k in b.ResourceClasses.Entries && k !in a.ResourceClasses.Entries ==> ResourceClassReached(meta, b, k)
    requires forall k :: k in b.StatementClasses.Entries && k !in a.StatementClasses.Entries ==> StatementClassReached(b, k)
    requires forall k :: k in b.PropertyClasses.Entries && k !in a.PropertyClasses.Entries ==> PropertyClassReached(b, k)
    requires forall k :: k in b.DataTypes.Entries && k !in a.DataTypes.Entries ==> DataTypeReached(b, k)
    ensures Reached(meta, b)
  {
    forall k | k in a.ResourceClasses.Entries
      ensures ResourceClassReached(meta, b, k)
    {
      ResourceClassStaysReached(meta, a, b, k);
    }
    forall k | k in a.StatementClasses.Entries
      ensures StatementClassReached(b, k)
    {
      StatementClassStaysReached(a, b, k);
    }
    forall k | k in a.PropertyClasses.Entries
      ensures PropertyClassReached(b, k)
    {
      PropertyClassStaysReached(a, b, k);
    }
    forall k | k in a.DataTypes.Entries
      ensures DataTypeReached(b, k)
    {
      DataTypeStaysReached(a, b, k);
    }
  }

  /** Growth that adds instances only. */
  lemma ReachedWithInstances(meta: MetadataReader, a: Accumulators, b: Accumulators)
    requires Extends(a, b) && Reached(meta, a) && SameMetadata(a, b)
    ensures Reached(meta, b)
  {
    ReachedExtended(meta, a, b);
  }

  /** Growth that adds one resource class, under a reached key. */
  lemma ReachedWithResourceClass(meta: MetadataReader, a: Accumulators, b: Accumulators, k: Key)
    requires Extends(a, b) && Reached(meta, a) && ResourceClassReached(meta, b, k)
    requires b.ResourceClasses.Entries.Keys == a.ResourceClasses.Entries.Keys + {k}
    requires b.StatementClasses == a.StatementClasses && b.PropertyClasses == a.PropertyClasses && b.DataTypes == a.DataTypes
    ensures Reached(meta, b)
  {
    ReachedExtended(meta, a, b);
  }

  /** Growth that adds one statement class, under a reached key. */
  lemma ReachedWithStatementClass(meta: MetadataReader, a: Accumulators, b: Accumulators, k: Key)
    requires Extends(a, b) && Reached(meta, a) && StatementClassReached(b, k)
    requires b.StatementClasses.Entries.Keys == a.StatementClasses.Entries.Keys + {k}
    requires b.ResourceClasses == a.ResourceClasses && b.PropertyClasses == a.PropertyClasses && b.DataTypes == a.DataTypes
    ensures Reached(meta, b)
  {
    ReachedExtended(meta, a, b);
  }

  /** Growth that adds one property class, under a reached key. */
  lemma ReachedWithPropertyClass(meta: MetadataReader, a: Accumulators, b: Accumulators, k: Key)
    requires Extends(a, b) && Reached(meta, a) && PropertyClassReached(b, k)
    requires b.PropertyClasses.Entries.Keys == a.PropertyClasses.Entries.Keys + {k}
    requires b.ResourceClasses == a.ResourceClasses && b.StatementClasses == a.StatementClasses && b.DataTypes == a.DataTypes
    ensures Reached(meta, b)
  {
    ReachedExtended(meta, a, b);
  }

  /** Growth that adds one data type, under a reached key. */
  lemma ReachedWithDataType(meta: MetadataReader, a: Accumulators, b: Accumulators, k: Key)
    requires Extends(a, b) && Reached(meta, a) && DataTypeReached(b, k)
    requires b.DataTypes.Entries.Keys == a.DataTypes.Entries.Keys + {k}
    requires b.ResourceClasses == a.ResourceClasses && b.StatementClasses == a.StatementClasses && b.PropertyClasses == a.PropertyClasses
    ensures Reached(meta, b)
  {
    ReachedExtended(meta, a, b);
  }

  /** Adding one property class to the dictionaries is growth. */
  lemma PropertyClassAddExtends(acc: Accumulators, pk: Key, pc: PropertyClass)
    requires acc.Valid() && pk !in acc.PropertyClasses.Entries
    ensures Extends(acc, acc.(PropertyClasses := acc.PropertyClasses.Add(pk, pc)))
  {
  }

  lemma ResourceClassAddExtends(acc: Accumulators, k: Key, rc: ResourceClass)
    requires acc.Valid() && k !in acc.ResourceClasses.Entries
    ensures Extends(acc, acc.(ResourceClasses := acc.ResourceClasses.Add(k, rc)))
  {
  }

  lemma StatementClassAddExtends(acc: Accumulators, k: Key, sc: StatementClass)
    requires acc.Valid() && k !in acc.StatementClasses.Entries
    ensures Extends(acc, acc.(StatementClasses := acc.StatementClasses.Add(k, sc)))
  {
  }

  lemma ResourceAddExtends(acc: Accumulators, res: Resource)
    requires acc.Valid() && res.OwnKey() !in acc.Resources.Entries
    ensures Extends(acc, acc.(Resources := acc.Resources.Add(res.OwnKey(), res)))
  {
  }

  lemma StatementAddExtends(acc: Accumulators, s: Statement)
    requires acc.Valid() && s.OwnKey() !in acc.Statements.Entries
    ensures Extends(acc, acc.(Statements := acc.Statements.Add(s.OwnKey(), s)))
  {
  }

  lemma DataTypeAddExtends(acc: Accumulators, k: Key, dt: DataType)
    requires acc.Valid() && k !in acc.DataTypes.Entries
    ensures Extends(acc, acc.(DataTypes := acc.DataTypes.Add(k, dt)))
  {
  }

  // ---------------------------------------------------------------------
  // Each step adds only what it is asked for

  /** A property class is added only under the key asked for, and its data
      type only as that class's data type. */
  lemma AddPropertyClassReaches(meta: MetadataReader, acc: Accumulators, pk: Key)
    requires acc.Valid() && Reached(meta, acc) && PropertyClassReached(acc, pk)
    ensures Reached(meta, AddPropertyClass(meta, acc, pk))
  {
    var r := AddPropertyClass(meta, acc, pk);
    if pk !in acc.PropertyClasses.Entries && meta.GetPropertyClassByKey(pk).Some? {
      var pc := meta.GetPropertyClassByKey(pk).value;
      var withClass := acc.(PropertyClasses := acc.PropertyClasses.Add(pk, pc));
      PropertyClassAddExtends(acc, pk, pc);
      PropertyClassStaysReached(acc, withClass, pk);
      ReachedWithPropertyClass(meta, acc, withClass, pk);
      if pc.DataType !in withClass.DataTypes.Entries && meta.GetDataTypeByKey(pc.DataType).Some? {
        var withType := withClass.(DataTypes := withClass.DataTypes.Add(pc.DataType, meta.GetDataTypeByKey(pc.DataType).value));
        DataTypeAddExtends(withClass, pc.DataType, meta.GetDataTypeByKey(pc.DataType).value);
        assert pk in withType.PropertyClasses.Entries && withType.PropertyClasses.Entries[pk].DataType == pc.DataType;
        ReachedWithDataType(meta, withClass, withType, pc.DataType);
        assert r == withType;
      } else {
        assert r == withClass;
      }
    } else {
      assert r == acc;
    }
  }

  lemma {:induction false} AddPropertyClassesReach(meta: MetadataReader, acc: Accumulators, pks: seq<Key>)
    requires acc.Valid() && Reached(meta, acc)
    requires forall pk :: pk in pks ==> PropertyClassReached(acc, pk)
    ensures Reached(meta, AddPropertyClasses(meta, acc, pks))
    decreases |pks|
  {
    if pks != [] {
      var prefix, last := pks[..|pks| - 1], pks[|pks| - 1];
      assert forall pk :: pk in prefix ==> pk in pks;
      AddPropertyClassesReach(meta, acc, prefix);
      PropertyClassesAdded(meta, acc, prefix);
      var before := AddPropertyClasses(meta, acc, prefix);
      PropertyClassStaysReached(acc, before, last);
      AddPropertyClassReaches(meta, before, last);
    }
  }

  /** A resource class is added only under the canonical key asked for;
      its property classes are listed by it. */
  lemma MetaForResourceReaches(meta: MetadataReader, acc: Accumulators, ck: Key)
    requires acc.Valid() && Reached(meta, acc) && ResourceClassReached(meta, acc, ResourceClassKey(meta, ck))
    ensures Reached(meta, MetaForResource(meta, acc, ck))
  {
    var classKey := ResourceClassKey(meta, ck);
    if classKey !in acc.ResourceClasses.Entries && meta.GetResourceClassByKey(classKey).Some? {
      var rc := meta.GetResourceClassByKey(classKey).value;
      var withClass := acc.(ResourceClasses := acc.ResourceClasses.Add(classKey, rc));
      ResourceClassAddExtends(acc, classKey, rc);
      ResourceClassStaysReached(meta, acc, withClass, classKey);
      ReachedWithResourceClass(meta, acc, withClass, classKey);
      ListedByResourceClass(withClass, classKey);
      AddPropertyClassesReach(meta, withClass, rc.PropertyClasses);
      assert MetaForResource(meta, acc, ck) == AddPropertyClasses(meta, withClass, rc.PropertyClasses);
    } else {
      assert MetaForResource(meta, acc, ck) == acc;
    }
  }

  /** The property classes a stored resource class lists are reached. */
  lemma ListedByResourceClass(acc: Accumulators, ck: Key)
    requires ck in acc.ResourceClasses.Entries
    ensures forall pk :: pk in acc.ResourceClasses.Entries[ck].PropertyClasses ==> PropertyClassReached(acc, pk)
  {
  }

  /** The property classes a stored statement class lists are reached. */
  lemma ListedByStatementClass(acc: Accumulators, sk: Key)
    requires sk in acc.StatementClasses.Entries
    ensures forall pk :: pk in Listed(acc.StatementClasses.Entries[sk].PropertyClasses) ==> PropertyClassReached(acc, pk)
  {
  }

  lemma {:induction false} MetaForResourcesReach(meta: MetadataReader, acc: Accumulators, cks: seq<Key>)
    requires acc.Valid() && Reached(meta, acc)
    requires forall ck :: ck in cks ==> ResourceClassReached(meta, acc, ResourceClassKey(meta, ck))
    ensures Reached(meta, MetaForResources(meta, acc, cks))
    decreases |cks|
  {
    if cks != [] {
      var prefix, last := cks[..|cks| - 1], cks[|cks| - 1];
      assert forall ck :: ck in prefix ==> ck in cks;
      MetaForResourcesReach(meta, acc, prefix);
      ResourceClassesAdded(meta, acc, prefix);
      var before := MetaForResources(meta, acc, prefix);
      ResourceClassStaysReached(meta, acc, before, ResourceClassKey(meta, last));
      MetaForResourceReaches(meta, before, last);
    }
  }

  /** The endpoints of a stored statement class are reached as resource classes. */
  lemma EndpointsReached(meta: MetadataReader, acc: Accumulators, sk: Key, cks: seq<Key>)
    requires sk in acc.StatementClasses.Entries
    requires forall ck :: ck in cks ==> ck in Endpoints(acc.StatementClasses.Entries[sk])
    ensures forall ck :: ck in cks ==> ResourceClassReached(meta, acc, ResourceClassKey(meta, ck))
  {
  }

  /** A statement class is added only under the class of the statement; its
      property classes are listed by it and its endpoint classes are its endpoints. */
  lemma MetaForStatementReaches(meta: MetadataReader, acc: Accumulators, s: Statement)
    requires acc.Valid() && Reached(meta, acc) && StatementClassReached(acc, s.Class)
    ensures Reached(meta, MetaForStatement(meta, acc, s))
  {
    if s.Class !in acc.StatementClasses.Entries && meta.GetStatementClassByKey(s.Class).Some? {
      var sc := meta.GetStatementClassByKey(s.Class).value;
      var withClass := acc.(StatementClasses := acc.StatementClasses.Add(s.Class, sc));
      StatementClassAddExtends(acc, s.Class, sc);
      StatementClassStaysReached(acc, withClass, s.Class);
      ReachedWithStatementClass(meta, acc, withClass, s.Class);
      ListedByStatementClass(withClass, s.Class);
      AddPropertyClassesReach(meta, withClass, Listed(sc.PropertyClasses));
      var withProperties := AddPropertyClasses(meta, withClass, Listed(sc.PropertyClasses));
      EndpointsReached(meta, withProperties, s.Class, Listed(sc.SubjectClasses));
      MetaForResourcesReach(meta, withProperties, Listed(sc.SubjectClasses));
      var withSubjects := MetaForResources(meta, withProperties, Listed(sc.SubjectClasses));
      EndpointsReached(meta, withSubjects, s.Class, Listed(sc.ObjectClasses));
      MetaForResourcesReach(meta, withSubjects, Listed(sc.ObjectClasses));
      assert MetaForStatement(meta, acc, s) == MetaForResources(meta, withSubjects, Listed(sc.ObjectClasses));
    } else {
      assert MetaForStatement(meta, acc, s) == acc;
    }
  }

  /** A stored statement is a reason for its class. */
  lemma AddStatementReaches(ctx: Context, acc: Accumulators, s: Statement)
    requires acc.Valid() && Reached(ctx.Meta, acc)
    ensures Reached(ctx.Meta, AddStatement(ctx, acc, s))
  {
    var key := s.OwnKey();
    if key !in acc.Statements.Entries {
      var withStatement := acc.(Statements := acc.Statements.Add(key, s));
      StatementAddExtends(acc, s);
      ReachedWithInstances(ctx.Meta, acc, withStatement);
      if ctx.Flags.IncludeMetadata {
        assert key in withStatement.Statements.Entries && withStatement.Statements.Entries[key].Class == s.Class;
        MetaForStatementReaches(ctx.Meta, withStatement, s);
        assert AddStatement(ctx, acc, s) == MetaForStatement(ctx.Meta, withStatement, s);
      } else {
        assert AddStatement(ctx, acc, s) == withStatement;
      }
    } else {
      assert AddStatement(ctx, acc, s) == acc;
    }
  }

  lemma {:induction false} AddStatementsReach(ctx: Context, acc: Accumulators, ss: seq<Statement>)
    requires acc.Valid() && Reached(ctx.Meta, acc)
    ensures Reached(ctx.Meta, AddStatements(ctx, acc, ss))
    decreases |ss|
  {
    if ss != [] {
      AddStatementsReach(ctx, acc, ss[..|ss| - 1]);
      AddStatementReaches(ctx, AddStatements(ctx, acc, ss[..|ss| - 1]), ss[|ss| - 1]);
    }
  }

  /** A stored resource is a reason for its class. */
  lemma AddResourceReaches(ctx: Context, acc: Accumulators, res: Resource)
    requires acc.Valid() && Reached(ctx.Meta, acc)
    ensures AddResource(ctx, acc, res).Success? ==> Reached(ctx.Meta, AddResource(ctx, acc, res).value)
  {
    var key := res.OwnKey();
    if key !in acc.Resources.Entries {
      var withResource := acc.(Resources := acc.Resources.Add(key, res));
      ResourceAddExtends(acc, res);
      ReachedWithInstances(ctx.Meta, acc, withResource);
      var withMetadata := if ctx.Flags.IncludeMetadata then MetaForResource(ctx.Meta, withResource, res.Class) else withResource;
      if ctx.Flags.IncludeMetadata {
        assert key in withResource.Resources.Entries && withResource.Resources.Entries[key].Class == res.Class;
        MetaForResourceReaches(ctx.Meta, withResource, res.Class);
      }
      AddStatementsReach(ctx, withMetadata, ctx.Data.GetAllStatementsForResource(key));
      assert AddResource(ctx, acc, res).value ==
             if ctx.Flags.IncludeStatements then AddStatements(ctx, withMetadata, ctx.Data.GetAllStatementsForResource(key)) else withMetadata;
    }
  }

  lemma {:induction false} AddResourcesReach(ctx: Context, acc: Accumulators, rs: seq<Option<Resource>>)
    requires acc.Valid() && Reached(ctx.Meta, acc)
    ensures AddResources(ctx, acc, rs).Success? ==> Reached(ctx.Meta, AddResources(ctx, acc, rs).value)
    decreases |rs|
  {
    if rs != [] {
      AddResourcesReach(ctx, acc, rs[..|rs| - 1]);
      match AddResources(ctx, acc, rs[..|rs| - 1])
      case Failure(_) =>
      case Success(before) =>
        if rs[|rs| - 1].Some? {
          AddResourceReaches(ctx, before, rs[|rs| - 1].value);
        }
    }
  }

  /** The walk over the nodes in depth-first order keeps every metadata key reached. */
  lemma {:induction false} StepsReach(ctx: Context, acc: Accumulators, ns: seq<Node>)
    requires acc.Valid() && Reached(ctx.Meta, acc)
    ensures Steps(ctx, acc, ns).Success? ==> Reached(ctx.Meta, Steps(ctx, acc, ns).value)
    decreases |ns|
  {
    if ns != [] {
      StepsReach(ctx, acc, ns[..|ns| - 1]);
      match Steps(ctx, acc, ns[..|ns| - 1])
      case Failure(_) =>
      case Success(before) =>
        var n := ns[|ns| - 1];
        if n.ResourceReference.Some? && n.ResourceReference.value !in before.Resources.Entries
          && ResolveReference(ctx, n.ResourceReference.value).Some?
        {
          AddResourcesReach(ctx, before, ResolveReference(ctx, n.ResourceReference.value).value);
        }
    }
  }

  // ---------------------------------------------------------------------
  // In the exported package

  /** `pk` is listed by a class of the package. */
  ghost predicate ListedByPackageClass(p: Package, pk: Key)
  {
    || (exists rc :: rc in p.ResourceClasses && pk in rc.PropertyClasses)
    || (exists sc :: sc in p.StatementClasses && pk in Listed(sc.PropertyClasses))
  }

  /** Each exported resource class is the reader's class for the canonical
      key of an exported resource's class or of an endpoint of an exported
      statement class. */
  ghost predicate ResourceClassesReached(meta: MetadataReader, p: Package)
  {
    forall rc :: rc in p.ResourceClasses ==>
      || (exists r :: r in p.Resources && meta.GetResourceClassByKey(ResourceClassKey(meta, r.Class)) == Some(rc))
      || (exists sc, ck :: sc in p.StatementClasses && ck in Endpoints(sc) &&
            meta.GetResourceClassByKey(ResourceClassKey(meta, ck)) == Some(rc))
  }

  /** Each exported statement class is the reader's class for an exported statement's class. */
  ghost predicate StatementClassesReached(meta: MetadataReader, p: Package)
  {
    forall sc :: sc in p.StatementClasses ==>
      exists s :: s in p.Statements && meta.GetStatementClassByKey(s.Class) == Some(sc)
  }

  /** Each exported property class is the reader's property class, with its
      enumeration normalised, for a key some exported class lists. */
  ghost predicate PropertyClassesReached(meta: MetadataReader, p: Package)
  {
    forall q :: q in p.PropertyClasses ==>
      exists pk :: ListedByPackageClass(p, pk) && meta.GetPropertyClassByKey(pk).Some? &&
        q == NormalizeValues(meta.GetPropertyClassByKey(pk).value)
  }

  /** Each exported data type is the reader's data type for an exported property class's data type. */
  ghost predicate DataTypesReached(meta: MetadataReader, p: Package)
  {
    forall dt :: dt in p.DataTypes ==>
      exists q :: q in p.PropertyClasses && meta.GetDataTypeByKey(q.DataType) == Some(dt)
  }

  lemma AssembledResourceClassesReached(meta: MetadataReader, root: Node, acc: Accumulators)
    requires acc.Valid() && ClassesSound(meta, acc) && Reached(meta, acc)
    ensures ResourceClassesReached(meta, Assemble(root, acc))
  {
    var p := Assemble(root, acc);
    forall rc | rc in p.ResourceClasses
      ensures || (exists r :: r in p.Resources && meta.GetResourceClassByKey(ResourceClassKey(meta, r.Class)) == Some(rc))
              || (exists sc, ck :: sc in p.StatementClasses && ck in Endpoints(sc) &&
                    meta.GetResourceClassByKey(ResourceClassKey(meta, ck)) == Some(rc))
    {
      var k := ValueStored(acc.ResourceClasses, rc);
      assert ResourceClassReached(meta, acc, k);
      if exists rk :: rk in acc.Resources.Entries && ResourceClassKey(meta, acc.Resources.Entries[rk].Class) == k {
        var rk :| rk in acc.Resources.Entries && ResourceClassKey(meta, acc.Resources.Entries[rk].Class) == k;
        assert acc.Resources.Entries[rk] in p.Resources;
      } else {
        var sk, ck :| sk in acc.StatementClasses.Entries && ck in Endpoints(acc.StatementClasses.Entries[sk]) && ResourceClassKey(meta, ck) == k;
        assert acc.StatementClasses.Entries[sk] in p.StatementClasses;
      }
    }
  }

  lemma AssembledStatementClassesReached(meta: MetadataReader, root: Node, acc: Accumulators)
    requires acc.Valid() && ClassesSound(meta, acc) && Reached(meta, acc)
    ensures StatementClassesReached(meta, Assemble(root, acc))
  {
    var p := Assemble(root, acc);
    forall sc | sc in p.StatementClasses
      ensures exists s :: s in p.Statements && meta.GetStatementClassByKey(s.Class) == Some(sc)
    {
      var k := ValueStored(acc.StatementClasses, sc);
      assert StatementClassReached(acc, k);
      var sk :| sk in acc.Statements.Entries && acc.Statements.Entries[sk].Class == k;
      assert acc.Statements.Entries[sk] in p.Statements;
    }
  }

  lemma AssembledPropertyClassesReached(meta: MetadataReader, root: Node, acc: Accumulators)
    requires acc.Valid() && PropertiesSound(meta, acc) && Reached(meta, acc)
    ensures PropertyClassesReached(meta, Assemble(root, acc))
  {
    var p := Assemble(root, acc);
    forall q | q in p.PropertyClasses
      ensures exists pk :: ListedByPackageClass(p, pk) && meta.GetPropertyClassByKey(pk).Some? &&
                q == NormalizeValues(meta.GetPropertyClassByKey(pk).value)
    {
      var pc := NormalizedSource(acc.PropertyClasses.Values(), q);
      var k := ValueStored(acc.PropertyClasses, pc);
      assert PropertyClassReached(acc, k);
      if exists ck :: ck in acc.ResourceClasses.Entries && k in acc.ResourceClasses.Entries[ck].PropertyClasses {
        var ck :| ck in acc.ResourceClasses.Entries && k in acc.ResourceClasses.Entries[ck].PropertyClasses;
        assert acc.ResourceClasses.Entries[ck] in p.ResourceClasses;
      } else {
        var sk :| sk in acc.StatementClasses.Entries && k in Listed(acc.StatementClasses.Entries[sk].PropertyClasses);
        assert acc.StatementClasses.Entries[sk] in p.StatementClasses;
      }
      assert ListedByPackageClass(p, k);
    }
  }

  lemma AssembledDataTypesReached(meta: MetadataReader, root: Node, acc: Accumulators)
    requires acc.Valid() && PropertiesSound(meta, acc) && Reached(meta, acc)
    ensures DataTypesReached(meta, Assemble(root, acc))
  {
    var p := Assemble(root, acc);
    forall dt | dt in p.DataTypes
      ensures exists q :: q in p.PropertyClasses && meta.GetDataTypeByKey(q.DataType) == Some(dt)
    {
      var k := ValueStored(acc.DataTypes, dt);
      assert DataTypeReached(acc, k);
      var pk :| pk in acc.PropertyClasses.Entries && acc.PropertyClasses.Entries[pk].DataType == k;
      var pc := acc.PropertyClasses.Entries[pk];
      NormalizedMember(acc.PropertyClasses.Values(), pc);
      assert NormalizeValues(pc).DataType == k;
    }
  }

  /** Every exported class, property class and data type is there because
      something else exported asks for it: the converse of `ExportClosed`. */
  lemma ExportMetadataSound(ctx: Context, hierarchyKey: Key)
    ensures var r := Export(ctx, hierarchyKey);
            r.Success? ==>
              && ResourceClassesReached(ctx.Meta, r.value)
              && StatementClassesReached(ctx.Meta, r.value)
              && PropertyClassesReached(ctx.Meta, r.value)
              && DataTypesReached(ctx.Meta, r.value)
  {
    if Export(ctx, hierarchyKey).Success? {
      var root, acc := ExportedWalk(ctx, hierarchyKey);
      if ctx.Flags.IncludeMetadata {
        EmptyIsClosed(ctx.Meta);
        StepsClosed(ctx, EmptyAccumulators(), Preorder(root));
        StepsReach(ctx, EmptyAccumulators(), Preorder(root));
        AssembledResourceClassesReached(ctx.Meta, root, acc);
        AssembledStatementClassesReached(ctx.Meta, root, acc);
        AssembledPropertyClassesReached(ctx.Meta, root, acc);
        AssembledDataTypesReached(ctx.Meta, root, acc);
      } else {
        ExportFlagsOff(ctx, hierarchyKey);
      }
    }
  }
}
