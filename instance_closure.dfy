/** With metadata included, every step of the walk keeps the whole closure:
    the metadata closure of `MetadataClosure` and every stored resource and
    statement having its class. */
module InstanceClosure {
  import opened SpecIF
  import opened Dicts
  import opened Closure
  import opened Traversal
  import opened MetadataClosure

  lemma EmptyIsClosed(meta: Readers.MetadataReader)
    ensures Closed(meta, EmptyAccumulators())
  {
  }

  /** Instances other than metadata do not enter the metadata closure. */
  lemma MetadataClosedIgnoresInstances(meta: Readers.MetadataReader, a: Accumulators, b: Accumulators)
    requires SameMetadata(a, b) && MetadataClosed(meta, a)
    ensures MetadataClosed(meta, b)
  {
    assert PropertiesSound(meta, b);
    assert ClassesSound(meta, b);
    forall k, pk | k in b.ResourceClasses.Entries && pk in b.ResourceClasses.Entries[k].PropertyClasses
      ensures PropertyCovered(meta, b, pk)
    {
      assert PropertyCovered(meta, a, pk);
    }
    forall k, pk | k in b.StatementClasses.Entries && pk in Listed(b.StatementClasses.Entries[k].PropertyClasses)
      ensures PropertyCovered(meta, b, pk)
    {
      assert PropertyCovered(meta, a, pk);
    }
    forall k, ck | k in b.StatementClasses.Entries && ck in Endpoints(b.StatementClasses.Entries[k])
      ensures ResourceClassCovered(meta, b, ck)
    {
      assert ResourceClassCovered(meta, a, ck);
    }
  }

  /** Adding one statement whose class is covered keeps the instances closed. */
  lemma InstancesClosedWithStatement(meta: Readers.MetadataReader, acc: Accumulators, r: Accumulators, s: Statement)
    requires InstancesClosed(meta, acc) && Extends(acc, r)
    requires r.Resources == acc.Resources && r.Statements.Entries == acc.Statements.Entries[s.OwnKey() := s]
    requires StatementClassCovered(meta, r, s.Class)
    ensures InstancesClosed(meta, r)
  {
    forall k | k in r.Resources.Entries
      ensures ResourceClassCovered(meta, r, r.Resources.Entries[k].Class)
    {
      ResourceClassStaysCovered(meta, acc, r, r.Resources.Entries[k].Class);
    }
    forall k | k in r.Statements.Entries
      ensures StatementClassCovered(meta, r, r.Statements.Entries[k].Class)
    {
      if k != s.OwnKey() {
        StatementClassStaysCovered(meta, acc, r, r.Statements.Entries[k].Class);
      }
    }
  }

  /** Adding one resource whose class is covered keeps the instances closed. */
  lemma InstancesClosedWithResource(meta: Readers.MetadataReader, acc: Accumulators, r: Accumulators, res: Resource)
    requires InstancesClosed(meta, acc) && Extends(acc, r)
    requires r.Statements == acc.Statements && r.Resources.Entries == acc.Resources.Entries[res.OwnKey() := res]
    requires ResourceClassCovered(meta, r, res.Class)
    ensures InstancesClosed(meta, r)
  {
    forall k | k in r.Resources.Entries
      ensures ResourceClassCovered(meta, r, r.Resources.Entries[k].Class)
    {
      if k != res.OwnKey() {
        ResourceClassStaysCovered(meta, acc, r, r.Resources.Entries[k].Class);
      }
    }
    forall k | k in r.Statements.Entries
      ensures StatementClassCovered(meta, r, r.Statements.Entries[k].Class)
    {
      StatementClassStaysCovered(meta, acc, r, r.Statements.Entries[k].Class);
    }
  }

  /** A statement is stored together with its class. */
  lemma StatementClosed(ctx: Context, acc: Accumulators, s: Statement)
    requires acc.Valid() && ctx.Flags.IncludeMetadata && Closed(ctx.Meta, acc)
    ensures Closed(ctx.Meta, AddStatement(ctx, acc, s))
  {
    var key := s.OwnKey();
    if !acc.Statements.ContainsKey(key) {
      var withStatement := acc.(Statements := acc.Statements.Add(key, s));
      assert AddStatement(ctx, acc, s) == MetaForStatement(ctx.Meta, withStatement, s);
      MetadataClosedIgnoresInstances(ctx.Meta, acc, withStatement);
      assert Extends(acc, withStatement);
      StatementClassClosed(ctx.Meta, withStatement, s);
      StatementClassAdded(ctx.Meta, withStatement, s);
      StatementStepClosed(ctx.Meta, acc, withStatement, MetaForStatement(ctx.Meta, withStatement, s), s);
    }
  }

  lemma StatementStepClosed(meta: Readers.MetadataReader, acc: Accumulators, mid: Accumulators, r: Accumulators, s: Statement)
    requires InstancesClosed(meta, acc) && Extends(acc, mid) && Extends(mid, r)
    requires mid.Resources == acc.Resources && mid.Statements.Entries == acc.Statements.Entries[s.OwnKey() := s]
    requires SameInstances(mid, r) && MetadataClosed(meta, r) && StatementClassCovered(meta, r, s.Class)
    ensures Closed(meta, r)
  {
    ExtendsTransitive(acc, mid, r);
    InstancesClosedWithStatement(meta, acc, r, s);
  }

  lemma {:induction false} StatementsClosed(ctx: Context, acc: Accumulators, ss: seq<Statement>)
    requires acc.Valid() && ctx.Flags.IncludeMetadata && Closed(ctx.Meta, acc)
    ensures Closed(ctx.Meta, AddStatements(ctx, acc, ss))
    decreases |ss|
  {
    if ss != [] {
      StatementsClosed(ctx, acc, ss[..|ss| - 1]);
      StatementClosed(ctx, AddStatements(ctx, acc, ss[..|ss| - 1]), ss[|ss| - 1]);
    }
  }

  /** A resource is stored together with its class and, when statements are
      included, its statements with theirs. */
  lemma ResourceClosed(ctx: Context, acc: Accumulators, res: Resource)
    requires acc.Valid() && ctx.Flags.IncludeMetadata && Closed(ctx.Meta, acc)
    ensures AddResource(ctx, acc, res).Success? ==> Closed(ctx.Meta, AddResource(ctx, acc, res).value)
  {
    var key := res.OwnKey();
    if !acc.Resources.ContainsKey(key) {
      var withResource := acc.(Resources := acc.Resources.Add(key, res));
      var withMetadata := MetaForResource(ctx.Meta, withResource, res.Class);
      MetadataClosedIgnoresInstances(ctx.Meta, acc, withResource);
      assert Extends(acc, withResource);
      ResourceClassClosed(ctx.Meta, withResource, res.Class);
      ResourceClassAdded(ctx.Meta, withResource, res.Class);
      ExtendsTransitive(acc, withResource, withMetadata);
      EndpointsStayClosed(ctx.Meta, withResource, withMetadata);
      InstancesClosedWithResource(ctx.Meta, acc, withMetadata, res);
      if ctx.Flags.IncludeStatements {
        StatementsClosed(ctx, withMetadata, ctx.Data.GetAllStatementsForResource(key));
      }
    }
  }

  lemma {:induction false} ResourcesClosed(ctx: Context, acc: Accumulators, rs: seq<Option<Resource>>)
    requires acc.Valid() && ctx.Flags.IncludeMetadata && Closed(ctx.Meta, acc)
    ensures AddResources(ctx, acc, rs).Success? ==> Closed(ctx.Meta, AddResources(ctx, acc, rs).value)
    decreases |rs|
  {
    if rs != [] {
      ResourcesClosed(ctx, acc, rs[..|rs| - 1]);
      match AddResources(ctx, acc, rs[..|rs| - 1])
      case Failure(_) =>
      case Success(before) =>
        if rs[|rs| - 1].Some? {
          ResourceClosed(ctx, before, rs[|rs| - 1].value);
        }
    }
  }

  /** Every step of the walk keeps the closure, so the walk does. */
  lemma {:induction false} StepsClosed(ctx: Context, acc: Accumulators, ns: seq<Node>)
    requires acc.Valid() && ctx.Flags.IncludeMetadata && Closed(ctx.Meta, acc)
    ensures Steps(ctx, acc, ns).Success? ==> Closed(ctx.Meta, Steps(ctx, acc, ns).value)
    decreases |ns|
  {
    if ns != [] {
      StepsClosed(ctx, acc, ns[..|ns| - 1]);
      match Steps(ctx, acc, ns[..|ns| - 1])
      case Failure(_) =>
      case Success(before) =>
        var n := ns[|ns| - 1];
        if n.ResourceReference.Some? && n.ResourceReference.value !in before.Resources.Entries
          && ResolveReference(ctx, n.ResourceReference.value).Some?
        {
          ResourcesClosed(ctx, before, ResolveReference(ctx, n.ResourceReference.value).value);
        }
    }
  }
}
