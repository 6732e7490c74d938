/** The closure computed by the hierarchy exporter, as functions of the
    readers, the three flags and the accumulated dictionaries.
    Each function here is the specification of one method of
    `Exporter.HierarchyExporter` (or of one loop step inside it). */
module Closure {
  import opened SpecIF
  import opened Dicts
  import opened Readers

  datatype Flags = Flags(IncludeMetadata: bool, IncludeStatements: bool, IncludeRevisions: bool)

  /** Everything an export call consults and does not change. */
  datatype Context = Context(Meta: MetadataReader, Data: DataReader, Flags: Flags)

  /** The six dictionaries an export call fills. */
  datatype Accumulators = Accumulators(
    Resources: Dict<Resource>,
    Statements: Dict<Statement>,
    ResourceClasses: Dict<ResourceClass>,
    StatementClasses: Dict<StatementClass>,
    PropertyClasses: Dict<PropertyClass>,
    DataTypes: Dict<DataType>)
  {
    /** Each dictionary enumerates each key once; resources and statements
        are stored under their own (ID, Revision). */
    ghost predicate Valid()
    {
      && Resources.Valid() && Statements.Valid()
      && ResourceClasses.Valid() && StatementClasses.Valid()
      && PropertyClasses.Valid() && DataTypes.Valid()
      && (forall k :: k in Resources.Entries ==> Resources.Entries[k].OwnKey() == k)
      && (forall k :: k in Statements.Entries ==> Statements.Entries[k].OwnKey() == k)
    }
  }

  function EmptyAccumulators(): (a: Accumulators)
    ensures a.Valid()
  {
    Accumulators(Empty(), Empty(), Empty(), Empty(), Empty(), Empty())
  }

  /** Every dictionary of `b` extends the same dictionary of `a`. */
  ghost predicate Extends(a: Accumulators, b: Accumulators)
  {
    && Grows(a.Resources, b.Resources)
    && Grows(a.Statements, b.Statements)
    && Grows(a.ResourceClasses, b.ResourceClasses)
    && Grows(a.StatementClasses, b.StatementClasses)
    && Grows(a.PropertyClasses, b.PropertyClasses)
    && Grows(a.DataTypes, b.DataTypes)
  }

  ghost predicate SameInstances(a: Accumulators, b: Accumulators)
  {
    a.Resources == b.Resources && a.Statements == b.Statements
  }

  ghost predicate SameMetadata(a: Accumulators, b: Accumulators)
  {
    && a.ResourceClasses == b.ResourceClasses
    && a.StatementClasses == b.StatementClasses
    && a.PropertyClasses == b.PropertyClasses
    && a.DataTypes == b.DataTypes
  }

  lemma ExtendsTransitive(a: Accumulators, b: Accumulators, c: Accumulators)
    requires Extends(a, b) && Extends(b, c)
    ensures Extends(a, c)
  {
  }

  // ---------------------------------------------------------------------
  // Metadata closure

  /** One property-class key of a class: fetch and add the property class
      if it is absent and found, then its data type if absent and found. */
  function AddPropertyClass(meta: MetadataReader, acc: Accumulators, pk: Key): (r: Accumulators)
    requires acc.Valid()
    ensures r.Valid() && SameInstances(acc, r)
    ensures r.ResourceClasses == acc.ResourceClasses && r.StatementClasses == acc.StatementClasses
    ensures Grows(acc.PropertyClasses, r.PropertyClasses) && Grows(acc.DataTypes, r.DataTypes)
    ensures meta.GetPropertyClassByKey(pk).Some? ==> pk in r.PropertyClasses.Entries
    ensures pk !in acc.PropertyClasses.Entries && meta.GetPropertyClassByKey(pk).Some? ==>
              && r.PropertyClasses.Entries[pk] == meta.GetPropertyClassByKey(pk).value
              && (meta.GetDataTypeByKey(r.PropertyClasses.Entries[pk].DataType).Some? ==> r.PropertyClasses.Entries[pk].DataType in r.DataTypes.Entries)
  {
    if acc.PropertyClasses.ContainsKey(pk) then acc
    else match meta.GetPropertyClassByKey(pk)
      case None => acc
      case Some(pc) =>
        var withClass := acc.(PropertyClasses := acc.PropertyClasses.Add(pk, pc));
        if withClass.DataTypes.ContainsKey(pc.DataType) then withClass
        else match meta.GetDataTypeByKey(pc.DataType)
          case None => withClass
          case Some(dt) => withClass.(DataTypes := withClass.DataTypes.Add(pc.DataType, dt))
  }

  /** The property-class loop of a class, key by key in list order. */
  function AddPropertyClasses(meta: MetadataReader, acc: Accumulators, pks: seq<Key>): (r: Accumulators)
    requires acc.Valid()
    ensures r.Valid() && SameInstances(acc, r)
    ensures r.ResourceClasses == acc.ResourceClasses && r.StatementClasses == acc.StatementClasses
    decreases |pks|
  {
    if pks == [] then acc
    else
      var before := AddPropertyClasses(meta, acc, pks[..|pks| - 1]);
      AddPropertyClass(meta, before, pks[|pks| - 1])
  }

  /** The key under which a resource class is looked for and stored: a
      reference without revision is replaced by the found class's own
      (ID, Revision); any other reference is used as given. */
  function ResourceClassKey(meta: MetadataReader, original: Key): (k: Key)
    ensures original.Revision != "" || meta.GetResourceClassByKey(original).None? ==> k == original
    ensures original.Revision == "" && meta.GetResourceClassByKey(original).Some? ==>
              k.ID == meta.GetResourceClassByKey(original).value.ID && k.Revision == meta.GetResourceClassByKey(original).value.Revision
  {
    if original.Revision == "" then
      match meta.GetResourceClassByKey(original)
      case Some(rc) => Key(rc.ID, rc.Revision)
      case None => original
    else original
  }

  /** `AddMetadataForResource`: add the resource class (under its canonical
      key) and the property classes and data types it uses. */
  function MetaForResource(meta: MetadataReader, acc: Accumulators, original: Key): (r: Accumulators)
    requires acc.Valid()
    ensures r.Valid() && SameInstances(acc, r)
    ensures r.StatementClasses == acc.StatementClasses
  {
    var classKey := ResourceClassKey(meta, original);
    if acc.ResourceClasses.ContainsKey(classKey) then acc
    else match meta.GetResourceClassByKey(classKey)
      case None => acc
      case Some(rc) =>
        var withClass := acc.(ResourceClasses := acc.ResourceClasses.Add(classKey, rc));
        AddPropertyClasses(meta, withClass, rc.PropertyClasses)
  }

  /** `AddMetadataForResource` applied to each key of a list, in order. */
  function MetaForResources(meta: MetadataReader, acc: Accumulators, keys: seq<Key>): (r: Accumulators)
    requires acc.Valid()
    ensures r.Valid() && SameInstances(acc, r)
    ensures r.StatementClasses == acc.StatementClasses
    decreases |keys|
  {
    if keys == [] then acc
    else
      var before := MetaForResources(meta, acc, keys[..|keys| - 1]);
      MetaForResource(meta, before, keys[|keys| - 1])
  }

  /** `AddMetadataForStatement`: add the statement class under the key the
      statement gives, its property classes, then every subject and object
      class as a resource class. */
  function MetaForStatement(meta: MetadataReader, acc: Accumulators, s: Statement): (r: Accumulators)
    requires acc.Valid()
    ensures r.Valid() && SameInstances(acc, r)
  {
    if acc.StatementClasses.ContainsKey(s.Class) then acc
    else match meta.GetStatementClassByKey(s.Class)
      case None => acc
      case Some(sc) =>
        var withClass := acc.(StatementClasses := acc.StatementClasses.Add(s.Class, sc));
        var withProperties := AddPropertyClasses(meta, withClass, Listed(sc.PropertyClasses));
        var withSubjects := MetaForResources(meta, withProperties, Listed(sc.SubjectClasses));
        MetaForResources(meta, withSubjects, Listed(sc.ObjectClasses))
  }

  // ---------------------------------------------------------------------
  // Statements

  /** One statement of a resource: added under its own key if absent, then
      its class metadata when metadata is included. */
  function AddStatement(ctx: Context, acc: Accumulators, s: Statement): (r: Accumulators)
    requires acc.Valid()
    ensures r.Valid() && r.Resources == acc.Resources
    ensures !ctx.Flags.IncludeMetadata ==> SameMetadata(acc, r)
    ensures s.OwnKey() in acc.Statements.Entries ==> r.Statements == acc.Statements
    ensures s.OwnKey() !in acc.Statements.Entries ==>
              r.Statements.Entries == acc.Statements.Entries[s.OwnKey() := s] && r.Statements.Order == acc.Statements.Order + [s.OwnKey()]
  {
    var key := s.OwnKey();
    if acc.Statements.ContainsKey(key) then acc
    else
      var withStatement := acc.(Statements := acc.Statements.Add(key, s));
      if ctx.Flags.IncludeMetadata then MetaForStatement(ctx.Meta, withStatement, s) else withStatement
  }

  /** The statement loop, statement by statement in list order. */
  function AddStatements(ctx: Context, acc: Accumulators, ss: seq<Statement>): (r: Accumulators)
    requires acc.Valid()
    ensures r.Valid() && r.Resources == acc.Resources
    ensures !ctx.Flags.IncludeMetadata ==> SameMetadata(acc, r)
    decreases |ss|
  {
    if ss == [] then acc
    else
      var before := AddStatements(ctx, acc, ss[..|ss| - 1]);
      AddStatement(ctx, before, ss[|ss| - 1])
  }

  /** `AddStatementsForResource`: every statement the store lists for the resource. */
  function StatementsForResource(ctx: Context, acc: Accumulators, res: Resource): (r: Accumulators)
    requires acc.Valid()
    ensures r.Valid() && r.Resources == acc.Resources
    ensures !ctx.Flags.IncludeMetadata ==> SameMetadata(acc, r)
  {
    AddStatements(ctx, acc, ctx.Data.GetAllStatementsForResource(res.OwnKey()))
  }

  // ---------------------------------------------------------------------
  // Resources and the hierarchy walk

  /** One resolved resource: `Resources.Add` under its own key, which fails
      when that key is already present; then its metadata and statements as
      the flags say. */
  function AddResource(ctx: Context, acc: Accumulators, res: Resource): (r: Result<Accumulators, Key>)
    requires acc.Valid()
    ensures r.Failure? <==> res.OwnKey() in acc.Resources.Entries
    ensures r.Failure? ==> r.error == res.OwnKey()
    ensures r.Success? ==> r.value.Valid()
    ensures r.Success? ==> r.value.Resources.Entries == acc.Resources.Entries[res.OwnKey() := res]
    ensures r.Success? ==> r.value.Resources.Order == acc.Resources.Order + [res.OwnKey()]
    ensures r.Success? && !ctx.Flags.IncludeMetadata ==> SameMetadata(acc, r.value)
    ensures r.Success? && !ctx.Flags.IncludeStatements ==> r.value.Statements == acc.Statements
  {
    var key := res.OwnKey();
    if acc.Resources.ContainsKey(key) then Failure(key)
    else
      var withResource := acc.(Resources := acc.Resources.Add(key, res));
      var withMetadata := if ctx.Flags.IncludeMetadata then MetaForResource(ctx.Meta, withResource, res.Class) else withResource;
      var withStatements := if ctx.Flags.IncludeStatements then StatementsForResource(ctx, withMetadata, res) else withMetadata;
      Success(withStatements)
  }

  /** The loop over the resolved resources of one reference; null entries are skipped. */
  function AddResources(ctx: Context, acc: Accumulators, rs: seq<Option<Resource>>): (r: Result<Accumulators, Key>)
    requires acc.Valid()
    ensures r.Success? ==> r.value.Valid()
    ensures r.Success? ==> Grows(acc.Resources, r.value.Resources)
    ensures r.Success? ==> |r.value.Resources.Order| <= |acc.Resources.Order| + |rs|
    ensures r.Success? && !ctx.Flags.IncludeMetadata ==> SameMetadata(acc, r.value)
    ensures r.Success? && !ctx.Flags.IncludeStatements ==> r.value.Statements == acc.Statements
    decreases |rs|
  {
    if rs == [] then Success(acc)
    else match AddResources(ctx, acc, rs[..|rs| - 1])
      case Failure(k) => Failure(k)
      case Success(before) =>
        match rs[|rs| - 1]
        case None => Success(before)
        case Some(res) =>
          AddResource(ctx, before, res)
  }

  /** The resources a node reference stands for: every revision of its ID,
      or the one revision it names (a one-element list that may hold null). */
  function ResolveReference(ctx: Context, ref: Key): (r: Option<seq<Option<Resource>>>)
    ensures ctx.Flags.IncludeRevisions ==> r == ctx.Data.GetAllResourceRevisions(ref.ID)
    ensures !ctx.Flags.IncludeRevisions ==> r.Some? && |r.value| == 1 && r.value[0] == ctx.Data.GetResourceByKey(ref)
  {
    if ctx.Flags.IncludeRevisions then ctx.Data.GetAllResourceRevisions(ref.ID)
    else Some([ctx.Data.GetResourceByKey(ref)])
  }

  /** The part of `AddNodeResourcesRecursively` that concerns the node itself:
      nothing when it has no reference or its reference key is already a
      key of Resources, otherwise every resolved resource is added. */
  function NodeOwn(ctx: Context, acc: Accumulators, n: Node): (r: Result<Accumulators, Key>)
    requires acc.Valid()
    ensures r.Success? ==> r.value.Valid() && Grows(acc.Resources, r.value.Resources)
    ensures r.Success? && !ctx.Flags.IncludeMetadata ==> SameMetadata(acc, r.value)
    ensures r.Success? && !ctx.Flags.IncludeStatements ==> r.value.Statements == acc.Statements
    ensures r.Success? && !ctx.Flags.IncludeRevisions ==> |r.value.Resources.Order| <= |acc.Resources.Order| + 1
  {
    match n.ResourceReference
    case None => Success(acc)
    case Some(ref) =>
      if acc.Resources.ContainsKey(ref) then Success(acc)
      else match ResolveReference(ctx, ref)
        case None => Success(acc)
        case Some(rs) => AddResources(ctx, acc, rs)
  }

  /** `AddNodeResourcesRecursively`: the node itself, then each child subtree in order. */
  function Visit(ctx: Context, acc: Accumulators, n: Node): (r: Result<Accumulators, Key>)
    requires acc.Valid()
    ensures r.Success? ==> r.value.Valid() && Grows(acc.Resources, r.value.Resources)
    ensures r.Success? && !ctx.Flags.IncludeMetadata ==> SameMetadata(acc, r.value)
    ensures r.Success? && !ctx.Flags.IncludeStatements ==> r.value.Statements == acc.Statements
    decreases n
  {
    match NodeOwn(ctx, acc, n)
    case Failure(k) => Failure(k)
    case Success(a) => VisitAll(ctx, a, n.Nodes)
  }

  function VisitAll(ctx: Context, acc: Accumulators, ns: seq<Node>): (r: Result<Accumulators, Key>)
    requires acc.Valid()
    ensures r.Success? ==> r.value.Valid() && Grows(acc.Resources, r.value.Resources)
    ensures r.Success? && !ctx.Flags.IncludeMetadata ==> SameMetadata(acc, r.value)
    ensures r.Success? && !ctx.Flags.IncludeStatements ==> r.value.Statements == acc.Statements
    decreases ns
  {
    if ns == [] then Success(acc)
    else match VisitAll(ctx, acc, ns[..|ns| - 1])
      case Failure(k) => Failure(k)
      case Success(before) => Visit(ctx, before, ns[|ns| - 1])
  }

  // ---------------------------------------------------------------------
  // The whole export

  datatype ExportError =
    | HierarchyNotFound(key: Key)    // the source dereferences the missing root
    | DuplicateResourceKey(key: Key) // the source's `Resources.Add` throws

  /** The property classes as emitted: no empty enumeration is left, and
      each class keeps everything else, a class with a usable enumeration
      (or none) unchanged. */
  function NormalizeAll(pcs: seq<PropertyClass>): (r: seq<PropertyClass>)
    ensures |r| == |pcs|
    ensures forall i :: 0 <= i < |r| ==> r[i].Values != Some([]) && r[i].(Values := pcs[i].Values) == pcs[i]
    ensures forall i :: 0 <= i < |r| && pcs[i].Values != Some([]) ==> r[i] == pcs[i]
  {
    seq(|pcs|, i requires 0 <= i < |pcs| => NormalizeValues(pcs[i]))
  }

  /** The package built from the fetched root and the filled dictionaries. */
  function Assemble(root: Node, acc: Accumulators): (p: Package)
    requires acc.Valid()
    ensures p.ID == root.ProjectID && p.Generator == Generator && p.Hierarchies == [root]
    ensures |p.Resources| == |acc.Resources.Order| && |p.Statements| == |acc.Statements.Order|
    ensures forall k :: k in acc.Resources.Entries ==> acc.Resources.Entries[k] in p.Resources
    ensures forall k :: k in acc.Statements.Entries ==> acc.Statements.Entries[k] in p.Statements
    ensures |p.PropertyClasses| == |acc.PropertyClasses.Order|
    ensures forall q :: q in p.PropertyClasses ==> q.Values != Some([])
  {
    Package(
      root.ProjectID,
      Generator,
      [root],
      acc.Resources.Values(),
      acc.Statements.Values(),
      acc.ResourceClasses.Values(),
      acc.StatementClasses.Values(),
      NormalizeAll(acc.PropertyClasses.Values()),
      acc.DataTypes.Values())
  }

  /** `ExportHierarchy`: a function of the readers, the key and the flags only. */
  function Export(ctx: Context, hierarchyKey: Key): (r: Result<Package, ExportError>)
    ensures r == Failure(HierarchyNotFound(hierarchyKey)) <==> ctx.Data.GetHierarchyByKey(hierarchyKey).None?
    ensures r.Success? ==>
              && ctx.Data.GetHierarchyByKey(hierarchyKey).Some?
              && r.value.Hierarchies == [ctx.Data.GetHierarchyByKey(hierarchyKey).value]
              && r.value.ID == ctx.Data.GetHierarchyByKey(hierarchyKey).value.ProjectID
              && r.value.Generator == Generator
    ensures r.Failure? && r.error.DuplicateResourceKey? ==>
              Visit(ctx, EmptyAccumulators(), ctx.Data.GetHierarchyByKey(hierarchyKey).value) == Failure(r.error.key)
  {
    match ctx.Data.GetHierarchyByKey(hierarchyKey)
    case None => Failure(HierarchyNotFound(hierarchyKey))
    case Some(root) =>
      match Visit(ctx, EmptyAccumulators(), root)
      case Failure(k) => Failure(DuplicateResourceKey(k))
      case Success(acc) => Success(Assemble(root, acc))
  }
}
