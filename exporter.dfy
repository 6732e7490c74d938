/** The hierarchy exporter: an object that owns six dictionaries and three
    flags, resets them on every export call and fills them while walking the
    hierarchy. Every method is proved to leave the dictionaries exactly as
    the corresponding function of module Closure says. */
module Exporter {
  import opened SpecIF
  import opened Dicts
  import opened Readers
  import opened Closure
  import Traversal

  class HierarchyExporter {
    const metadataReader: MetadataReader
    const dataReader: DataReader

    var hierarchy: Option<Node>
    var resources: Dict<Resource>
    var statements: Dict<Statement>
    var resourceClasses: Dict<ResourceClass>
    var statementClasses: Dict<StatementClass>
    var propertyClasses: Dict<PropertyClass>
    var dataTypes: Dict<DataType>

    var includeMetadata: bool
    var includeStatements: bool
    var includeRevisions: bool

    /** The six dictionaries as one value. */
    function Accumulated(): Accumulators
      reads this
    {
      Accumulators(resources, statements, resourceClasses, statementClasses, propertyClasses, dataTypes)
    }

    /** The readers and the flags of the current call. */
    function Ctx(): Context
      reads this
    {
      Context(metadataReader, dataReader, Flags(includeMetadata, includeStatements, includeRevisions))
    }

    ghost predicate Valid()
      reads this
    {
      Accumulated().Valid()
    }

    /** Neither the fetched hierarchy nor a flag has changed. */
    twostate predicate SettingsUnchanged()
      reads this
    {
      && old(hierarchy) == hierarchy
      && old(includeMetadata) == includeMetadata
      && old(includeStatements) == includeStatements
      && old(includeRevisions) == includeRevisions
    }

    constructor (metadataReader: MetadataReader, dataReader: DataReader)
      ensures this.metadataReader == metadataReader && this.dataReader == dataReader
      ensures Valid() && hierarchy == None && Accumulated() == EmptyAccumulators()
      ensures !includeMetadata && !includeStatements && !includeRevisions
    {
      this.metadataReader := metadataReader;
      this.dataReader := dataReader;
      hierarchy := None;
      resources, statements := Empty(), Empty();
      resourceClasses, statementClasses := Empty(), Empty();
      propertyClasses, dataTypes := Empty(), Empty();
      includeMetadata, includeStatements, includeRevisions := false, false, false;
    }

    /** Exports the subtree rooted at the hierarchy `hierarchyKey` names. The
        result depends on the readers and the arguments only: whatever an
        earlier call left in the dictionaries is cleared first. */
    method ExportHierarchy(hierarchyKey: Key, includeMetadata: bool, includeStatements: bool, includeRevisions: bool)
      returns (result: Result<Package, ExportError>)
      modifies this
      ensures result == Export(Context(metadataReader, dataReader, Flags(includeMetadata, includeStatements, includeRevisions)), hierarchyKey)
      ensures Valid()
      ensures this.includeMetadata == includeMetadata && this.includeStatements == includeStatements
      ensures this.includeRevisions == includeRevisions
      ensures hierarchy == dataReader.GetHierarchyByKey(hierarchyKey)
      ensures result.Success? ==> Visit(Ctx(), EmptyAccumulators(), hierarchy.value) == Success(Accumulated())
      ensures result.Failure? && result.error.HierarchyNotFound? ==> Accumulated() == EmptyAccumulators()
    {
      this.includeMetadata := includeMetadata;
      this.includeStatements := includeStatements;
      this.includeRevisions := includeRevisions;

      ClearDictionaries();

      hierarchy := dataReader.GetHierarchyByKey(hierarchyKey);
      if hierarchy.None? {
        return Failure(HierarchyNotFound(hierarchyKey));
      }
      var root := hierarchy.value;

      var duplicate := AddNodeResourcesRecursively(root);
      if duplicate.Some? {
        return Failure(DuplicateResourceKey(duplicate.value));
      }

      var resourceList := CollectValues(resources);
      var statementList := CollectValues(statements);
      var resourceClassList := CollectValues(resourceClasses);
      var statementClassList := CollectValues(statementClasses);
      var propertyClassList := CollectPropertyClasses(propertyClasses);
      var dataTypeList := CollectValues(dataTypes);

      assert resourceList == resources.Values();
      assert statementList == statements.Values();
      assert resourceClassList == resourceClasses.Values();
      assert statementClassList == statementClasses.Values();
      assert propertyClassList == NormalizeAll(propertyClasses.Values());
      assert dataTypeList == dataTypes.Values();

      result := Success(Package(root.ProjectID, Generator, [root], resourceList, statementList,
                                resourceClassList, statementClassList, propertyClassList, dataTypeList));
    }

    method ClearDictionaries()
      modifies this
      ensures Valid() && hierarchy == None && Accumulated() == EmptyAccumulators()
      ensures includeMetadata == old(includeMetadata) && includeStatements == old(includeStatements)
      ensures includeRevisions == old(includeRevisions)
    {
      hierarchy := None;
      resources := Empty();
      statements := Empty();
      resourceClasses := Empty();
      statementClasses := Empty();
      propertyClasses := Empty();
      dataTypes := Empty();
    }

    /** Returns the key `Resources.Add` was refused (the source's exception),
        or None when the whole subtree was walked. */
    method AddNodeResourcesRecursively(currentNode: Node) returns (duplicate: Option<Key>)
      requires Valid()
      modifies this
      ensures Valid() && SettingsUnchanged()
      ensures duplicate.None? ==> Visit(old(Ctx()), old(Accumulated()), currentNode) == Success(Accumulated())
      ensures duplicate.Some? ==> Visit(old(Ctx()), old(Accumulated()), currentNode) == Failure(duplicate.value)
      decreases currentNode
    {
      duplicate := AddReferencedResources(currentNode);
      if duplicate.Some? {
        return;
      }

      ghost var afterNode := Accumulated();
      for i := 0 to |currentNode.Nodes|
        invariant Valid() && SettingsUnchanged() && duplicate == None
        invariant VisitAll(Ctx(), afterNode, currentNode.Nodes[..i]) == Success(Accumulated())
      {
        Traversal.VisitAllStep(Ctx(), afterNode, currentNode.Nodes, i, Accumulated());
        duplicate := AddNodeResourcesRecursively(currentNode.Nodes[i]);
        if duplicate.Some? {
          Traversal.VisitAllFailurePersists(Ctx(), afterNode, currentNode.Nodes, i + 1, duplicate.value);
          return;
        }
      }
      assert currentNode.Nodes[..|currentNode.Nodes|] == currentNode.Nodes;
    }

    /** The node's own part of the walk: resolve its reference, unless it is
        absent or already a key of Resources, and add what it resolves to. */
    method AddReferencedResources(currentNode: Node) returns (duplicate: Option<Key>)
      requires Valid()
      modifies this
      ensures Valid() && SettingsUnchanged()
      ensures duplicate.None? ==> NodeOwn(old(Ctx()), old(Accumulated()), currentNode) == Success(Accumulated())
      ensures duplicate.Some? ==> NodeOwn(old(Ctx()), old(Accumulated()), currentNode) == Failure(duplicate.value)
    {
      duplicate := None;
      if currentNode.ResourceReference.Some? {
        var reference := currentNode.ResourceReference.value;
        if !resources.ContainsKey(reference) {
          var resolved: Option<seq<Option<Resource>>>;
          if includeRevisions {
            resolved := dataReader.GetAllResourceRevisions(reference.ID);
          } else {
            var resource := dataReader.GetResourceByKey(reference);
            resolved := Some([resource]);
          }
          if resolved.Some? {
            duplicate := AddResolvedResources(resolved.value);
          }
        }
      }
    }

    /** The loop over the resources a reference resolved to; null entries are skipped. */
    method AddResolvedResources(candidates: seq<Option<Resource>>) returns (duplicate: Option<Key>)
      requires Valid()
      modifies this
      ensures Valid() && SettingsUnchanged()
      ensures duplicate.None? ==> AddResources(old(Ctx()), old(Accumulated()), candidates) == Success(Accumulated())
      ensures duplicate.Some? ==> AddResources(old(Ctx()), old(Accumulated()), candidates) == Failure(duplicate.value)
    {
      for i := 0 to |candidates|
        invariant Valid() && SettingsUnchanged()
        invariant AddResources(Ctx(), old(Accumulated()), candidates[..i]) == Success(Accumulated())
      {
        assert candidates[..i + 1][..i] == candidates[..i];
        if candidates[i].Some? {
          var added := AddResolvedResource(candidates[i].value);
          if !added {
            var resourceKey := Key(candidates[i].value.ID, candidates[i].value.Revision);
            Traversal.AddResourcesFailurePersists(Ctx(), old(Accumulated()), candidates, i + 1, resourceKey);
            return Some(resourceKey);
          }
        }
      }
      assert candidates[..|candidates|] == candidates;
      duplicate := None;
    }

    /** The body of the loop over resolved resources. `added` is false when
        `Resources.Add` would throw because the resource's own key is present. */
    method AddResolvedResource(resource: Resource) returns (added: bool)
      requires Valid()
      modifies this
      ensures Valid() && SettingsUnchanged()
      ensures AddResource(Ctx(), old(Accumulated()), resource)
              == if added then Success(Accumulated()) else Failure(resource.OwnKey())
    {
      var resourceKey := Key(resource.ID, resource.Revision);
      if resources.ContainsKey(resourceKey) {
        return false;
      }
      resources := resources.Add(resourceKey, resource);
      if includeMetadata {
        AddMetadataForResource(resource.Class);
      }
      if includeStatements {
        AddStatementsForResource(resource);
      }
      added := true;
    }

    method AddMetadataForResource(originalResourceClassKey: Key)
      requires Valid()
      modifies this
      ensures Valid() && SettingsUnchanged()
      ensures Accumulated() == MetaForResource(metadataReader, old(Accumulated()), originalResourceClassKey)
    {
      var resourceClassKey := originalResourceClassKey;
      if originalResourceClassKey.Revision == "" {
        var found := metadataReader.GetResourceClassByKey(resourceClassKey);
        if found.Some? {
          resourceClassKey := Key(found.value.ID, found.value.Revision);
        }
      }

      if !resourceClasses.ContainsKey(resourceClassKey) {
        var resourceClass := metadataReader.GetResourceClassByKey(resourceClassKey);
        if resourceClass.Some? {
          resourceClasses := resourceClasses.Add(resourceClassKey, resourceClass.value);
          AddPropertyClassMetadata(resourceClass.value.PropertyClasses);
        }
      }
    }

    /** The property-class loop shared by resource and statement classes. */
    method AddPropertyClassMetadata(propertyClassKeys: seq<Key>)
      requires Valid()
      modifies this
      ensures Valid() && SettingsUnchanged()
      ensures Accumulated() == AddPropertyClasses(metadataReader, old(Accumulated()), propertyClassKeys)
    {
      for i := 0 to |propertyClassKeys|
        invariant Valid() && SettingsUnchanged()
        invariant Accumulated() == AddPropertyClasses(metadataReader, old(Accumulated()), propertyClassKeys[..i])
      {
        assert propertyClassKeys[..i + 1][..i] == propertyClassKeys[..i];
        AddPropertyClassOfKey(propertyClassKeys[i]);
      }
      assert propertyClassKeys[..|propertyClassKeys|] == propertyClassKeys;
    }

    /** One iteration of the property-class loop: the property class, then its data type. */
    method AddPropertyClassOfKey(propertyClassKey: Key)
      requires Valid()
      modifies this
      ensures Valid() && SettingsUnchanged()
      ensures Accumulated() == AddPropertyClass(metadataReader, old(Accumulated()), propertyClassKey)
    {
      if !propertyClasses.ContainsKey(propertyClassKey) {
        var propertyClass := metadataReader.GetPropertyClassByKey(propertyClassKey);
        if propertyClass.Some? {
          propertyClasses := propertyClasses.Add(propertyClassKey, propertyClass.value);
          var dataTypeKey := propertyClass.value.DataType;
          if !dataTypes.ContainsKey(dataTypeKey) {
            var dataType := metadataReader.GetDataTypeByKey(dataTypeKey);
            if dataType.Some? {
              dataTypes := dataTypes.Add(dataTypeKey, dataType.value);
            }
          }
        }
      }
    }

    method AddStatementsForResource(resource: Resource)
      requires Valid()
      modifies this
      ensures Valid() && SettingsUnchanged()
      ensures Accumulated() == StatementsForResource(Ctx(), old(Accumulated()), resource)
    {
      var resourceStatements := dataReader.GetAllStatementsForResource(Key(resource.ID, resource.Revision));
      for i := 0 to |resourceStatements|
        invariant Valid() && SettingsUnchanged()
        invariant Accumulated() == AddStatements(Ctx(), old(Accumulated()), resourceStatements[..i])
      {
        assert resourceStatements[..i + 1][..i] == resourceStatements[..i];
        AddStatementOfResource(resourceStatements[i]);
      }
      assert resourceStatements[..|resourceStatements|] == resourceStatements;
    }

    /** The body of the statement loop: add the statement under its own key
        unless that key is present, then its class metadata if included. */
    method AddStatementOfResource(statement: Statement)
      requires Valid()
      modifies this
      ensures Valid() && SettingsUnchanged()
      ensures Accumulated() == AddStatement(Ctx(), old(Accumulated()), statement)
    {
      var statementKey := Key(statement.ID, statement.Revision);
      if !statements.ContainsKey(statementKey) {
        statements := statements.Add(statementKey, statement);
        if includeMetadata {
          AddMetadataForStatement(statement);
        }
      }
    }

    method AddMetadataForStatement(statement: Statement)
      requires Valid()
      modifies this
      ensures Valid() && SettingsUnchanged()
      ensures Accumulated() == MetaForStatement(metadataReader, old(Accumulated()), statement)
    {
      if !statementClasses.ContainsKey(statement.Class) {
        var statementClass := metadataReader.GetStatementClassByKey(statement.Class);
        if statementClass.Some? {
          var sc := statementClass.value;
          statementClasses := statementClasses.Add(statement.Class, sc);
          if sc.PropertyClasses.Some? {
            AddPropertyClassMetadata(sc.PropertyClasses.value);
          }
          if sc.SubjectClasses.Some? {
            AddMetadataForResourceKeys(sc.SubjectClasses.value);
          }
          if sc.ObjectClasses.Some? {
            AddMetadataForResourceKeys(sc.ObjectClasses.value);
          }
        }
      }
    }

    /** The loops over a statement class's subject or object classes. */
    method AddMetadataForResourceKeys(keys: seq<Key>)
      requires Valid()
      modifies this
      ensures Valid() && SettingsUnchanged()
      ensures Accumulated() == MetaForResources(metadataReader, old(Accumulated()), keys)
    {
      for i := 0 to |keys|
        invariant Valid() && SettingsUnchanged()
        invariant Accumulated() == MetaForResources(metadataReader, old(Accumulated()), keys[..i])
      {
        assert keys[..i + 1][..i] == keys[..i];
        AddMetadataForResource(keys[i]);
      }
      assert keys[..|keys|] == keys;
    }
  }

  /** The flattening of one dictionary: one entry per key, in enumeration order. */
  method CollectValues<V>(d: Dict<V>) returns (vs: seq<V>)
    requires d.Valid()
    ensures |vs| == |d.Order|
    ensures forall i :: 0 <= i < |d.Order| ==> vs[i] == d.Entries[d.Order[i]]
  {
    vs := [];
    for i := 0 to |d.Order|
      invariant |vs| == i
      invariant forall j :: 0 <= j < i ==> vs[j] == d.Entries[d.Order[j]]
    {
      vs := vs + [d.Entries[d.Order[i]]];
    }
  }

  /** The flattening of the property classes, where a present but empty
      enumeration is dropped from each class on the way out. */
  method CollectPropertyClasses(d: Dict<PropertyClass>) returns (vs: seq<PropertyClass>)
    requires d.Valid()
    ensures |vs| == |d.Order|
    ensures forall i :: 0 <= i < |d.Order| ==> vs[i] == NormalizeValues(d.Entries[d.Order[i]])
  {
    vs := [];
    for i := 0 to |d.Order|
      invariant |vs| == i
      invariant forall j :: 0 <= j < i ==> vs[j] == NormalizeValues(d.Entries[d.Order[j]])
    {
      var propertyClass := d.Entries[d.Order[i]];
      if propertyClass.Values.Some? && |propertyClass.Values.value| == 0 {
        propertyClass := propertyClass.(Values := None);
      }
      vs := vs + [propertyClass];
    }
  }
}
