# HierarchyExporter, modelled in Dafny

`HierarchyExporter` (src/MDD4All.SpecIF.Converters/HierarchyExporter.cs) turns one hierarchy of a
SpecIF repository into a self-contained SpecIF package. It fetches the root node, walks the tree
depth first and pulls in the resource every node references: one revision, or every revision when
revisions are included. With statements included it also pulls in every statement of each exported
resource. With metadata included it pulls in every class those instances use, transitively: the
resource and statement classes, their property classes, the property classes' data types, and the
subject and object classes of each statement class. Six key-indexed dictionaries de-duplicate what
is collected. The package lists their values in insertion order. On the way out, any property class
whose value list is empty gets a null list instead.

The model has two layers.

- Module `Closure` (closure.dfy) states each operation of the exporter as a function on an immutable
  record of the six dictionaries (`Accumulators`). An operation that can hit the duplicate-key
  exception returns a `Result`.
- Module `Exporter` (exporter.dfy) is the class itself. It has the two reader fields, the six
  dictionary fields, the hierarchy field and the three flag fields. Its methods update those fields
  step by step, with the same loops as the source. Every method is proved to leave the fields
  exactly as the matching `Closure` function says.

The properties are proved about the functions:

- `Traversal`: the walk visits every node once, in depth-first order, and an exception ends it.
- `MetadataClosure` and `InstanceClosure`: the closure invariant (everything a stored item names is stored).
- `MetadataReached`: its converse (every stored class, property class and data type is named by something stored).
- `WalkProperties`: flag frames, coverage of every node reference, and soundness.
- `PackageProperties`: the package-level statements.
- `RevisionExpansion`: with revisions included, every revision of every referenced ID is exported.
  This holds under one hypothesis on the store: every resource that `GetAllResourceRevisions(id)`
  lists has the ID `id`. A concrete store that breaks the hypothesis shows that it is needed.
- `Duplicates`: when the duplicate-key exception is reached, in general and on two concrete hierarchies.

Modelling choices:

- **Keys** are the pair `(ID, Revision)` with structural equality. A null revision and an empty
  revision are both `""`.
- **Readers** are values holding total lookup functions that return `Option`. A null result is
  `None`. `GetAllResourceRevisions` may return no list, or a list that holds `None` entries.
- **Dictionaries** (`Dicts.Dict`) are a map plus the insertion order of their keys. They are only
  ever cleared and added to, so enumerating one yields its values in that order.
- **Duplicate keys.** `Dictionary.Add` throws on a duplicate key. Only `Resources.Add` can reach
  that throw, because its guard tests the node's reference key, not the key it inserts. The model
  therefore returns `Failure(DuplicateResourceKey(k))` from the export. Every other `Add` is proved
  to be called only on an absent key: `Dict.Add` requires that.
- **Missing root.** The source dereferences the hierarchy returned by `GetHierarchyByKey` without a
  check. The model answers `Failure(HierarchyNotFound(key))` instead of a precondition, so the
  missing case is explicit.

## Model

| member | source | states |
|---|---|---|
| `Exporter.HierarchyExporter.constructor` | src/MDD4All.SpecIF.Converters/HierarchyExporter.cs:12-29 | stores the two readers; all six dictionaries start empty, there is no hierarchy and the three flags are false |
| `Exporter.HierarchyExporter.ExportHierarchy` | src/MDD4All.SpecIF.Converters/HierarchyExporter.cs:32-91 | the result is `Export` of the readers, the key and the three flags alone (no trace of an earlier call); afterwards the flags are the arguments, the hierarchy field is the fetched root and the dictionaries hold exactly the walk's result |
| `Exporter.HierarchyExporter.ClearDictionaries` | src/MDD4All.SpecIF.Converters/HierarchyExporter.cs:93-102 | the hierarchy becomes null and all six dictionaries become empty; the flags are unchanged |
| `Exporter.HierarchyExporter.AddNodeResourcesRecursively` | src/MDD4All.SpecIF.Converters/HierarchyExporter.cs:104-149 | the dictionaries end as `Visit` says from their old contents; a duplicate key is reported exactly when `Visit` fails with that key |
| `Exporter.HierarchyExporter.AddReferencedResources` | src/MDD4All.SpecIF.Converters/HierarchyExporter.cs:106-143 | the node's own part of the walk: the dictionaries end as `NodeOwn` says, or the duplicate key is reported |
| `Exporter.HierarchyExporter.AddResolvedResources` | src/MDD4All.SpecIF.Converters/HierarchyExporter.cs:122-141 | the loop over the resolved list ends as `AddResources` says, stopping at the first duplicate key |
| `Exporter.HierarchyExporter.AddResolvedResource` | src/MDD4All.SpecIF.Converters/HierarchyExporter.cs:126-139 | one resolved resource: `added` is false exactly when `AddResource` fails on its key; otherwise the dictionaries are `AddResource`'s result |
| `Exporter.HierarchyExporter.AddMetadataForResource` | src/MDD4All.SpecIF.Converters/HierarchyExporter.cs:151-196 | the dictionaries end as `MetaForResource` says (canonical key, class, property classes, data types) |
| `Exporter.HierarchyExporter.AddPropertyClassMetadata` | src/MDD4All.SpecIF.Converters/HierarchyExporter.cs:174-193 | the property-class loop ends as `AddPropertyClasses` says |
| `Exporter.HierarchyExporter.AddPropertyClassOfKey` | src/MDD4All.SpecIF.Converters/HierarchyExporter.cs:176-191 | one iteration of the property-class loop: the dictionaries end as `AddPropertyClass` says |
| `Exporter.HierarchyExporter.AddStatementsForResource` | src/MDD4All.SpecIF.Converters/HierarchyExporter.cs:198-215 | the dictionaries end as `StatementsForResource` says |
| `Exporter.HierarchyExporter.AddStatementOfResource` | src/MDD4All.SpecIF.Converters/HierarchyExporter.cs:202-214 | one statement of the loop: the dictionaries end as `AddStatement` says |
| `Exporter.HierarchyExporter.AddMetadataForStatement` | src/MDD4All.SpecIF.Converters/HierarchyExporter.cs:217-268 | the dictionaries end as `MetaForStatement` says |
| `Exporter.HierarchyExporter.AddMetadataForResourceKeys` | src/MDD4All.SpecIF.Converters/HierarchyExporter.cs:251-265 | the subject-class or object-class loop ends as `MetaForResources` says |
| `Exporter.CollectValues` | src/MDD4All.SpecIF.Converters/HierarchyExporter.cs:54-57 | the output list has one entry per key, and entry i is the value stored under the i-th key in enumeration order |
| `Exporter.CollectPropertyClasses` | src/MDD4All.SpecIF.Converters/HierarchyExporter.cs:74-83 | as `CollectValues`, with each property class passed through `NormalizeValues` |
| `SpecIF.NormalizeValues` | src/MDD4All.SpecIF.Converters/HierarchyExporter.cs:77-80 | the result never has an empty value list; only `Values` may differ; a non-empty or null list is kept and a class with a non-empty or null list is returned unchanged |
| `Dicts.Dict.Add` | src/MDD4All.SpecIF.Converters/HierarchyExporter.cs:172 | `Dictionary.Add` on an absent key: the key is mapped to the value and appended to the enumeration order, and the dictionary stays valid |
| `Dicts.Dict.Values` | src/MDD4All.SpecIF.Converters/HierarchyExporter.cs:54-57 | enumeration yields every stored value, and only stored values (each position holds the value of a key of the map), one per key, in the order the keys were inserted |
| `Dicts.ValueStored` | src/MDD4All.SpecIF.Converters/HierarchyExporter.cs:54-57 | every enumerated value is stored under some key |
| `Closure.AddPropertyClass` | src/MDD4All.SpecIF.Converters/HierarchyExporter.cs:176-191 | one property-class key: afterwards the key is stored whenever the reader resolves it; a class stored now is the reader's and comes with its data type when the reader resolves that; nothing stored before is lost; instances and resource and statement classes are untouched |
| `Closure.AddPropertyClasses` | src/MDD4All.SpecIF.Converters/HierarchyExporter.cs:174-193 | the property-class loop changes neither instances nor resource and statement classes, and keeps the dictionaries valid |
| `Closure.ResourceClassKey` | src/MDD4All.SpecIF.Converters/HierarchyExporter.cs:153-162 | a class reference is kept as given unless it names no revision and the reader finds a class for it; then the found class's own (ID, Revision) is used, so the key under which a class is stored is the class's own identity (see the three lemmas below) |
| `MetadataClosure.CanonicalKeyPresent` | src/MDD4All.SpecIF.Converters/HierarchyExporter.cs:153-164 | the membership test uses the canonicalised key: once that key is stored, adding metadata for the reference changes nothing |
| `MetadataClosure.MetaForResourceIdempotent` | src/MDD4All.SpecIF.Converters/HierarchyExporter.cs:153-196 | adding the metadata of one class reference twice is the same as adding it once |
| `MetadataClosure.CanonicalKeyMerges` | src/MDD4All.SpecIF.Converters/HierarchyExporter.cs:153-172 | a reference with no revision and the full key of the class it resolves to canonicalise to the same key, so the class is stored once whichever form is met first |
| `Closure.MetaForResource` | src/MDD4All.SpecIF.Converters/HierarchyExporter.cs:151-196 | adding a resource class's metadata changes no instance and no statement class |
| `Closure.MetaForResources` | src/MDD4All.SpecIF.Converters/HierarchyExporter.cs:251-265 | adding the metadata of a list of resource-class references changes no instance and no statement class, and keeps the dictionaries valid |
| `Closure.MetaForStatement` | src/MDD4All.SpecIF.Converters/HierarchyExporter.cs:217-268 | adding a statement class's metadata changes no instance |
| `Closure.AddStatement` | src/MDD4All.SpecIF.Converters/HierarchyExporter.cs:204-213 | a statement whose key is already stored changes no statement; otherwise it is stored under its own key and appended to the order; Resources never changes, and without metadata no class does |
| `Closure.AddStatements` | src/MDD4All.SpecIF.Converters/HierarchyExporter.cs:202-214 | the statement loop never changes Resources, and without metadata it changes no class |
| `Closure.StatementsForResource` | src/MDD4All.SpecIF.Converters/HierarchyExporter.cs:198-215 | adding a resource's statements never changes Resources, and without metadata it changes no class |
| `Closure.AddResource` | src/MDD4All.SpecIF.Converters/HierarchyExporter.cs:126-139 | fails, with the resource's own key, exactly when that key is already in Resources; otherwise Resources gains exactly that entry, and metadata or statements change only when their flag is on |
| `Closure.AddResources` | src/MDD4All.SpecIF.Converters/HierarchyExporter.cs:122-141 | nothing stored in Resources is lost or replaced, and at most one resource is added per list entry; metadata and statements change only when their flags are on |
| `Closure.ResolveReference` | src/MDD4All.SpecIF.Converters/HierarchyExporter.cs:110-120 | with revisions a reference stands for the store's revision list of its ID, whatever revision it names; without, for exactly one lookup by the full key, which may be null |
| `Closure.NodeOwn` | src/MDD4All.SpecIF.Converters/HierarchyExporter.cs:106-143 | without revisions a node adds at most one resource; metadata and statements change only when their flags are on |
| `Closure.Visit` | src/MDD4All.SpecIF.Converters/HierarchyExporter.cs:104-149 | a successful walk of a subtree loses or replaces no stored resource; without metadata it changes no class and without statements no statement |
| `Closure.VisitAll` | src/MDD4All.SpecIF.Converters/HierarchyExporter.cs:145-148 | the same for the walk of a list of sibling subtrees |
| `Closure.NormalizeAll` | src/MDD4All.SpecIF.Converters/HierarchyExporter.cs:74-83 | one class out per class in; no class out has an empty enumeration; each differs from its input in the enumeration at most, and a class without an empty enumeration is unchanged |
| `Closure.Assemble` | src/MDD4All.SpecIF.Converters/HierarchyExporter.cs:47-88 | the package has the root's ProjectID, the generator "SpecIFicator" and the root as its only hierarchy; it lists every stored resource and statement, one entry per key; its property classes, one per key, have no empty enumeration |
| `Closure.Export` | src/MDD4All.SpecIF.Converters/HierarchyExporter.cs:45-52 | fails with `HierarchyNotFound` exactly when the root lookup finds nothing; a package has the fetched root as its only hierarchy, the root's ProjectID as its ID and "SpecIFicator" as generator; `DuplicateResourceKey(k)` means the walk failed on `k` |
| `Traversal.AddResourcesFailurePersists` | src/MDD4All.SpecIF.Converters/HierarchyExporter.cs:124-141 | once adding a prefix of the resolved list throws, adding the whole list throws with the same key |
| `Traversal.VisitAllFailurePersists` | src/MDD4All.SpecIF.Converters/HierarchyExporter.cs:145-148 | once walking a prefix of the children throws, walking them all throws with the same key |
| `Traversal.StepsAppend` | src/MDD4All.SpecIF.Converters/HierarchyExporter.cs:145-148 | the node steps over two lists in a row are the steps over their concatenation |
| `Traversal.VisitAllStep` | src/MDD4All.SpecIF.Converters/HierarchyExporter.cs:145-148 | walking one more child continues the walk of the children before it |
| `Traversal.VisitIsPreorderFold` | src/MDD4All.SpecIF.Converters/HierarchyExporter.cs:104-149 | the recursive walk is the node step applied once to each node of the tree, in depth-first order |
| `Traversal.VisitAllIsPreorderFold` | src/MDD4All.SpecIF.Converters/HierarchyExporter.cs:145-148 | the same for a list of sibling subtrees |
| `Traversal.SkippedNodeStillRecurses` | src/MDD4All.SpecIF.Converters/HierarchyExporter.cs:106-108 | a node with no reference, or whose reference key is already in Resources, adds nothing itself, yet all its children are walked |
| `MetadataClosure.PropertyClassesAdded` | src/MDD4All.SpecIF.Converters/HierarchyExporter.cs:174-193 | after the property-class loop every listed key that the reader resolves is in PropertyClasses, and nothing stored before is lost |
| `MetadataClosure.PropertyClassesSound` | src/MDD4All.SpecIF.Converters/HierarchyExporter.cs:176-190 | the loop keeps every stored property class and data type the reader's, and every stored property class's resolvable data type stored |
| `MetadataClosure.ResourceClassAdded` | src/MDD4All.SpecIF.Converters/HierarchyExporter.cs:153-172 | afterwards the canonical key of the reference (the found class's own key when the revision is empty) is in ResourceClasses whenever the reader resolves it |
| `MetadataClosure.ResourceClassesAdded` | src/MDD4All.SpecIF.Converters/HierarchyExporter.cs:251-265 | after the subject-class or object-class loop every listed class reference is covered |
| `MetadataClosure.ResourceClassClosed` | src/MDD4All.SpecIF.Converters/HierarchyExporter.cs:164-195 | adding a resource class keeps the closure: it is stored with all its resolvable property classes and their data types |
| `MetadataClosure.ResourceClassesClosed` | src/MDD4All.SpecIF.Converters/HierarchyExporter.cs:251-265 | the resource-class loop keeps that closure |
| `MetadataClosure.StatementClassAdded` | src/MDD4All.SpecIF.Converters/HierarchyExporter.cs:219-225 | the statement's class key, as given, is in StatementClasses whenever the reader resolves it |
| `MetadataClosure.StatementClassClosed` | src/MDD4All.SpecIF.Converters/HierarchyExporter.cs:217-268 | adding a statement class keeps the whole metadata closure, including its subject and object classes |
| `MetadataClosure.NewStatementClassEndpoints` | src/MDD4All.SpecIF.Converters/HierarchyExporter.cs:251-265 | after a new statement class's subject and object classes are added, every stored statement class has its endpoints |
| `WalkProperties.StepsFrames` | src/MDD4All.SpecIF.Converters/HierarchyExporter.cs:112-138 | over any node sequence: without metadata no class changes, without statements Statements does not change, without revisions at most one resource is added per node reference |
| `WalkProperties.StatementsGrow` | src/MDD4All.SpecIF.Converters/HierarchyExporter.cs:198-215 | every listed statement's key is in Statements afterwards, and nothing stored before is lost |
| `WalkProperties.StatementsFromList` | src/MDD4All.SpecIF.Converters/HierarchyExporter.cs:202-214 | the statement loop keeps every stored statement as it was, and every statement it newly stores is one of the list |
| `WalkProperties.ResourceGrows` | src/MDD4All.SpecIF.Converters/HierarchyExporter.cs:126-139 | adding a resource loses nothing, and with statements included every statement the store lists for it is then stored by key |
| `WalkProperties.ResourcesKeepStatementsComplete` | src/MDD4All.SpecIF.Converters/HierarchyExporter.cs:135-138 | with statements included, every stored resource keeps all its statements stored |
| `WalkProperties.ResourceKeepsStatementsSound` | src/MDD4All.SpecIF.Converters/HierarchyExporter.cs:126-139 | a resource is stored before its statements, so every stored statement keeps a stored resource the store lists it for |
| `WalkProperties.ResourcesKeepStatementsSound` | src/MDD4All.SpecIF.Converters/HierarchyExporter.cs:122-141 | the resolved-list loop keeps every stored statement owned by a stored resource |
| `WalkProperties.StepsKeepStatementsSound` | src/MDD4All.SpecIF.Converters/HierarchyExporter.cs:104-149 | the walk keeps every stored statement owned by a stored resource |
| `WalkProperties.ResourcesGrow` | src/MDD4All.SpecIF.Converters/HierarchyExporter.cs:122-141 | every non-null resolved resource is stored under its own key, and nothing else is added |
| `WalkProperties.NodeGrows` | src/MDD4All.SpecIF.Converters/HierarchyExporter.cs:106-143 | after a node's step its reference key is in Resources, or every resource it resolves to is; everything added is one of those |
| `WalkProperties.StepsGrow` | src/MDD4All.SpecIF.Converters/HierarchyExporter.cs:104-149 | over a node sequence: every node's reference is covered, every stored resource was there before or comes from some node's reference, and statements stay complete |
| `InstanceClosure.StatementClosed` | src/MDD4All.SpecIF.Converters/HierarchyExporter.cs:204-212 | with metadata included, adding a statement keeps the whole closure, and the statement's class is stored |
| `InstanceClosure.StatementsClosed` | src/MDD4All.SpecIF.Converters/HierarchyExporter.cs:198-215 | the statement loop keeps the whole closure |
| `InstanceClosure.ResourceClosed` | src/MDD4All.SpecIF.Converters/HierarchyExporter.cs:128-138 | with metadata included, adding a resource keeps the whole closure, with the resource's class and its statements' classes |
| `InstanceClosure.ResourcesClosed` | src/MDD4All.SpecIF.Converters/HierarchyExporter.cs:122-141 | the resolved-list loop keeps the whole closure |
| `InstanceClosure.StepsClosed` | src/MDD4All.SpecIF.Converters/HierarchyExporter.cs:104-149 | the walk keeps the whole closure |
| `PackageProperties.AssembledClosed` | src/MDD4All.SpecIF.Converters/HierarchyExporter.cs:54-88 | a package listed from closed dictionaries is closed as a package |
| `PackageProperties.ExportClosed` | src/MDD4All.SpecIF.Converters/HierarchyExporter.cs:32-91 | with metadata included the package is self-describing, for every class the reader resolves: each resource's class, each statement's class, each class's property classes (normalised), each statement class's subject and object classes, and each property class's data type are in it |
| `PackageProperties.ExportFlagsOff` | src/MDD4All.SpecIF.Converters/HierarchyExporter.cs:112-138 | without metadata the four metadata lists are empty; without statements the statement list is empty; without revisions there are no more resources than node references in the tree |
| `PackageProperties.ExportCoversReferences` | src/MDD4All.SpecIF.Converters/HierarchyExporter.cs:104-149 | for every node of the tree, a resource with the reference's key is exported, or every resource the reference resolves to is |
| `PackageProperties.ExportSound` | src/MDD4All.SpecIF.Converters/HierarchyExporter.cs:106-141 | every exported resource is one that some node's reference resolves to |
| `PackageProperties.ExportStatementsComplete` | src/MDD4All.SpecIF.Converters/HierarchyExporter.cs:198-215 | with statements included, every statement the store lists for an exported resource is exported by key |
| `PackageProperties.ExportStatementsSound` | src/MDD4All.SpecIF.Converters/HierarchyExporter.cs:128-138 | every exported statement is one the store lists for some exported resource (statements enter only through their resource) |
| `PackageProperties.ExportKeysUnique` | src/MDD4All.SpecIF.Converters/HierarchyExporter.cs:54-62 | no two exported resources share an (ID, Revision), and no two exported statements do |
| `PackageProperties.ExportNormalized` | src/MDD4All.SpecIF.Converters/HierarchyExporter.cs:74-83 | no exported property class has an empty value list; with metadata included each one is a property class of the reader, normalised |
| `MetadataReached.AddPropertyClassReaches` | src/MDD4All.SpecIF.Converters/HierarchyExporter.cs:174-190 | adding one listed property-class key stores a property class only under that key, and a data type only as that class's data type, so every stored metadata key still has a reason to be stored |
| `MetadataReached.AddPropertyClassesReach` | src/MDD4All.SpecIF.Converters/HierarchyExporter.cs:174-191 | the property-class loop keeps every stored metadata key reached when every key of the list is listed by a stored class |
| `MetadataReached.MetaForResourceReaches` | src/MDD4All.SpecIF.Converters/HierarchyExporter.cs:151-196 | adding a resource class whose canonical key is the class of a stored resource or an endpoint of a stored statement class keeps every metadata key reached; the property classes it adds are listed by it |
| `MetadataReached.MetaForResourcesReach` | src/MDD4All.SpecIF.Converters/HierarchyExporter.cs:253-264 | the subject and object loops keep every metadata key reached when every key of the list is reached as a resource class |
| `MetadataReached.MetaForStatementReaches` | src/MDD4All.SpecIF.Converters/HierarchyExporter.cs:217-268 | adding the class of a stored statement keeps every metadata key reached: its property classes are listed by it, and its subject and object classes are its endpoints |
| `MetadataReached.AddStatementReaches` | src/MDD4All.SpecIF.Converters/HierarchyExporter.cs:204-213 | adding a statement, with its class when metadata is included, keeps every metadata key reached |
| `MetadataReached.AddStatementsReach` | src/MDD4All.SpecIF.Converters/HierarchyExporter.cs:198-215 | the statement loop keeps every metadata key reached |
| `MetadataReached.AddResourceReaches` | src/MDD4All.SpecIF.Converters/HierarchyExporter.cs:126-138 | adding a resource, with its class metadata and its statements as the flags say, keeps every metadata key reached |
| `MetadataReached.AddResourcesReach` | src/MDD4All.SpecIF.Converters/HierarchyExporter.cs:124-140 | the resolved-list loop keeps every metadata key reached |
| `MetadataReached.StepsReach` | src/MDD4All.SpecIF.Converters/HierarchyExporter.cs:104-149 | the walk keeps every metadata key reached: each resource-class key is the canonical key of a stored resource's class or of a stored statement class's endpoint, each statement-class key a stored statement's class, each property-class key listed by a stored class, each data-type key a stored property class's data type |
| `MetadataReached.AssembledResourceClassesReached` | src/MDD4All.SpecIF.Converters/HierarchyExporter.cs:64-67 | each listed resource class is the reader's class for the canonical key of a listed resource's class or of a listed statement class's endpoint |
| `MetadataReached.AssembledStatementClassesReached` | src/MDD4All.SpecIF.Converters/HierarchyExporter.cs:69-72 | each listed statement class is the reader's class for a listed statement's class |
| `MetadataReached.AssembledPropertyClassesReached` | src/MDD4All.SpecIF.Converters/HierarchyExporter.cs:74-83 | each listed property class is the reader's property class, normalised, for a key that a listed class lists |
| `MetadataReached.AssembledDataTypesReached` | src/MDD4All.SpecIF.Converters/HierarchyExporter.cs:85-88 | each listed data type is the reader's data type for a listed property class's data type |
| `MetadataReached.ExportMetadataSound` | src/MDD4All.SpecIF.Converters/HierarchyExporter.cs:32-91 | the converse of `ExportClosed`: every exported resource class, statement class, property class and data type is there because an exported resource, statement or class names it |
| `RevisionExpansion.NodeKeepsRevisionsComplete` | src/MDD4All.SpecIF.Converters/HierarchyExporter.cs:106-143 | with revisions included and the store hypothesis, one node's step keeps the invariant that the whole revision list of every stored resource's ID is stored |
| `RevisionExpansion.CoveredNodeExpanded` | src/MDD4All.SpecIF.Converters/HierarchyExporter.cs:106-115 | with revisions included, a node whose reference is covered (its key stored, or its revision list added) has the whole revision list of its reference's ID stored |
| `RevisionExpansion.StepsKeepRevisionsComplete` | src/MDD4All.SpecIF.Converters/HierarchyExporter.cs:104-149 | the walk keeps the whole revision list of every stored resource's ID stored |
| `RevisionExpansion.ExportExpandsRevisions` | src/MDD4All.SpecIF.Converters/HierarchyExporter.cs:112-115 | with revisions included, a successful export holds every revision `GetAllResourceRevisions` lists for the ID of every node reference in the tree, even when the node's own key was already stored; this needs the store hypothesis that every listed revision has that ID |
| `RevisionExpansion.StrayRevisionHidesList` | src/MDD4All.SpecIF.Converters/HierarchyExporter.cs:108-115 | without the store hypothesis the expansion can miss revisions: a store that lists revision ("B", "1") under the ID "A" makes the export skip the second revision of "B" |
| `Duplicates.ResolvedDuplicateFails` | src/MDD4All.SpecIF.Converters/HierarchyExporter.cs:124-130 | in general: when a resolved list holds a resource whose own key is already stored, adding the list throws |
| `Duplicates.NodeDuplicateFails` | src/MDD4All.SpecIF.Converters/HierarchyExporter.cs:106-130 | in general: a node whose reference key is not stored, but whose resolution holds a resource whose own key is stored, makes the walk throw |
| `Duplicates.EmptyRevisionResolvesToPresentKey` | src/MDD4All.SpecIF.Converters/HierarchyExporter.cs:108-129 | concrete witness: for a two-child hierarchy whose second child's reference has an empty revision and a store that resolves it, without revisions, to the revision the first child added, the export fails with that key |
| `Duplicates.RevisionListOverlapsPresentKeys` | src/MDD4All.SpecIF.Converters/HierarchyExporter.cs:108-129 | concrete witness: for a two-child hierarchy and a store in which, with revisions, the second child's revision list overlaps resources the first child added, the export fails with the first repeated key |

## Left out

- Reader internals: persistence, files and databases. The readers are fixed lookup functions, and each call is deterministic.
- The SpecIF package's serialisation and the other members of the package type. The package is a record of lists.
- `Key.Equals` and `GetHashCode`: key equality is structural on (ID, Revision). A null revision and an empty one are the same value `""`.
- The public setters of the four metadata dictionaries. The dictionaries are the exporter's private state.
- Concurrency. The class is not synchronised and is modelled as single-threaded.
- The state after the duplicate-key exception. The source leaves the dictionaries partly filled; the model reports `DuplicateResourceKey` and makes no claim about the dictionaries afterwards.
- Null references the source dereferences without a check, which would throw: a resource's `Class` (:155), a statement's `Class` (`ContainsKey(null)` at :219), a property class's `DataType` (:183 and :238), a node's `Nodes` list (:145) and a null entry of a resource's statement list (:204). The model types these keys, lists and entries as always present, so it excludes those inputs.
- Null lists the source iterates without a check. These are `ResourceClass.PropertyClasses` and the statements list returned for a resource. The model types them as always present lists.
- In-place normalisation. The source sets `Values` to null on the shared `PropertyClass` object, which the reader may also hold. The model normalises only the copy in the output list.
- Dictionary enumeration order is taken to be insertion order. This holds because the source only clears and adds.
- Class de-duplication is by the key the class is stored under, not by the class's own (ID, Revision). The source stores resource classes under the canonical key and statement classes under the key as given.
- The exporter methods `AddReferencedResources`, `AddResolvedResources`, `AddResolvedResource`, `AddPropertyClassOfKey`, `AddStatementOfResource` and `AddMetadataForResourceKeys` are pieces of the source's methods, split out as methods; the source has no methods by those names. `AddReferencedResources` is the `if` block at src/MDD4All.SpecIF.Converters/HierarchyExporter.cs:106-143, `AddResolvedResources` the whole `foreach` at :124-140, `AddMetadataForResourceKeys` the whole `foreach` at :253-256 and at :261-264; `AddResolvedResource`, `AddPropertyClassOfKey` and `AddStatementOfResource` are the bodies of the loops at :124-140, :174-192 / :229-247 and :202-214.
