/** The SpecIF entities the hierarchy exporter reads and writes.
    Every versionable entity is identified by a Key (ID, Revision); the empty
    revision stands for a reference that names no revision (the source's
    `string.IsNullOrEmpty(Revision)`). */
module SpecIF {

  datatype Option<+T> = None | Some(value: T)

  datatype Result<+T, +E> = Success(value: T) | Failure(error: E)

  datatype Key = Key(ID: string, Revision: string)

  /** A hierarchy node: an optional reference to a resource and its ordered children. */
  datatype Node = Node(ProjectID: string, ResourceReference: Option<Key>, Nodes: seq<Node>)

  datatype Resource = Resource(ID: string, Revision: string, Class: Key) {
    function OwnKey(): Key { Key(ID, Revision) }
  }

  datatype Statement = Statement(ID: string, Revision: string, Class: Key, Subject: Key, Object: Key) {
    function OwnKey(): Key { Key(ID, Revision) }
  }

  datatype ResourceClass = ResourceClass(ID: string, Revision: string, PropertyClasses: seq<Key>)

  /** The three key lists of a statement class may each be absent (null). */
  datatype StatementClass = StatementClass(
    ID: string,
    Revision: string,
    PropertyClasses: Option<seq<Key>>,
    SubjectClasses: Option<seq<Key>>,
    ObjectClasses: Option<seq<Key>>)

  /** `Values` is the optional enumeration of allowed values. */
  datatype PropertyClass = PropertyClass(ID: string, Revision: string, DataType: Key, Values: Option<seq<string>>)

  datatype DataType = DataType(ID: string, Revision: string, Type: string)

  /** The export package: the hierarchy and six flat lists. */
  datatype Package = Package(
    ID: string,
    Generator: string,
    Hierarchies: seq<Node>,
    Resources: seq<Resource>,
    Statements: seq<Statement>,
    ResourceClasses: seq<ResourceClass>,
    StatementClasses: seq<StatementClass>,
    PropertyClasses: seq<PropertyClass>,
    DataTypes: seq<DataType>)

  const Generator: string := "SpecIFicator"

  /** An absent key list enumerates like an empty one. */
  function Listed(keys: Option<seq<Key>>): seq<Key>
  {
    match keys
    case None => []
    case Some(ks) => ks
  }

  /** The subject classes followed by the object classes of a statement class. */
  function Endpoints(sc: StatementClass): seq<Key>
  {
    Listed(sc.SubjectClasses) + Listed(sc.ObjectClasses)
  }

  /** A property class as it is emitted: an empty (but present) enumeration
      is dropped, because an empty enumeration is not a valid constraint. */
  function NormalizeValues(pc: PropertyClass): (r: PropertyClass)
    ensures r.Values != Some([])
    ensures r.(Values := pc.Values) == pc
    ensures r.Values.Some? ==> r.Values == pc.Values
    ensures pc.Values != Some([]) ==> r == pc
  {
    if pc.Values.Some? && |pc.Values.value| == 0 then pc.(Values := None) else pc
  }
}
