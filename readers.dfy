/** The two stores the exporter consults, as immutable lookups.
    A lookup that finds nothing yields None, as the source's readers return null. */
module Readers {
  import opened SpecIF

  datatype MetadataReader = MetadataReader(
    GetResourceClassByKey: Key -> Option<ResourceClass>,
    GetStatementClassByKey: Key -> Option<StatementClass>,
    GetPropertyClassByKey: Key -> Option<PropertyClass>,
    GetDataTypeByKey: Key -> Option<DataType>)

  /** `GetAllResourceRevisions` may return no list at all (null) and a list
      may hold null entries; the statements of a resource are always a list. */
  datatype DataReader = DataReader(
    GetHierarchyByKey: Key -> Option<Node>,
    GetResourceByKey: Key -> Option<Resource>,
    GetAllResourceRevisions: string -> Option<seq<Option<Resource>>>,
    GetAllStatementsForResource: Key -> seq<Statement>)
}
