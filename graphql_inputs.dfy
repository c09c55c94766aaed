/**
 * The listing's GraphQL input types that the front end builds and the back end
 * receives; both sides of the model use this one definition.
 */
module GraphQLInputs {

  /** The requested sort: a field name, ascending when `asc` (1), else descending (-1). */
  datatype SortInput = SortInput(field: string, asc: bool)
}
