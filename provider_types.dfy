/** The kinds of person data provider the registry selects between. */
module ProviderTypes {

  /** PersonDataProviderType: the flat-file provider and the database provider. */
  datatype PersonDataProviderType = CSV | DB
}
