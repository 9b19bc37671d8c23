/** The catalog of concrete indices and aliases. */
module Catalogs {
  import opened Options
  import opened Documents

  datatype Catalog = Catalog(indices: map<string, Index>, aliases: map<string, string>)

  /** A concrete index name wins; an alias is followed one hop. */
  function Resolve(catalog: Catalog, name: string): (r: Option<string>)
    ensures r.Some? ==> r.value in catalog.indices
  {
    if name in catalog.indices then Some(name)
    else if name in catalog.aliases && catalog.aliases[name] in catalog.indices then Some(catalog.aliases[name])
    else None
  }
}
