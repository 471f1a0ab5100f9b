/**
  `CatalogEntry` (`src/helpers/CatalogEntry.ts`) and the catalog calls the
  components make on the storage service, whose effects are not modelled: each
  call is recorded, and how it settled is handed to the component.
*/
module Catalogs {

  datatype CatalogEntry = CatalogEntry(
    catalogId: string,
    title: string,
    imageKey: string,
    description: string,
    published: bool,
    createdAt: string)

  /** A catalog request made to the storage service. */
  datatype CatalogCall =
    | ListCatalogs
    | CreateCatalog(entry: CatalogEntry)
    | UpdateCatalog(entry: CatalogEntry)
    | PublishCatalog(entry: CatalogEntry, endpoint: string)
}
