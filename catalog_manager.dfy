/**
  The catalog list (`src/components/CatalogManager.tsx`): it loads the
  catalogs, opens the editing dialog for a new or an existing catalog, saves
  what the dialog returns and publishes one catalog at a time. Each
  asynchronous handler is split where it waits on the storage service: a
  `…Begin` method runs up to the call and a `…Settled` method takes the way
  the call settled.
*/
module CatalogManagers {
  import opened Wrappers
  import opened Catalogs

  const LoadFailed := "Failed to load catalogs: "
  const PublishFailed := "Failed to publish catalog: "
  const SaveFailed := "Failed to save catalog: "
  const DescriptionPreview := 100

  /** The description as the list shows it: cut to its first 100 characters, with `...`
      after it, when it is longer than that. */
  function ShortDescription(d: string): (r: string)
    ensures |d| <= DescriptionPreview ==> r == d
    ensures |d| > DescriptionPreview ==> |r| == DescriptionPreview + 3 && r[..DescriptionPreview] == d[..DescriptionPreview]
                                         && r[DescriptionPreview..] == "..."
  {
    if |d| > DescriptionPreview then d[..DescriptionPreview] + "..." else d
  }

  /** The preview never exceeds 103 characters, starts like the description and is its own
      preview. */
  lemma ShortDescriptionBounds(d: string)
    ensures |ShortDescription(d)| <= DescriptionPreview + 3
    ensures forall k :: 0 <= k < |ShortDescription(d)| && k < DescriptionPreview && k < |d| ==> ShortDescription(d)[k] == d[k]
    ensures ShortDescription(ShortDescription(d)) == ShortDescription(d)
  {
    if |d| > DescriptionPreview {
      var r := ShortDescription(d);
      assert r[..DescriptionPreview] == d[..DescriptionPreview];
      assert r[..DescriptionPreview] + "..." == r;
    }
  }

  class CatalogManager {
    /** The storage service endpoint handed to `publishCatalog`. */
    const previewEndpoint: string
    var catalogs: seq<CatalogEntry>
    var loading: bool
    var error: Option<string>
    var modalOpen: bool
    var selectedCatalog: Option<CatalogEntry>
    var publishingId: Option<string>
    /** The requests made to the storage service, in order. */
    var calls: seq<CatalogCall>

    constructor(previewEndpoint: string)
      ensures this.previewEndpoint == previewEndpoint
      ensures catalogs == [] && !loading && error.None? && !modalOpen
      ensures selectedCatalog.None? && publishingId.None? && calls == []
    {
      this.previewEndpoint := previewEndpoint;
      catalogs := [];
      loading := false;
      error := None;
      modalOpen := false;
      selectedCatalog := None;
      publishingId := None;
      calls := [];
    }

    /** The publish button of a catalog is disabled while loading, for a published catalog
        and while that catalog is being published. */
    predicate PublishDisabled(c: CatalogEntry): (r: bool)
      reads this
      ensures c.published ==> r
      ensures publishingId == Some(c.catalogId) ==> r
      ensures !loading && publishingId.None? ==> (r <==> c.published)
    {
      loading || c.published || publishingId == Some(c.catalogId)
    }

    /** `loadCatalogs` up to the listing request (also the mount effect). */
    method LoadBegin()
      modifies this
      ensures loading && error.None?
      ensures calls == old(calls) + [ListCatalogs]
      ensures catalogs == old(catalogs) && modalOpen == old(modalOpen)
      ensures selectedCatalog == old(selectedCatalog) && publishingId == old(publishingId)
    {
      loading := true;
      error := None;
      calls := calls + [ListCatalogs];
    }

    /** `loadCatalogs` once the listing settles: the list replaces the shown one, or the
        failure is reported and the old list stays; loading ends either way. */
    method LoadSettled(listing: Result<seq<CatalogEntry>>)
      modifies this
      ensures !loading
      ensures listing.Success? ==> catalogs == listing.value && error == old(error)
      ensures listing.Failure? ==> catalogs == old(catalogs) && error == Some(LoadFailed + listing.error)
      ensures calls == old(calls) && modalOpen == old(modalOpen)
      ensures selectedCatalog == old(selectedCatalog) && publishingId == old(publishingId)
    {
      if listing.Success? {
        catalogs := listing.value;
      } else {
        error := Some(LoadFailed + listing.error);
      }
      loading := false;
    }

    /** A whole `loadCatalogs`, with the listing settling as given. */
    method Load(listing: Result<seq<CatalogEntry>>)
      modifies this
      ensures !loading
      ensures listing.Success? ==> catalogs == listing.value && error.None?
      ensures listing.Failure? ==> catalogs == old(catalogs) && error == Some(LoadFailed + listing.error)
      ensures calls == old(calls) + [ListCatalogs]
      ensures modalOpen == old(modalOpen) && selectedCatalog == old(selectedCatalog) && publishingId == old(publishingId)
    {
      LoadBegin();
      LoadSettled(listing);
    }

    /** `handleCreateCatalog`: the dialog opens for a new catalog. */
    method HandleCreateCatalog()
      modifies this
      ensures modalOpen && selectedCatalog.None?
      ensures catalogs == old(catalogs) && loading == old(loading) && error == old(error)
      ensures publishingId == old(publishingId) && calls == old(calls)
    {
      selectedCatalog := None;
      modalOpen := true;
    }

    /** `handleEditCatalog`: the dialog opens on the chosen catalog. */
    method HandleEditCatalog(c: CatalogEntry)
      modifies this
      ensures modalOpen && selectedCatalog == Some(c)
      ensures catalogs == old(catalogs) && loading == old(loading) && error == old(error)
      ensures publishingId == old(publishingId) && calls == old(calls)
    {
      selectedCatalog := Some(c);
      modalOpen := true;
    }

    /** `handlePublishCatalog` up to the publish request: the catalog is marked as being
        published, which disables its publish button. */
    method PublishBegin(c: CatalogEntry)
      modifies this
      ensures publishingId == Some(c.catalogId)
      ensures PublishDisabled(c)
      ensures calls == old(calls) + [PublishCatalog(c, previewEndpoint)]
      ensures catalogs == old(catalogs) && loading == old(loading) && error == old(error)
      ensures modalOpen == old(modalOpen) && selectedCatalog == old(selectedCatalog)
    {
      publishingId := Some(c.catalogId);
      calls := calls + [PublishCatalog(c, previewEndpoint)];
    }

    /** `handlePublishCatalog` once the request settles: a published catalog is followed by a
        reload (settling as `listing`), a failure is reported; either way nothing is being
        published afterwards. */
    method PublishSettled(outcome: Outcome, listing: Result<seq<CatalogEntry>>)
      modifies this
      ensures publishingId.None?
      ensures forall e :: PublishDisabled(e) <==> loading || e.published
      ensures outcome.Pass? ==> calls == old(calls) + [ListCatalogs] && !loading
                                && (listing.Success? ==> catalogs == listing.value && error.None?)
                                && (listing.Failure? ==> catalogs == old(catalogs) && error == Some(LoadFailed + listing.error))
      ensures outcome.Fail? ==> calls == old(calls) && catalogs == old(catalogs) && loading == old(loading)
                                && error == Some(PublishFailed + outcome.error)
      ensures modalOpen == old(modalOpen) && selectedCatalog == old(selectedCatalog)
    {
      if outcome.Pass? {
        Load(listing);
      } else {
        error := Some(PublishFailed + outcome.error);
      }
      publishingId := None;
    }

    /** `handleSaveCatalog` up to the save request: an edited catalog is sent as an update
        and becomes a draft again; a new one is sent as a creation. */
    method SaveBegin(c: CatalogEntry)
      modifies this
      ensures loading
      ensures selectedCatalog.Some? ==> calls == old(calls) + [UpdateCatalog(c.(published := false))]
      ensures selectedCatalog.None? ==> calls == old(calls) + [CreateCatalog(c)]
      ensures catalogs == old(catalogs) && error == old(error) && modalOpen == old(modalOpen)
      ensures selectedCatalog == old(selectedCatalog) && publishingId == old(publishingId)
    {
      loading := true;
      if selectedCatalog.Some? {
        calls := calls + [UpdateCatalog(c.(published := false))];
      } else {
        calls := calls + [CreateCatalog(c)];
      }
    }

    /** `handleSaveCatalog` once the request settles: a saved catalog closes the dialog and
        reloads the list (settling as `listing`); a failure is reported and the dialog stays
        open. Loading ends either way. */
    method SaveSettled(outcome: Outcome, listing: Result<seq<CatalogEntry>>)
      modifies this
      ensures !loading
      ensures outcome.Pass? ==> !modalOpen && calls == old(calls) + [ListCatalogs]
                                && (listing.Success? ==> catalogs == listing.value && error.None?)
                                && (listing.Failure? ==> catalogs == old(catalogs) && error == Some(LoadFailed + listing.error))
      ensures outcome.Fail? ==> modalOpen == old(modalOpen) && calls == old(calls) && catalogs == old(catalogs)
                                && error == Some(SaveFailed + outcome.error)
      ensures selectedCatalog == old(selectedCatalog) && publishingId == old(publishingId)
    {
      if outcome.Pass? {
        modalOpen := false;
        Load(listing);
      } else {
        error := Some(SaveFailed + outcome.error);
      }
      loading := false;
    }
  }

  /** Editing a catalog and saving it sends one update of that catalog as a draft, closes the
      dialog and leaves the freshly listed catalogs on screen. */
  method EditAndSave(m: CatalogManager, c: CatalogEntry, edited: CatalogEntry, listed: seq<CatalogEntry>)
    modifies m
    ensures m.calls == old(m.calls) + [UpdateCatalog(edited.(published := false)), ListCatalogs]
    ensures !m.modalOpen && !m.loading && m.error.None? && m.catalogs == listed
    ensures m.selectedCatalog == Some(c)
  {
    m.HandleEditCatalog(c);
    m.SaveBegin(edited);
    m.SaveSettled(Pass, Success(listed));
  }
}
