/**
  The catalog picker (`src/components/CatalogSelectModal.tsx`): when opened it
  lists the published catalogs only, the user marks one, and `Select` hands
  that catalog's id and title to `onSelect`.
*/
module CatalogSelectModals {
  import opened Wrappers
  import opened Catalogs
  import opened Sequences

  const LoadFailed := "Failed to load catalogs: "
  const NothingSelected := "Please select a catalog"

  /** `catalogList.filter(catalog => catalog.published)`. */
  function PublishedOnly(cs: seq<CatalogEntry>): (r: seq<CatalogEntry>)
    ensures forall k :: 0 <= k < |r| ==> r[k].published
    ensures forall c :: c in r <==> c in cs && c.published
    ensures |r| <= |cs|
  {
    if cs == [] then []
    else if cs[0].published then [cs[0]] + PublishedOnly(cs[1..])
    else PublishedOnly(cs[1..])
  }

  /** Filtering works entry by entry, so the published entries keep their order. */
  lemma {:induction false} PublishedOnlyAppend(a: seq<CatalogEntry>, b: seq<CatalogEntry>)
    ensures PublishedOnly(a + b) == PublishedOnly(a) + PublishedOnly(b)
  {
    if a == [] {
      assert a + b == b;
    } else {
      assert (a + b)[0] == a[0];
      assert (a + b)[1..] == a[1..] + b;
      PublishedOnlyAppend(a[1..], b);
    }
  }

  /** The published catalogs are listed in the order the service gave them. */
  lemma {:induction false} PublishedOnlyIsSubsequence(cs: seq<CatalogEntry>)
    ensures IsSubsequence(PublishedOnly(cs), cs)
  {
    if cs != [] {
      PublishedOnlyIsSubsequence(cs[1..]);
      if cs[0].published {
        assert PublishedOnly(cs)[0] == cs[0];
        assert PublishedOnly(cs)[1..] == PublishedOnly(cs[1..]);
      }
    }
  }

  /** A list of published catalogs is left as it is; in particular filtering twice is filtering once. */
  lemma {:induction false} PublishedOnlyKeepsPublished(cs: seq<CatalogEntry>)
    requires forall k :: 0 <= k < |cs| ==> cs[k].published
    ensures PublishedOnly(cs) == cs
  {
    if cs != [] {
      PublishedOnlyKeepsPublished(cs[1..]);
    }
  }

  lemma PublishedOnlyIdempotent(cs: seq<CatalogEntry>)
    ensures PublishedOnly(PublishedOnly(cs)) == PublishedOnly(cs)
  {
    PublishedOnlyKeepsPublished(PublishedOnly(cs));
  }

  /** `catalogs.find(catalog => catalog.catalog_id === id)`: the first catalog with that id. */
  function FindById(cs: seq<CatalogEntry>, id: string): (r: Option<CatalogEntry>)
    ensures r.None? <==> forall k :: 0 <= k < |cs| ==> cs[k].catalogId != id
    ensures r.Some? ==> exists i :: 0 <= i < |cs| && cs[i] == r.value && r.value.catalogId == id
                                    && forall k :: 0 <= k < i ==> cs[k].catalogId != id
  {
    if cs == [] then None
    else if cs[0].catalogId == id then Some(cs[0])
    else
      var r := FindById(cs[1..], id);
      if r.Some? then
        ghost var i :| 0 <= i < |cs[1..]| && cs[1..][i] == r.value && r.value.catalogId == id
                      && forall k :: 0 <= k < i ==> cs[1..][k].catalogId != id;
        assert cs[i + 1] == r.value;
        r
      else r
  }

  class CatalogSelectModal {
    var catalogs: seq<CatalogEntry>
    var loading: bool
    var error: Option<string>
    var selectedCatalogId: Option<string>
    /** Listing requests made to the storage service. */
    var listCalls: nat
    /** The `(catalogId, title)` pairs passed to `onSelect`, in order. */
    var selections: seq<(string, string)>

    /** Everything the picker shows is published. */
    predicate Valid()
      reads this
    {
      forall k :: 0 <= k < |catalogs| ==> catalogs[k].published
    }

    constructor()
      ensures Valid()
      ensures catalogs == [] && !loading && error.None? && selectedCatalogId.None?
      ensures listCalls == 0 && selections == []
    {
      catalogs := [];
      loading := false;
      error := None;
      selectedCatalogId := None;
      listCalls := 0;
      selections := [];
    }

    /** `!selectedCatalogId`: nothing, or the empty id, is marked. */
    predicate NothingMarked()
      reads this
    {
      selectedCatalogId.None? || selectedCatalogId.value == ""
    }

    /** The `Select` button is disabled while nothing is marked or the list is loading. */
    predicate SelectDisabled(): (r: bool)
      reads this
      ensures NothingMarked() ==> r
      ensures !r ==> !loading && selectedCatalogId.Some? && selectedCatalogId.value != ""
    {
      NothingMarked() || loading
    }

    /** The effect on `open`: opening starts `loadCatalogs` up to the listing request. */
    method OpenEffect(open: bool)
      requires Valid()
      modifies this
      ensures Valid()
      ensures open ==> loading && error.None? && listCalls == old(listCalls) + 1
      ensures !open ==> loading == old(loading) && error == old(error) && listCalls == old(listCalls)
      ensures catalogs == old(catalogs) && selectedCatalogId == old(selectedCatalogId) && selections == old(selections)
    {
      if open {
        loading := true;
        error := None;
        listCalls := listCalls + 1;
      }
    }

    /** `loadCatalogs` once the listing settles: the published catalogs are shown, in their
        order, and the mark is cleared; a failure is reported and the rest stays. */
    method LoadSettled(listing: Result<seq<CatalogEntry>>)
      requires Valid()
      modifies this
      ensures Valid()
      ensures !loading
      ensures listing.Success? ==> catalogs == PublishedOnly(listing.value) && selectedCatalogId.None? && error == old(error)
      ensures listing.Failure? ==> catalogs == old(catalogs) && selectedCatalogId == old(selectedCatalogId)
                                   && error == Some(LoadFailed + listing.error)
      ensures listCalls == old(listCalls) && selections == old(selections)
    {
      if listing.Success? {
        catalogs := PublishedOnly(listing.value);
        selectedCatalogId := None;
      } else {
        error := Some(LoadFailed + listing.error);
      }
      loading := false;
    }

    /** A click on a listed catalog marks it. */
    method Mark(c: CatalogEntry)
      modifies this
      ensures selectedCatalogId == Some(c.catalogId)
      ensures catalogs == old(catalogs) && loading == old(loading) && error == old(error)
      ensures listCalls == old(listCalls) && selections == old(selections)
    {
      selectedCatalogId := Some(c.catalogId);
    }

    /** `handleSelect`: with nothing marked the picker asks for a choice; otherwise the first
        listed catalog with the marked id, if there is one, goes to `onSelect`, and with none
        nothing happens. */
    method HandleSelect()
      requires Valid()
      modifies this
      ensures Valid()
      ensures catalogs == old(catalogs) && loading == old(loading) && selectedCatalogId == old(selectedCatalogId)
      ensures listCalls == old(listCalls)
      ensures old(NothingMarked()) ==> error == Some(NothingSelected) && selections == old(selections)
      ensures !old(NothingMarked()) ==>
                && error == old(error)
                && var found := FindById(catalogs, selectedCatalogId.value);
                   && (found.Some? ==> selections == old(selections) + [(found.value.catalogId, found.value.title)])
                   && (found.None? ==> selections == old(selections))
    {
      if NothingMarked() {
        error := Some(NothingSelected);
        return;
      }
      var found := FindById(catalogs, selectedCatalogId.value);
      if found.Some? {
        selections := selections + [(found.value.catalogId, found.value.title)];
      }
    }
  }

  /** Whatever the service lists, choosing a catalog that is listed and published hands over
      a published catalog with the chosen id. */
  method ListMarkSelect(m: CatalogSelectModal, listing: seq<CatalogEntry>, c: CatalogEntry) returns (picked: (string, string))
    requires m.Valid()
    requires c in listing && c.published && c.catalogId != ""
    modifies m
    ensures m.Valid()
    ensures |m.selections| == |old(m.selections)| + 1 && picked == m.selections[|m.selections| - 1]
    ensures picked.0 == c.catalogId
    ensures exists e :: e in listing && e.published && e.catalogId == picked.0 && e.title == picked.1
  {
    m.OpenEffect(true);
    m.LoadSettled(Success(listing));
    m.Mark(c);
    assert c in m.catalogs;
    var found := FindById(m.catalogs, c.catalogId);
    m.HandleSelect();
    picked := m.selections[|m.selections| - 1];
    assert found.value in m.catalogs;
  }
}
