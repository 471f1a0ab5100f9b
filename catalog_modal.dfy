/**
  The catalog editing dialog (`src/components/CatalogModal.tsx`): a title, a
  description and an image; saving checks the three in a fixed order and hands
  a trimmed entry to `onSave`.
*/
module CatalogModals {
  import opened Wrappers
  import opened Strings
  import opened Utils
  import opened Catalogs

  const TitleRequired := "Title is required."
  const DescriptionRequired := "Description is required."
  const ImageRequired := "Catalog image is required."

  /**
    What `handleSave` makes of the fields: the first failing check's message
    (title, then description, then image), or the entry to save. The entry
    keeps the id and the published flag of the catalog being edited (an empty
    id and `false` for a new one) and its creation time unless that is empty,
    when `now` (the current time as ISO text) is used.
  */
  function SubmitCatalog(initial: Option<CatalogEntry>, title: string, description: string, imageKey: string, now: string)
    : (r: Result<CatalogEntry>)
  {
    if IsBlank(title) then Failure(TitleRequired)
    else if IsBlank(description) then Failure(DescriptionRequired)
    else if imageKey == "" then Failure(ImageRequired)
    else
      Success(CatalogEntry(
        if initial.Some? && initial.value.catalogId != "" then initial.value.catalogId else "",
        Trim(title),
        imageKey,
        Trim(description),
        initial.Some? && initial.value.published,
        if initial.Some? && initial.value.createdAt != "" then initial.value.createdAt else now))
  }

  /** The checks run in order and the first failing one decides the message; an accepted
      form yields the entry described above, with the title and description trimmed. */
  lemma SubmitCatalogChecks(initial: Option<CatalogEntry>, title: string, description: string, imageKey: string, now: string)
    ensures var r := SubmitCatalog(initial, title, description, imageKey, now);
            && (IsBlank(title) ==> r == Failure(TitleRequired))
            && (!IsBlank(title) && IsBlank(description) ==> r == Failure(DescriptionRequired))
            && (!IsBlank(title) && !IsBlank(description) && imageKey == "" ==> r == Failure(ImageRequired))
            && (r.Success? <==> !IsBlank(title) && !IsBlank(description) && imageKey != "")
            && (r.Success? ==>
                  && r.value.title == Trim(title) && r.value.description == Trim(description)
                  && r.value.imageKey == imageKey
                  && r.value.catalogId == (if initial.Some? then initial.value.catalogId else "")
                  && r.value.published == (initial.Some? && initial.value.published)
                  && r.value.createdAt == (if initial.Some? && initial.value.createdAt != "" then initial.value.createdAt else now))
  {
  }

  /** An accepted entry's title and description are non-blank and already trimmed. */
  lemma SubmittedFieldsTrimmed(initial: Option<CatalogEntry>, title: string, description: string, imageKey: string, now: string)
    requires SubmitCatalog(initial, title, description, imageKey, now).Success?
    ensures var e := SubmitCatalog(initial, title, description, imageKey, now).value;
            && e.title != "" && Trim(e.title) == e.title
            && e.description != "" && Trim(e.description) == e.description
  {
    SubmitCatalogChecks(initial, title, description, imageKey, now);
    TrimIdempotent(title);
    TrimIdempotent(description);
  }

  class CatalogModal {
    const mediaProxy: string
    var title: string
    var description: string
    var imageKey: string
    var imageUrl: string
    var error: string
    var isImageModalOpen: bool
    /** The entries passed to `onSave`, in order. */
    var saved: seq<CatalogEntry>

    constructor(mediaProxy: string)
      ensures this.mediaProxy == mediaProxy
      ensures title == "" && description == "" && imageKey == "" && imageUrl == "" && error == ""
      ensures !isImageModalOpen && saved == []
    {
      this.mediaProxy := mediaProxy;
      title := "";
      description := "";
      imageKey := "";
      imageUrl := "";
      error := "";
      isImageModalOpen := false;
      saved := [];
    }

    /** The effect on `open`/`initialCatalog`: when open, the fields are filled from the
        catalog being edited (the image URL joined onto the media host when there is a key)
        or cleared for a new one, and the error is cleared. A closed dialog changes nothing. */
    method OpenEffect(open: bool, initial: Option<CatalogEntry>)
      modifies this
      ensures !open ==> title == old(title) && description == old(description) && imageKey == old(imageKey)
                        && imageUrl == old(imageUrl) && error == old(error)
      ensures open && initial.Some? ==>
                && title == initial.value.title && description == initial.value.description
                && imageKey == initial.value.imageKey
                && imageUrl == (if initial.value.imageKey != "" then CleanUrl(mediaProxy, initial.value.imageKey) else "")
      ensures open && initial.None? ==> title == "" && description == "" && imageKey == "" && imageUrl == ""
      ensures open ==> error == ""
      ensures isImageModalOpen == old(isImageModalOpen) && saved == old(saved)
    {
      if open {
        if initial.Some? {
          title := initial.value.title;
          description := initial.value.description;
          imageKey := initial.value.imageKey;
          if initial.value.imageKey != "" {
            imageUrl := CleanUrl(mediaProxy, initial.value.imageKey);
          } else {
            imageUrl := "";
          }
        } else {
          title := "";
          description := "";
          imageKey := "";
          imageUrl := "";
        }
        error := "";
      }
    }

    /** `handleSave`: a rejected form shows the message and calls nothing; an accepted one
        clears the error and calls `onSave` once with the entry. The fields stay as they are. */
    method HandleSave(initial: Option<CatalogEntry>, now: string)
      modifies this
      ensures title == old(title) && description == old(description) && imageKey == old(imageKey)
      ensures var r := SubmitCatalog(initial, title, description, imageKey, now);
              && (r.Failure? ==> error == r.error && saved == old(saved))
              && (r.Success? ==> error == "" && saved == old(saved) + [r.value])
      ensures imageUrl == old(imageUrl) && isImageModalOpen == old(isImageModalOpen)
    {
      var r := SubmitCatalog(initial, title, description, imageKey, now);
      if r.Failure? {
        error := r.error;
      } else {
        error := "";
        saved := saved + [r.value];
      }
    }

    /** The image buttons: open the image picker. */
    method OpenImagePicker()
      modifies this
      ensures isImageModalOpen
      ensures title == old(title) && description == old(description) && imageKey == old(imageKey)
      ensures imageUrl == old(imageUrl) && error == old(error) && saved == old(saved)
    {
      isImageModalOpen := true;
    }

    /** `handleImageSelect`: the chosen image's URL and key are kept and the picker closes. */
    method HandleImageSelect(url: string, key: string)
      modifies this
      ensures imageUrl == url && imageKey == key && !isImageModalOpen
      ensures title == old(title) && description == old(description) && error == old(error) && saved == old(saved)
    {
      imageUrl := url;
      imageKey := key;
      isImageModalOpen := false;
    }
  }
}
