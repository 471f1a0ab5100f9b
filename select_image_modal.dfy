/**
  The image picker of the editor (`src/editor/SelectImageModal.tsx`): when
  opened it lists the media keys that name images, the user marks one and may
  change the size, and `Select` hands the image's URL, key and size to
  `onSelect`.
*/
module SelectImageModals {
  import opened Wrappers
  import opened Strings
  import opened Sequences

  const DefaultWidth := 300
  const DefaultHeight := 200

  /** The extensions `/\.(jpg|jpeg|png|gif|webp|svg)$/i` accepts. */
  const ImageExtensions: seq<string> := [".jpg", ".jpeg", ".png", ".gif", ".webp", ".svg"]

  /** The key ends, in any letter case, with one of the image extensions. */
  predicate IsImageKey(key: string) {
    exists k :: 0 <= k < |ImageExtensions| && EndsWith(Lower(key), ImageExtensions[k])
  }

  /** `keys.filter(k => k.match(…))`. */
  function ImageKeys(keys: seq<string>): (r: seq<string>)
    ensures forall k :: 0 <= k < |r| ==> IsImageKey(r[k])
    ensures forall key :: key in r <==> key in keys && IsImageKey(key)
  {
    if keys == [] then []
    else if IsImageKey(keys[0]) then [keys[0]] + ImageKeys(keys[1..])
    else ImageKeys(keys[1..])
  }

  /** The listed keys keep the listing's order. */
  lemma {:induction false} ImageKeysIsSubsequence(keys: seq<string>)
    ensures IsSubsequence(ImageKeys(keys), keys)
  {
    if keys != [] {
      ImageKeysIsSubsequence(keys[1..]);
      if IsImageKey(keys[0]) {
        assert ImageKeys(keys)[0] == keys[0];
        assert ImageKeys(keys)[1..] == ImageKeys(keys[1..]);
      }
    }
  }

  /** Filtering a list of image keys changes nothing, so filtering twice is filtering once. */
  lemma {:induction false} ImageKeysKeepsImages(keys: seq<string>)
    requires forall k :: 0 <= k < |keys| ==> IsImageKey(keys[k])
    ensures ImageKeys(keys) == keys
  {
    if keys != [] {
      ImageKeysKeepsImages(keys[1..]);
    }
  }

  lemma ImageKeysIdempotent(keys: seq<string>)
    ensures ImageKeys(ImageKeys(keys)) == ImageKeys(keys)
  {
    ImageKeysKeepsImages(ImageKeys(keys));
  }

  /** Upper-case extensions are images too, and other files are not. */
  lemma ImageKeyExamples()
    ensures IsImageKey("media/Photo.JPG")
    ensures !IsImageKey("media/notes.txt")
  {
    assert EndsWith(Lower("media/Photo.JPG"), ImageExtensions[0]) by {
      assert Lower("media/Photo.JPG")[11..] == ".jpg";
    }
    var l := Lower("media/notes.txt");
    assert l[|l| - 1] == 't';
    assert l[|l| - 4] == '.' && l[|l| - 5] == 's';
  }

  /** What `onSelect` receives. */
  datatype ImageChoice = ImageChoice(url: string, key: string, width: int, height: int)

  class SelectImageModal {
    /** The media host the image URLs are built on. */
    const mediaProxy: string
    var imageKeys: seq<string>
    var loading: bool
    var error: Option<string>
    var selectedKey: Option<string>
    var width: int
    var height: int
    /** Listing requests made to the storage service. */
    var listCalls: nat
    /** The choices passed to `onSelect`, in order. */
    var selections: seq<ImageChoice>

    /** Only image keys are listed. */
    predicate Valid()
      reads this
    {
      forall k :: 0 <= k < |imageKeys| ==> IsImageKey(imageKeys[k])
    }

    constructor(mediaProxy: string)
      ensures Valid()
      ensures this.mediaProxy == mediaProxy
      ensures imageKeys == [] && !loading && error.None? && selectedKey.None?
      ensures width == DefaultWidth && height == DefaultHeight
      ensures listCalls == 0 && selections == []
    {
      this.mediaProxy := mediaProxy;
      imageKeys := [];
      loading := false;
      error := None;
      selectedKey := None;
      width := DefaultWidth;
      height := DefaultHeight;
      listCalls := 0;
      selections := [];
    }

    /** The listing effect on `isOpen` up to the request; a closed picker lists nothing. */
    method OpenEffect(isOpen: bool)
      requires Valid()
      modifies this
      ensures Valid()
      ensures isOpen ==> loading && error.None? && listCalls == old(listCalls) + 1
      ensures !isOpen ==> loading == old(loading) && error == old(error) && listCalls == old(listCalls)
      ensures imageKeys == old(imageKeys) && selectedKey == old(selectedKey)
      ensures width == old(width) && height == old(height) && selections == old(selections)
    {
      if isOpen {
        loading := true;
        error := None;
        listCalls := listCalls + 1;
      }
    }

    /** The listing effect once the request settles: the image keys are listed in the
        listing's order, or the failure's message is shown. Loading ends either way. */
    method ListingSettled(listing: Result<seq<string>>)
      requires Valid()
      modifies this
      ensures Valid()
      ensures !loading
      ensures listing.Success? ==> imageKeys == ImageKeys(listing.value) && error == old(error)
      ensures listing.Failure? ==> imageKeys == old(imageKeys) && error == Some(listing.error)
      ensures selectedKey == old(selectedKey) && width == old(width) && height == old(height)
      ensures listCalls == old(listCalls) && selections == old(selections)
    {
      if listing.Success? {
        imageKeys := ImageKeys(listing.value);
      } else {
        error := Some(listing.error);
      }
      loading := false;
    }

    /** A click on a listed key marks it. */
    method Mark(key: string)
      modifies this
      ensures selectedKey == Some(key)
      ensures imageKeys == old(imageKeys) && loading == old(loading) && error == old(error)
      ensures width == old(width) && height == old(height)
      ensures listCalls == old(listCalls) && selections == old(selections)
    {
      selectedKey := Some(key);
    }

    /** The size fields, and the natural size of a marked image once it has loaded. */
    method SetSize(w: int, h: int)
      modifies this
      ensures width == w && height == h
      ensures imageKeys == old(imageKeys) && loading == old(loading) && error == old(error)
      ensures selectedKey == old(selectedKey) && listCalls == old(listCalls) && selections == old(selections)
    {
      width := w;
      height := h;
    }

    /** `Select`: with a non-empty key marked, `onSelect` gets the key's URL on the media
        host, the key and the current size; otherwise nothing happens. */
    method Select()
      modifies this
      ensures selectedKey.Some? && selectedKey.value != "" ==>
                selections == old(selections) + [ImageChoice(mediaProxy + "/" + selectedKey.value, selectedKey.value, width, height)]
      ensures !(selectedKey.Some? && selectedKey.value != "") ==> selections == old(selections)
      ensures imageKeys == old(imageKeys) && loading == old(loading) && error == old(error)
      ensures selectedKey == old(selectedKey) && width == old(width) && height == old(height)
      ensures listCalls == old(listCalls)
    {
      if selectedKey.Some? && selectedKey.value != "" {
        selections := selections + [ImageChoice(mediaProxy + "/" + selectedKey.value, selectedKey.value, width, height)];
      }
    }
  }
}
