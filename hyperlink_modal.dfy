/**
  The link dialog of the editor (`src/editor/HyperlinkModal.tsx`): a URL and a
  link text. Saving requires a URL, puts `https://` in front of one without an
  `http://` or `https://` scheme, and uses the URL as the text when the text is
  blank. Whether the browser's URL parser accepts the result is a parameter:
  the parser itself is not part of this model.
*/
module HyperlinkModals {
  import opened Wrappers
  import opened Strings

  const UrlRequired := "URL is required."
  const InvalidUrl := "Please enter a valid URL."
  const DefaultScheme := "https://"

  /** `/^https?:\/\//i`: the URL starts with `http://` or `https://` in any letter case. */
  predicate HasScheme(url: string) {
    StartsWith(Lower(url), "http://") || StartsWith(Lower(url), "https://")
  }

  /** The URL to validate and save: as it is when it has a scheme, else with `https://` in front. */
  function WithScheme(url: string): (r: string)
    ensures HasScheme(url) ==> r == url
    ensures !HasScheme(url) ==> r == DefaultScheme + url
  {
    if HasScheme(url) then url else DefaultScheme + url
  }

  /** Lower-casing works character by character. */
  lemma LowerAppend(a: string, b: string)
    ensures Lower(a + b) == Lower(a) + Lower(b)
  {
    assert forall k :: 0 <= k < |a + b| ==> Lower(a + b)[k] == (Lower(a) + Lower(b))[k];
  }

  /** Every result has a scheme, so prefixing a second time changes nothing. */
  lemma WithSchemeIdempotent(url: string)
    ensures HasScheme(WithScheme(url))
    ensures WithScheme(WithScheme(url)) == WithScheme(url)
  {
    if !HasScheme(url) {
      LowerAppend(DefaultScheme, url);
      assert Lower(DefaultScheme) == DefaultScheme;
      assert StartsWith(Lower(DefaultScheme + url), DefaultScheme);
    }
  }

  /** What `onSave` receives. */
  datatype LinkData = LinkData(url: string, text: string)

  /** The check `handleSave` makes. `parseError` is the message of the error the URL parser
      raises on `WithScheme(url)`, if it raises one. */
  function SaveLink(url: string, text: string, parseError: Option<string>): Result<LinkData> {
    if IsBlank(url) then Failure(UrlRequired)
    else if parseError.Some? then Failure(InvalidUrl + ": " + parseError.value)
    else Success(LinkData(WithScheme(url), if Trim(text) != "" then Trim(text) else WithScheme(url)))
  }

  /** A blank URL is refused first; a refused parse is reported with its message; otherwise the
      link is the URL with a scheme and the trimmed text, or the URL when the text is blank. */
  lemma SaveLinkCases(url: string, text: string, parseError: Option<string>)
    ensures IsBlank(url) ==> SaveLink(url, text, parseError) == Failure(UrlRequired)
    ensures !IsBlank(url) && parseError.Some? ==> SaveLink(url, text, parseError) == Failure(InvalidUrl + ": " + parseError.value)
    ensures SaveLink(url, text, parseError).Success? <==> !IsBlank(url) && parseError.None?
    ensures SaveLink(url, text, parseError).Success? ==>
              && HasScheme(SaveLink(url, text, parseError).value.url)
              && SaveLink(url, text, parseError).value.text == (if IsBlank(text) then WithScheme(url) else Trim(text))
              && SaveLink(url, text, parseError).value.text != ""
  {
    WithSchemeIdempotent(url);
    assert WithScheme(url) != "" by {
      if !HasScheme(url) {
        assert |WithScheme(url)| == |DefaultScheme| + |url|;
      } else {
        assert StartsWith(Lower(url), "http://") || StartsWith(Lower(url), "https://");
        assert |Lower(url)| == |url|;
      }
    }
  }

  class HyperlinkModal {
    /** Whether an `onRemove` callback was passed. */
    const hasOnRemove: bool
    var url: string
    var text: string
    var error: string
    /** The links passed to `onSave`, in order. */
    var saved: seq<LinkData>
    /** Calls of `onRemove` and of `onClose`. */
    var removes: nat
    var closes: nat

    constructor(hasOnRemove: bool, initialUrl: string, initialText: string)
      ensures this.hasOnRemove == hasOnRemove
      ensures url == initialUrl && text == initialText && error == ""
      ensures saved == [] && removes == 0 && closes == 0
    {
      this.hasOnRemove := hasOnRemove;
      url := initialUrl;
      text := initialText;
      error := "";
      saved := [];
      removes := 0;
      closes := 0;
    }

    /** The effect on `open` and the initial values: an open dialog starts from them with no error. */
    method OpenEffect(open: bool, initialUrl: string, initialText: string)
      modifies this
      ensures open ==> url == initialUrl && text == initialText && error == ""
      ensures !open ==> url == old(url) && text == old(text) && error == old(error)
      ensures saved == old(saved) && removes == old(removes) && closes == old(closes)
    {
      if open {
        url := initialUrl;
        text := initialText;
        error := "";
      }
    }

    /** The two text fields. */
    method Edit(newUrl: string, newText: string)
      modifies this
      ensures url == newUrl && text == newText
      ensures error == old(error) && saved == old(saved) && removes == old(removes) && closes == old(closes)
    {
      url := newUrl;
      text := newText;
    }

    /** `resetForm`. */
    method ResetForm()
      modifies this
      ensures url == "" && text == "" && error == ""
      ensures saved == old(saved) && removes == old(removes) && closes == old(closes)
    {
      url := "";
      text := "";
      error := "";
    }

    /** `handleSave`: a refused form shows the message and keeps the fields; an accepted one
        calls `onSave` once with the link and resets the form. */
    method HandleSave(parseError: Option<string>)
      modifies this
      ensures removes == old(removes) && closes == old(closes)
      ensures var r := SaveLink(old(url), old(text), parseError);
              && (r.Failure? ==> error == r.error && url == old(url) && text == old(text) && saved == old(saved))
              && (r.Success? ==> url == "" && text == "" && error == "" && saved == old(saved) + [r.value])
    {
      var r := SaveLink(url, text, parseError);
      match r
      case Failure(e) =>
        error := e;
      case Success(link) =>
        saved := saved + [link];
        url, text, error := "", "", "";
    }

    /** `handleClose`: the form is reset and `onClose` called. */
    method HandleClose()
      modifies this
      ensures url == "" && text == "" && error == ""
      ensures closes == old(closes) + 1 && saved == old(saved) && removes == old(removes)
    {
      ResetForm();
      closes := closes + 1;
    }

    /** `handleRemove`: without an `onRemove` nothing happens; with one it is called and the
        form is reset. */
    method HandleRemove()
      modifies this
      ensures hasOnRemove ==> removes == old(removes) + 1 && url == "" && text == "" && error == ""
      ensures !hasOnRemove ==> removes == old(removes) && url == old(url) && text == old(text) && error == old(error)
      ensures saved == old(saved) && closes == old(closes)
    {
      if hasOnRemove {
        removes := removes + 1;
        ResetForm();
      }
    }
  }

  /** A bare host name gets `https://` in front and, with blank text, is its own text. */
  lemma BareHostLink()
    ensures SaveLink("example.com", "  ", None) == Success(LinkData("https://example.com", "https://example.com"))
  {
    assert Lower("example.com")[0] == 'e' && "http://"[0] == 'h' && "https://"[0] == 'h';
    assert !HasScheme("example.com");
    assert TrimStart("example.com") == "example.com";
    assert TrimEnd("example.com") == "example.com";
    assert !IsBlank("example.com");
    assert TrimStart("  ") == TrimStart(" ") == TrimStart("") == "";
    assert Trim("  ") == "";
    assert WithScheme("example.com") == DefaultScheme + "example.com" == "https://example.com";
  }

  /** Typing a bare host name with blank text and saving it hands `onSave` the host with
      `https://` in front, as both URL and text. */
  method SaveBareHost(m: HyperlinkModal) returns (link: LinkData)
    modifies m
    ensures link == LinkData("https://example.com", "https://example.com")
    ensures m.saved == old(m.saved) + [link]
  {
    m.Edit("example.com", "  ");
    BareHostLink();
    m.HandleSave(None);
    link := m.saved[|m.saved| - 1];
  }
}
