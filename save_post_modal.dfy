/**
  The save dialog of the editor (`src/editor/SavePostModal.tsx`): a title and
  an author, both required; an accepted form goes to `onSave` trimmed and the
  fields are emptied.
*/
module SavePostModals {
  import opened Wrappers
  import opened Strings

  const TitleRequired := "Title is required."
  const AuthorRequired := "Author is required."

  /** What `onSave` receives. */
  datatype PostMeta = PostMeta(title: string, author: string)

  /** The check `handleSave` makes: title first, then author. */
  function CheckPost(title: string, author: string): Result<PostMeta> {
    if IsBlank(title) then Failure(TitleRequired)
    else if IsBlank(author) then Failure(AuthorRequired)
    else Success(PostMeta(Trim(title), Trim(author)))
  }

  /** The title is checked before the author; an accepted form is both fields trimmed, and
      both are then non-blank and already trimmed. */
  lemma CheckPostOrder(title: string, author: string)
    ensures IsBlank(title) ==> CheckPost(title, author) == Failure(TitleRequired)
    ensures !IsBlank(title) && IsBlank(author) ==> CheckPost(title, author) == Failure(AuthorRequired)
    ensures CheckPost(title, author).Success? <==> !IsBlank(title) && !IsBlank(author)
    ensures CheckPost(title, author).Success? ==>
              && CheckPost(title, author).value == PostMeta(Trim(title), Trim(author))
              && Trim(CheckPost(title, author).value.title) == CheckPost(title, author).value.title
              && Trim(CheckPost(title, author).value.author) == CheckPost(title, author).value.author
  {
    TrimIdempotent(title);
    TrimIdempotent(author);
  }

  class SavePostModal {
    var title: string
    var author: string
    var error: string
    /** The metadata passed to `onSave`, in order. */
    var saved: seq<PostMeta>
    /** Calls of `onClose`. */
    var closes: nat

    constructor()
      ensures title == "" && author == "" && error == "" && saved == [] && closes == 0
    {
      title := "";
      author := "";
      error := "";
      saved := [];
      closes := 0;
    }

    /** The two text fields. */
    method Edit(newTitle: string, newAuthor: string)
      modifies this
      ensures title == newTitle && author == newAuthor
      ensures error == old(error) && saved == old(saved) && closes == old(closes)
    {
      title := newTitle;
      author := newAuthor;
    }

    /** `handleSave`: a rejected form shows the message and keeps the fields; an accepted one
        clears the error, calls `onSave` once and empties both fields. */
    method HandleSave()
      modifies this
      ensures var r := CheckPost(old(title), old(author));
              && (r.Failure? ==> error == r.error && title == old(title) && author == old(author) && saved == old(saved))
              && (r.Success? ==> error == "" && title == "" && author == "" && saved == old(saved) + [r.value])
      ensures closes == old(closes)
    {
      var r := CheckPost(title, author);
      if r.Failure? {
        error := r.error;
      } else {
        error := "";
        saved := saved + [r.value];
        title := "";
        author := "";
      }
    }

    /** `handleClose`: the form is emptied and `onClose` called. */
    method HandleClose()
      modifies this
      ensures title == "" && author == "" && error == ""
      ensures closes == old(closes) + 1 && saved == old(saved)
    {
      title := "";
      author := "";
      error := "";
      closes := closes + 1;
    }
  }

  /** A white-space-only title is refused whatever the author, and nothing reaches `onSave`. */
  method BlankTitleRefused(m: SavePostModal, author: string)
    modifies m
    ensures m.error == TitleRequired && m.saved == old(m.saved) && m.title == " " && m.author == author
  {
    m.Edit(" ", author);
    assert Trim(" ") == "";
    m.HandleSave();
  }
}
