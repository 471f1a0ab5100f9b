/**
  The image generation dialog of the editor (`src/editor/GenerateImageModal.tsx`):
  a prompt and one of three sizes; generating requires a non-blank prompt and
  passes the prompt as typed.
*/
module GenerateImageModals {
  import opened Strings

  const PromptRequired := "Prompt is required."

  /** The size options, in the order the menu shows them. */
  const Sizes: seq<string> := ["512x512", "768x768", "1024x1024"]

  class GenerateImageModal {
    var prompt: string
    var size: string
    var error: string
    /** The `(prompt, size)` pairs passed to `onGenerate`, in order. */
    var requests: seq<(string, string)>

    /** The size, and every size requested, is one of the options. */
    predicate Valid()
      reads this
    {
      size in Sizes && forall k :: 0 <= k < |requests| ==> requests[k].1 in Sizes
    }

    constructor()
      ensures Valid()
      ensures prompt == "" && size == Sizes[0] && size == "512x512" && error == "" && requests == []
    {
      prompt := "";
      size := Sizes[0];
      error := "";
      requests := [];
    }

    /** The prompt field. */
    method SetPrompt(p: string)
      requires Valid()
      modifies this
      ensures Valid()
      ensures prompt == p && size == old(size) && error == old(error) && requests == old(requests)
    {
      prompt := p;
    }

    /** The size menu, which offers the options only. */
    method SetSize(s: string)
      requires Valid()
      requires s in Sizes
      modifies this
      ensures Valid()
      ensures size == s && prompt == old(prompt) && error == old(error) && requests == old(requests)
    {
      size := s;
    }

    /** `handleGenerate`: a blank prompt shows the message and nothing is requested; otherwise
        the error is cleared and `onGenerate` gets the untrimmed prompt and the size. */
    method HandleGenerate()
      requires Valid()
      modifies this
      ensures Valid()
      ensures IsBlank(prompt) ==> error == PromptRequired && requests == old(requests)
      ensures !IsBlank(prompt) ==> error == "" && requests == old(requests) + [(prompt, size)]
      ensures prompt == old(prompt) && size == old(size)
    {
      if IsBlank(prompt) {
        error := PromptRequired;
        return;
      }
      error := "";
      requests := requests + [(prompt, size)];
    }
  }

  /** The sizes are distinct, so the menu's values identify the options. */
  lemma SizesDistinct()
    ensures |Sizes| == 3
    ensures forall i, j :: 0 <= i < j < |Sizes| ==> Sizes[i] != Sizes[j]
  {
    assert Sizes[0][0] == '5' && Sizes[1][0] == '7' && Sizes[2][0] == '1';
  }
}
