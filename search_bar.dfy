/**
 * The search form (src/components/SearchBar/SearchBar.tsx): a text buffer bound
 * to the input, a submit handler that refuses blank text, and a debounced copy
 * of the buffer that is forwarded once it settles.
 *
 * The parent's `onSubmit` callback and the toast library are outside the
 * component, so a handler returns the calls it makes to them, in order, as a
 * list of effects.
 */
module SearchBar {
  import opened Text

  /** The notice shown for a blank submission ("Please enter a search query."). */
  const BlankQueryNotice: string := "Будь ласка, введіть пошуковий запит."

  /** A call a handler makes outside the component. */
  datatype Effect =
    | ErrorToast(message: string)   // toast.error(message)
    | Submit(text: string)          // onSubmit(text)

  /** The texts a list of effects hands to `onSubmit`, in order. */
  function Submitted(effects: seq<Effect>): (r: seq<string>)
    ensures |r| <= |effects|
    ensures forall t :: t in r <==> Submit(t) in effects
  {
    if effects == [] then []
    else
      var rest := Submitted(effects[1..]);
      if effects[0].Submit? then [effects[0].text] + rest else rest
  }

  /**
   * Submitting the form with `inputQuery` in its field: exactly one effect,
   * the notice when the text is blank, otherwise the text itself, untrimmed,
   * to `onSubmit`.
   */
  function SubmitEffects(inputQuery: string): (r: seq<Effect>)
    ensures |r| == 1
    ensures IsBlank(inputQuery) <==> r[0] == ErrorToast(BlankQueryNotice)
    ensures Submitted(r) == if IsBlank(inputQuery) then [] else [inputQuery]
  {
    if IsBlank(inputQuery) then [ErrorToast(BlankQueryNotice)] else [Submit(inputQuery)]
  }

  /**
   * The effect that runs when the debounced value `debouncedQuery` settles:
   * it calls `onSubmit` with that value, untrimmed, exactly when it is not blank,
   * and never shows a notice.
   */
  function DebouncedEffects(debouncedQuery: string): (r: seq<Effect>)
    ensures |r| <= 1
    ensures r != [] <==> !IsBlank(debouncedQuery)
    ensures forall e :: e in r ==> e == Submit(debouncedQuery)
    ensures Submitted(r) == if IsBlank(debouncedQuery) then [] else [debouncedQuery]
  {
    if !IsBlank(debouncedQuery) then [Submit(debouncedQuery)] else []
  }

  /** Whatever the search form hands to `onSubmit` is never blank. */
  lemma ForwardedTextsNonBlank(inputQuery: string, debouncedQuery: string)
    ensures forall t :: t in Submitted(SubmitEffects(inputQuery) + DebouncedEffects(debouncedQuery)) ==> !IsBlank(t)
  {
    var a, b := SubmitEffects(inputQuery), DebouncedEffects(debouncedQuery);
    SubmittedAppend(a, b);
    assert Submitted(a + b) == (if IsBlank(inputQuery) then [] else [inputQuery])
                               + (if IsBlank(debouncedQuery) then [] else [debouncedQuery]);
  }

  lemma {:induction false} SubmittedAppend(a: seq<Effect>, b: seq<Effect>)
    ensures Submitted(a + b) == Submitted(a) + Submitted(b)
  {
    if a != [] {
      assert (a + b)[1..] == a[1..] + b;
      SubmittedAppend(a[1..], b);
    } else {
      assert a + b == b;
    }
  }

  /** The component's state: the text in the search field. */
  class Form {
    var query: string

    /** The field starts empty. */
    constructor ()
      ensures query == ""
    {
      query := "";
    }

    /** Typing replaces the buffer with the field's new value. */
    method HandleInputChange(value: string)
      modifies this
      ensures query == value
    {
      query := value;
    }

    /**
     * Submitting with `inputQuery` in the field: a blank text shows the notice
     * and leaves the buffer as it is; any other text goes to `onSubmit` and the
     * buffer is cleared.
     */
    method HandleSubmit(inputQuery: string) returns (effects: seq<Effect>)
      modifies this
      ensures effects == SubmitEffects(inputQuery)
      ensures query == if IsBlank(inputQuery) then old(query) else ""
    {
      if IsBlank(inputQuery) {
        effects := [ErrorToast(BlankQueryNotice)];
        return;
      }
      effects := [Submit(inputQuery)];
      query := "";
    }
  }
}
