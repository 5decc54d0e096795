/**
 * The movie detail dialog (src/components/MovieModal/MovieModal.tsx): which
 * picture and texts it shows, which key presses and clicks close it, and how it
 * locks the page's scrolling while it is open and restores it on close.
 *
 * A handler's call to `onClose` is counted: a handler returns how many times it
 * calls it for one event.
 */
module MovieModal {
  import opened Wrappers
  import opened Movies
  import opened Text

  const OriginalImagePrefix: string := "https://image.tmdb.org/t/p/original"
  const CatalogueSite: string := "https://www.themoviedb.org"
  const FallbackImage: string := CatalogueSite + "/assets/2/v4/logos/v2/blue_square_2-d537fb228cf3ded904ef09b136fe3fec72548ebc1fea3fbbd1ad9e36364db38b.svg"
  const NoDescription: string := "No description"
  const UnknownReleaseDate: string := "Unknown"

  // ---- What the dialog shows ----

  /** The picture: the backdrop if the movie has one, else the poster, else the catalogue's logo. */
  function ImageSrc(m: Movie): (r: string)
    ensures Truthy(m.backdropPath) ==> r == OriginalImagePrefix + m.backdropPath.value
    ensures !Truthy(m.backdropPath) && Truthy(m.posterPath) ==> r == OriginalImagePrefix + m.posterPath.value
    ensures !Truthy(m.backdropPath) && !Truthy(m.posterPath) ==> r == FallbackImage
  {
    if Truthy(m.backdropPath) then OriginalImagePrefix + m.backdropPath.value
    else if Truthy(m.posterPath) then OriginalImagePrefix + m.posterPath.value
    else FallbackImage
  }

  /** `s` starts with the full-size image prefix and names a file after it. */
  predicate IsCatalogueImage(s: string) {
    |s| > |OriginalImagePrefix| && s[..|OriginalImagePrefix|] == OriginalImagePrefix
  }

  /**
   * The picture comes from the catalogue's image store exactly when the movie
   * has a backdrop or a poster; otherwise it is the fallback logo, which is not
   * such an address.
   */
  lemma ImageFromCatalogueIffPath(m: Movie)
    ensures IsCatalogueImage(ImageSrc(m)) <==> Truthy(m.backdropPath) || Truthy(m.posterPath)
  {
    var r := ImageSrc(m);
    if Truthy(m.backdropPath) {
      assert r[..|OriginalImagePrefix|] == OriginalImagePrefix;
    } else if Truthy(m.posterPath) {
      assert r[..|OriginalImagePrefix|] == OriginalImagePrefix;
    } else {
      assert r == FallbackImage;
      assert r[8] == CatalogueSite[8] == 'w' && OriginalImagePrefix[8] == 'i';
      assert r[..|OriginalImagePrefix|][8] == r[8];
    }
  }

  /** The description: the overview when it is non-empty, else "No description"; never empty. */
  function OverviewText(m: Movie): (r: string)
    ensures r != ""
    ensures Truthy(m.overview) ==> r == m.overview.value
    ensures !Truthy(m.overview) ==> r == NoDescription
  {
    if Truthy(m.overview) then m.overview.value else NoDescription
  }

  /** The release date: the date when it is non-empty, else "Unknown"; never empty. */
  function ReleaseDateText(m: Movie): (r: string)
    ensures r != ""
    ensures Truthy(m.releaseDate) ==> r == m.releaseDate.value
    ensures !Truthy(m.releaseDate) ==> r == UnknownReleaseDate
  {
    if Truthy(m.releaseDate) then m.releaseDate.value else UnknownReleaseDate
  }

  /** The rating line: a score out of 10, or "Rating: N/A". */
  datatype RatingLine = Score(outOfTen: real) | NotAvailable

  /** A score is shown exactly when the average vote is a number above zero, and it is that number. */
  function RatingDisplay(m: Movie): (r: RatingLine)
    ensures r.Score? <==> m.voteAverage.Some? && m.voteAverage.value > 0.0
    ensures r.Score? ==> r.outOfTen == m.voteAverage.value && r.outOfTen > 0.0
  {
    match m.voteAverage
    case Some(v) => if v > 0.0 then Score(v) else NotAvailable
    case None => NotAvailable
  }

  // ---- Closing ----

  /** The document's `keydown` listener: closes the dialog on Escape and ignores every other key. */
  function OnKeyDown(key: string): (closeCalls: nat)
    ensures closeCalls <= 1
    ensures closeCalls == 1 <==> key == "Escape"
  {
    if key == "Escape" then 1 else 0
  }

  /** The dialog's elements, as nested in its markup. */
  datatype Element = Backdrop | Dialog | CloseButton | Picture | Details

  /** The element a click on `e` bubbles through, from `e` out to the backdrop. */
  function BubblePath(e: Element): (path: seq<Element>)
    ensures |path| > 0 && path[0] == e && path[|path| - 1] == Backdrop
  {
    match e
    case Backdrop => [Backdrop]
    case Dialog => [Dialog, Backdrop]
    case CloseButton => [CloseButton, Dialog, Backdrop]
    case Picture => [Picture, Dialog, Backdrop]
    case Details => [Details, Dialog, Backdrop]
  }

  /**
   * The `onClose` calls made by the click handler of `current` for a click
   * whose target is `target`: the close button always closes; the backdrop
   * closes only when the click was on the backdrop itself.
   */
  function HandlerCloseCalls(current: Element, target: Element): nat {
    match current
    case CloseButton => 1
    case Backdrop => if target == current then 1 else 0
    case _ => 0
  }

  /** The `onClose` calls made while a click on `target` bubbles through `path`. */
  function CloseCallsAlong(path: seq<Element>, target: Element): nat {
    if path == [] then 0 else HandlerCloseCalls(path[0], target) + CloseCallsAlong(path[1..], target)
  }

  /** The `onClose` calls one click on `target` makes, over its whole bubbling path. */
  function OnClick(target: Element): nat {
    CloseCallsAlong(BubblePath(target), target)
  }

  /**
   * One click closes the dialog at most once: exactly once when it lands on the
   * backdrop itself or on the close button (whose click also reaches the
   * backdrop, which ignores it), and never for a click inside the dialog.
   */
  lemma ClickClosesAtMostOnce(target: Element)
    ensures OnClick(target) <= 1
    ensures OnClick(target) == 1 <==> target == Backdrop || target == CloseButton
  {
    var path := BubblePath(target);
    var n := |path|;
    assert CloseCallsAlong(path[n - 1..], target) == HandlerCloseCalls(Backdrop, target) by {
      assert path[n - 1..][1..] == [];
    }
    if n == 3 {
      assert path[1..] == [Dialog, Backdrop] && path[2..] == path[1..][1..];
    } else if n == 2 {
      assert path[1..] == path[n - 1..];
    }
  }

  // ---- Scroll lock ----

  /** The two inline styles of the document body that the dialog changes. */
  datatype Style = Style(overflow: string, paddingRight: string)

  /** Reads the pixel count back out of a `<n>px` length. */
  function PixelsOf(s: string): Option<int> {
    if |s| >= 2 && s[|s| - 2..] == "px" then ParseInt(s[..|s| - 2]) else None
  }

  /**
   * The body while the dialog is open: scrolling hidden, and a right padding
   * of exactly the scrollbar's width so that the page does not shift.
   */
  function LockedStyle(scrollbarWidth: int): (r: Style)
    ensures r.overflow == "hidden"
    ensures PixelsOf(r.paddingRight) == Some(scrollbarWidth)
  {
    var digits := IntToDecimal(scrollbarWidth);
    var r := Style("hidden", digits + "px");
    assert r.paddingRight[..|r.paddingRight| - 2] == digits;
    IntDecimalRoundTrip(scrollbarWidth);
    r
  }

  /**
   * The body after the dialog's cleanup, given the styles saved when it opened:
   * the saved padding comes back as it was, the saved overflow too unless it
   * was empty, in which case it becomes "auto".
   */
  function RestoredStyle(saved: Style): (r: Style)
    ensures r.paddingRight == saved.paddingRight
    ensures r.overflow != ""
    ensures saved.overflow != "" ==> r.overflow == saved.overflow
    ensures saved.overflow == "" ==> r.overflow == "auto"
  {
    Style(if saved.overflow != "" then saved.overflow else "auto",
          if saved.paddingRight != "" then saved.paddingRight else "")
  }

  /** Opening and closing the dialog gives the body back exactly when its overflow was set. */
  lemma LockRestoreRoundTrip(st: Style)
    ensures RestoredStyle(st) == st <==> st.overflow != ""
  {
  }

  /**
   * The body after the lock effect has run and been cleaned up `runs` times
   * (React re-runs it whenever `onClose` changes): each run saves the current
   * style and locks, and its cleanup writes back from what that run saved, so
   * the locked values in between never reach the next run.
   */
  function AfterEffectRuns(st: Style, runs: nat): Style
    decreases runs
  {
    if runs == 0 then st else AfterEffectRuns(RestoredStyle(st), runs - 1)
  }

  /** However many times the effect is re-run while the dialog is open, closing it ends as a single run does. */
  lemma {:induction false} EffectRerunsRestoreOnce(st: Style, runs: nat)
    requires runs >= 1
    ensures AfterEffectRuns(st, runs) == RestoredStyle(st)
    decreases runs
  {
    if runs > 1 {
      EffectRerunsRestoreOnce(RestoredStyle(st), runs - 1);
    }
  }

  /** `document.body.style`, the part of it the dialog touches. */
  class BodyStyle {
    var overflow: string
    var paddingRight: string

    constructor (overflow: string, paddingRight: string)
      ensures Value() == Style(overflow, paddingRight)
    {
      this.overflow := overflow;
      this.paddingRight := paddingRight;
    }

    function Value(): Style
      reads this
    {
      Style(overflow, paddingRight)
    }

    /**
     * The effect: saves the current overflow and padding, then hides
     * scrolling and pads by the scrollbar's width `innerWidth - clientWidth`.
     */
    method Lock(innerWidth: int, clientWidth: int) returns (saved: Style)
      modifies this
      ensures saved == old(Value())
      ensures Value() == LockedStyle(innerWidth - clientWidth)
    {
      saved := Style(overflow, paddingRight);
      var scrollbarWidth := innerWidth - clientWidth;
      overflow := "hidden";
      paddingRight := IntToDecimal(scrollbarWidth) + "px";
    }

    /** The cleanup: writes back the saved overflow, or "auto", and the saved padding. */
    method Restore(saved: Style)
      modifies this
      ensures Value() == RestoredStyle(saved)
    {
      overflow := if saved.overflow != "" then saved.overflow else "auto";
      paddingRight := if saved.paddingRight != "" then saved.paddingRight else "";
    }
  }

  /** The dialog opening and then closing over `body`. */
  method OpenThenClose(body: BodyStyle, innerWidth: int, clientWidth: int)
    modifies body
    ensures body.paddingRight == old(body.paddingRight)
    ensures body.overflow == if old(body.overflow) == "" then "auto" else old(body.overflow)
  {
    var saved := body.Lock(innerWidth, clientWidth);
    assert body.overflow == "hidden";
    body.Restore(saved);
  }
}
