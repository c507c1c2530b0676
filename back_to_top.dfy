/** The back-to-top button: shown once the page is scrolled past a fixed offset. */
module BackToTop {

  import opened JsValues

  /** Scroll offset (in CSS pixels) beyond which the button is shown. */
  const Threshold: real := 700.0

  /** The three style properties the script writes on the button. */
  datatype Styles = Styles(visibility: string, opacity: int, transform: string)

  /** `isBackToTopRendered` and the button's styles as the script last wrote them. */
  datatype Button = Button(rendered: bool, styles: Option<Styles>)

  /** The button is rendered exactly when the offset is strictly above the threshold. */
  function IsRendered(scrollY: real): bool
  {
    scrollY > Threshold
  }

  /** The styles `alterStyles` writes for a rendered flag. */
  function AlterStyles(rendered: bool): (st: Styles)
    ensures Agree(st)
    ensures Shows(st) == rendered
  {
    if rendered then Styles("visible", 1, "scale(1)") else Styles("hidden", 0, "scale(0)")
  }

  /** Reading the styles back: the button is visible. */
  predicate Shows(st: Styles)
  {
    st.visibility == "visible"
  }

  /** Visibility, opacity and scale all say the same thing. */
  predicate Agree(st: Styles)
  {
    (st.visibility == "visible" || st.visibility == "hidden")
    && st.opacity == (if Shows(st) then 1 else 0)
    && st.transform == (if Shows(st) then "scale(1)" else "scale(0)")
  }

  /**
   * The effect of one scroll event at offset `scrollY`. The flag is assigned
   * first; when `.back-to-top` matched no element (`present` is false) the
   * style writes throw, so no style is ever written.
   */
  function Scroll(b: Button, scrollY: real, present: bool): (r: Button)
    ensures r.rendered <==> scrollY > Threshold
    ensures present ==> r.styles.Some? && Agree(r.styles.value) && (Shows(r.styles.value) <==> r.rendered)
    ensures !present ==> r.styles == b.styles
  {
    var rendered := IsRendered(scrollY);
    if present then Button(rendered, Some(AlterStyles(rendered))) else Button(rendered, b.styles)
  }

  /** Exactly 700 keeps the button hidden; anything above shows it. */
  lemma ThresholdBoundary(b: Button)
    ensures !Scroll(b, 700.0, true).rendered
    ensures Scroll(b, 700.0, true).styles == Some(Styles("hidden", 0, "scale(0)"))
    ensures forall y: real :: y > 700.0 ==> Scroll(b, y, true).styles == Some(Styles("visible", 1, "scale(1)"))
  {
  }

  /** Shown at some offset means shown at every larger offset. */
  lemma ScrollMonotone(b: Button, y1: real, y2: real, present: bool)
    requires y1 <= y2 && Scroll(b, y1, present).rendered
    ensures Scroll(b, y2, present).rendered
  {
  }

  /**
   * A second scroll event on the same side of the threshold, at the same
   * offset or any other, leaves the state unchanged.
   */
  lemma ScrollIdempotent(b: Button, y1: real, y2: real, present: bool)
    requires IsRendered(y1) == IsRendered(y2)
    ensures Scroll(Scroll(b, y1, present), y2, present) == Scroll(b, y1, present)
  {
  }

  /**
   * The effect of a sequence of scroll events, first to last: the flag
   * follows the last offset.
   */
  function RunScrolls(b: Button, offsets: seq<real>, present: bool): (r: Button)
    ensures offsets == [] ==> r == b
    ensures offsets != [] ==> (r.rendered <==> offsets[|offsets| - 1] > Threshold)
    decreases |offsets|
  {
    if offsets == [] then b else RunScrolls(Scroll(b, offsets[0], present), offsets[1..], present)
  }

  /** Without the element, scroll events never change the styles. */
  lemma {:induction false} RunScrollsKeepsStyles(b: Button, offsets: seq<real>)
    ensures RunScrolls(b, offsets, false).styles == b.styles
    decreases |offsets|
  {
    if offsets != [] {
      RunScrollsKeepsStyles(Scroll(b, offsets[0], false), offsets[1..]);
    }
  }

  /** Without the element, the flag still follows the offset but no style is ever written. */
  lemma MissingButtonNoStyles(events: seq<real>)
    ensures RunScrolls(Button(false, None), events, false).styles == None
    ensures events != [] ==> (RunScrolls(Button(false, None), events, false).rendered <==> events[|events| - 1] > Threshold)
  {
    RunScrollsKeepsStyles(Button(false, None), events);
  }

  /**
   * The element `.back-to-top` (when `present`) and the script's
   * `isBackToTopRendered` variable.
   */
  class BackToTopButton {
    const present: bool
    var rendered: bool
    var styles: Option<Styles>

    function Current(): Button
      reads this
    {
      Button(rendered, styles)
    }

    /** Script load: the flag is false and no style has been written yet. */
    constructor (present: bool)
      ensures this.present == present
      ensures Current() == Button(false, None)
    {
      this.present := present;
      rendered := false;
      styles := None;
    }

    /** The scroll listener. */
    method OnScroll(scrollY: real)
      modifies this
      ensures Current() == Scroll(old(Current()), scrollY, present)
    {
      if scrollY > Threshold {
        rendered := true;
        if present {
          styles := Some(AlterStyles(rendered));
        }
      } else {
        rendered := false;
        if present {
          styles := Some(AlterStyles(rendered));
        }
      }
    }
  }
}
