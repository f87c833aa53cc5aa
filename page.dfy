/** Which apartment slider the page builds: the desktop one above the 768 px breakpoint,
    the mobile one at or below it, on `DOMContentLoaded` and again on every `resize`.
    Only the number of initialised sliders per root element is tracked. */
module Breakpoints {

  const Breakpoint: int := 768

  datatype Variant = Desktop | Mobile

  /** The variant a viewport width selects. */
  function VariantFor(width: int): (v: Variant)
    ensures v == Desktop <==> width > Breakpoint
    ensures v == Mobile <==> width <= Breakpoint
  {
    if width > Breakpoint then Desktop else Mobile
  }

  /** The two slider roots and the sliders initialised on them. A slider built on a
      missing root does nothing, so it is not counted. */
  class Page {
    const hasDesktopRoot: bool
    const hasMobileRoot: bool
    var desktopSliders: nat
    var mobileSliders: nat

    constructor (hasDesktopRoot: bool, hasMobileRoot: bool)
      ensures this.hasDesktopRoot == hasDesktopRoot && this.hasMobileRoot == hasMobileRoot
      ensures desktopSliders == 0 && mobileSliders == 0
    {
      this.hasDesktopRoot := hasDesktopRoot;
      this.hasMobileRoot := hasMobileRoot;
      desktopSliders, mobileSliders := 0, 0;
    }

    /** The `DOMContentLoaded` handler: builds the slider of the current variant without
        looking for an existing one. */
    method DomContentLoaded(width: int)
      modifies this
      ensures desktopSliders == old(desktopSliders) + if VariantFor(width) == Desktop && hasDesktopRoot then 1 else 0
      ensures mobileSliders == old(mobileSliders) + if VariantFor(width) == Mobile && hasMobileRoot then 1 else 0
    {
      if width > Breakpoint && hasDesktopRoot {
        desktopSliders := desktopSliders + 1;
      }
      if width <= Breakpoint && hasMobileRoot {
        mobileSliders := mobileSliders + 1;
      }
    }

    /** The `resize` handler: builds the slider of the current variant only if its root
        has none yet; the slider of the other variant is left running. */
    method Resize(width: int)
      modifies this
      ensures old(desktopSliders) <= 1 ==> desktopSliders <= 1
      ensures old(mobileSliders) <= 1 ==> mobileSliders <= 1
      ensures desktopSliders == old(desktopSliders) +
                if VariantFor(width) == Desktop && hasDesktopRoot && old(desktopSliders) == 0 then 1 else 0
      ensures mobileSliders == old(mobileSliders) +
                if VariantFor(width) == Mobile && hasMobileRoot && old(mobileSliders) == 0 then 1 else 0
    {
      if width > Breakpoint {
        if hasDesktopRoot && desktopSliders == 0 {
          desktopSliders := 1;
        }
      } else {
        if hasMobileRoot && mobileSliders == 0 {
          mobileSliders := 1;
        }
      }
    }
  }

  /** Loading wide, then narrowing and widening again, leaves one slider per root: the
      desktop slider is never torn down while the mobile one is built, and widening again
      does not build a second desktop slider. */
  method ResizeAcrossBreakpoint() returns (desktop: nat, mobile: nat)
    ensures desktop == 1 && mobile == 1
  {
    var page := new Page(true, true);
    page.DomContentLoaded(1024);
    page.Resize(500);
    page.Resize(1024);
    page.Resize(769);
    desktop, mobile := page.desktopSliders, page.mobileSliders;
  }
}
