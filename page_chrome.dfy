/**
 * The page chrome of js/main.js: the `scrolled` body class and the
 * scroll-to-top button, both switched at 100 pixels; the mobile navigation
 * toggle with its icon; and the video overlay that plays a clip over the
 * page and locks the body's scrolling while open.
 *
 * Each piece of the DOM these handlers touch is a field; each event is a
 * method call.
 */
module PageChrome {
  import opened Wrappers

  /** The scroll position past which the body is `scrolled` and the
      scroll-to-top button is shown. */
  const ScrollThreshold := 100

  /* ---------------------------------------------------------------
   * `toggleScrolled` and `toggleScrollTop`
   * ------------------------------------------------------------- */

  class Page {
    /** Whether `#header` carries `scroll-up-sticky`, `sticky-top` or
        `fixed-top`. */
    const headerSticky: bool
    /** Whether the page has a `.scroll-top` button. The toggle guards
        against its absence, but the click listener added right after it
        (js/main.js:83) is not guarded, so without the button the setup
        throws there. */
    const hasScrollTop: bool
    var bodyScrolled: bool
    var scrollTopActive: bool

    constructor(headerSticky: bool, hasScrollTop: bool, bodyScrolled: bool, scrollTopActive: bool)
      ensures this.headerSticky == headerSticky && this.hasScrollTop == hasScrollTop
      ensures this.bodyScrolled == bodyScrolled && this.scrollTopActive == scrollTopActive
    {
      this.headerSticky := headerSticky;
      this.hasScrollTop := hasScrollTop;
      this.bodyScrolled := bodyScrolled;
      this.scrollTopActive := scrollTopActive;
    }

    /** `toggleScrolled`: only a sticky header makes the body `scrolled`,
        exactly when the page is past the threshold. */
    method ToggleScrolled(scrollY: int)
      modifies this
      ensures bodyScrolled == (if headerSticky then scrollY > ScrollThreshold else old(bodyScrolled))
      ensures scrollTopActive == old(scrollTopActive)
    {
      if !headerSticky {
        return;
      }
      if scrollY > ScrollThreshold {
        bodyScrolled := true;
      } else {
        bodyScrolled := false;
      }
    }

    /** `toggleScrollTop`: the button is active exactly when the page is
        past the threshold. */
    method ToggleScrollTop(scrollY: int)
      modifies this
      ensures scrollTopActive == (if hasScrollTop then scrollY > ScrollThreshold else old(scrollTopActive))
      ensures bodyScrolled == old(bodyScrolled)
    {
      if hasScrollTop {
        if scrollY > ScrollThreshold {
          scrollTopActive := true;
        } else {
          scrollTopActive := false;
        }
      }
    }
  }

  /* ---------------------------------------------------------------
   * Mobile navigation
   * ------------------------------------------------------------- */

  class MobileNav {
    /** `body.mobile-nav-active`. */
    var navActive: bool
    /** The toggle button's `bi-list` (hamburger) and `bi-x` (close) icons. */
    var iconList: bool
    var iconX: bool

    /** The button shows the close icon exactly when the menu is open, and
        the hamburger otherwise. */
    predicate Valid()
      reads this
    {
      iconX == navActive && iconList == !navActive
    }

    /** The page as served: menu closed, hamburger shown. */
    constructor()
      ensures Valid() && !navActive
    {
      navActive, iconList, iconX := false, true, false;
    }

    /** `mobileNavToogle`: flips the body class and both icons. */
    method Toggle()
      modifies this
      ensures navActive == !old(navActive)
      ensures iconList == !old(iconList) && iconX == !old(iconX)
      ensures old(Valid()) ==> Valid()
    {
      navActive := !navActive;
      iconList := !iconList;
      iconX := !iconX;
    }

    /** A click on a navigation link closes an open menu and does nothing
        to a closed one. */
    method NavLinkClick()
      requires Valid()
      modifies this
      ensures Valid() && !navActive
    {
      if navActive {
        Toggle();
      }
    }

    /** A key pressed on the toggle button: Enter or space click it. */
    method ToggleKeyDown(key: string)
      requires Valid()
      modifies this
      ensures Valid()
      ensures navActive == (if key == "Enter" || key == " " then !old(navActive) else old(navActive))
    {
      if key == "Enter" || key == " " {
        Toggle();
      }
    }

    /** A key pressed anywhere: Escape closes an open menu. */
    method DocumentKeyDown(key: string)
      requires Valid()
      modifies this
      ensures Valid()
      ensures navActive == (old(navActive) && key != "Escape")
    {
      if key == "Escape" && navActive {
        Toggle();
      }
    }
  }

  /* ---------------------------------------------------------------
   * Video overlay
   * ------------------------------------------------------------- */

  const HiddenOverflow := "hidden"

  class VideoOverlay {
    /** Whether `#videoOverlay` and `#videoFrame` exist. */
    const hasOverlay: bool
    const hasFrame: bool
    /** `videoOverlay.classList.contains('active')`. */
    var active: bool
    /** `videoFrame.src`. */
    var frameSrc: string
    /** `document.body.style.overflow`. */
    var bodyOverflow: string

    /** Only an existing overlay opens; it is open exactly when the frame
        has a source, and the body's scrolling is locked exactly while it is
        open. */
    predicate Valid()
      reads this
    {
      && (active ==> hasOverlay && hasFrame)
      && (active <==> frameSrc != "")
      && bodyOverflow == (if active then HiddenOverflow else "")
    }

    /** The page as served: overlay closed, no source, scrolling free. */
    constructor(hasOverlay: bool, hasFrame: bool)
      ensures Valid() && !active
      ensures this.hasOverlay == hasOverlay && this.hasFrame == hasFrame
    {
      this.hasOverlay, this.hasFrame := hasOverlay, hasFrame;
      active, frameSrc, bodyOverflow := false, "", "";
    }

    /** A play button with `data-video-url` equal to `url` is clicked: a
        non-empty url opens the overlay on it, when both elements exist. */
    method Play(url: Option<string>)
      requires Valid()
      modifies this
      ensures Valid()
      ensures url.Some? && url.value != "" && hasOverlay && hasFrame ==>
        active && frameSrc == url.value && bodyOverflow == HiddenOverflow
      ensures !(url.Some? && url.value != "" && hasOverlay && hasFrame) ==>
        active == old(active) && frameSrc == old(frameSrc) && bodyOverflow == old(bodyOverflow)
    {
      if url.Some? && url.value != "" && hasOverlay && hasFrame {
        frameSrc := url.value;
        active := true;
        bodyOverflow := HiddenOverflow;
      }
    }

    /** `closeVideo`: stops the clip and frees the body's scrolling, when
        both elements exist. */
    method Close()
      requires Valid()
      modifies this
      ensures Valid()
      ensures hasOverlay && hasFrame ==> !active && frameSrc == "" && bodyOverflow == ""
      ensures !(hasOverlay && hasFrame) ==>
        active == old(active) && frameSrc == old(frameSrc) && bodyOverflow == old(bodyOverflow)
    {
      if hasOverlay && hasFrame {
        active := false;
        frameSrc := "";
        bodyOverflow := "";
      }
    }

    /** A click on the overlay closes it only when the click landed on the
        overlay itself, not on the player inside it. */
    method OverlayClick(targetIsOverlay: bool)
      requires Valid()
      modifies this
      ensures Valid()
      ensures hasOverlay && hasFrame && targetIsOverlay ==> !active
      ensures !(hasOverlay && hasFrame && targetIsOverlay) ==>
        active == old(active) && frameSrc == old(frameSrc) && bodyOverflow == old(bodyOverflow)
    {
      if hasOverlay && targetIsOverlay {
        Close();
      }
    }

    /** A key pressed anywhere: Escape closes an open overlay. */
    method KeyDown(key: string)
      requires Valid()
      modifies this
      ensures Valid()
      ensures key == "Escape" ==> !active
      ensures key != "Escape" ==>
        active == old(active) && frameSrc == old(frameSrc) && bodyOverflow == old(bodyOverflow)
    {
      if key == "Escape" && hasOverlay && active {
        Close();
      }
    }
  }
}
