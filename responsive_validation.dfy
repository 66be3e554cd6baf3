/**
 * The responsive-design self check (validate-responsive.js): six tests
 * inspect the page and each may set its own flag in a shared results
 * object; `runValidation` runs them and counts the flags that are set;
 * `testViewportSizes` names the Bootstrap breakpoint each listed viewport
 * width falls in.
 *
 * What the tests read from the page (element lookups, `CSS.supports`, the
 * first style sheet's rules, the viewport meta tag) is a `Page` value; the
 * console output is the methods' results.
 */
module ResponsiveValidation {
  import opened Wrappers
  import opened Text
  import Widgets

  // ---------------------------------------------------------------------
  // Breakpoints
  // ---------------------------------------------------------------------

  datatype Breakpoint = Xs | Sm | Md | Lg | Xl | Xxl

  /** The lowest width of each breakpoint above `xs`, in order. */
  const Thresholds: seq<int> := [576, 768, 992, 1200, 1400]

  /** The breakpoint's position, from `xs` (0) to `xxl` (5). */
  function Rank(b: Breakpoint): (r: nat)
    ensures r <= |Thresholds|
  {
    match b
    case Xs => 0
    case Sm => 1
    case Md => 2
    case Lg => 3
    case Xl => 4
    case Xxl => 5
  }

  /** The name `testViewportSizes` logs. */
  function Name(b: Breakpoint): string
  {
    match b
    case Xs => "xs"
    case Sm => "sm"
    case Md => "md"
    case Lg => "lg"
    case Xl => "xl"
    case Xxl => "xxl"
  }

  /** The expected breakpoint of a viewport `width` pixels wide: a width is
      past the `k`-th threshold exactly when its breakpoint ranks above
      `k`. */
  function Classify(width: int): (b: Breakpoint)
    ensures forall k :: 0 <= k < |Thresholds| ==> (Rank(b) > k <==> width >= Thresholds[k])
  {
    if width < 576 then Xs
    else if width < 768 then Sm
    else if width < 992 then Md
    else if width < 1200 then Lg
    else if width < 1400 then Xl
    else Xxl
  }

  /** A wider viewport never falls in a lower breakpoint. */
  lemma ClassifyMonotone(narrow: int, wide: int)
    requires narrow <= wide
    ensures Rank(Classify(narrow)) <= Rank(Classify(wide))
  {
    var r := Rank(Classify(narrow));
    if r > 0 {
      assert narrow >= Thresholds[r - 1];
    }
  }

  /** Each breakpoint is the interval between its threshold and the next. */
  lemma ClassifyInterval(width: int, b: Breakpoint)
    ensures Classify(width) == b <==>
      (Rank(b) == 0 || width >= Thresholds[Rank(b) - 1])
      && (Rank(b) == |Thresholds| || width < Thresholds[Rank(b)])
  {
    var c := Classify(width);
    if c != b {
      if Rank(c) < Rank(b) {
        assert width < Thresholds[Rank(c)];
      } else {
        assert Rank(c) > Rank(b);
        assert width >= Thresholds[Rank(b)];
      }
    }
  }

  datatype Viewport = Viewport(name: string, width: int, height: int)

  /** The six viewports `testViewportSizes` lists. */
  const ViewportTests: seq<Viewport> := [
    Viewport("Mobile Portrait", 375, 667),
    Viewport("Mobile Landscape", 667, 375),
    Viewport("Tablet Portrait", 768, 1024),
    Viewport("Tablet Landscape", 1024, 768),
    Viewport("Desktop Small", 1200, 800),
    Viewport("Desktop Large", 1920, 1080)
  ]

  /** `testViewportSizes`: the expected breakpoint it logs for each listed
      viewport, in order; the six listed widths cover the six
      breakpoints in increasing order. */
  method TestViewportSizes() returns (expected: seq<Breakpoint>)
    ensures |expected| == |ViewportTests|
    ensures forall i :: 0 <= i < |expected| ==> expected[i] == Classify(ViewportTests[i].width)
    ensures expected == [Xs, Sm, Md, Lg, Xl, Xxl]
  {
    expected := [];
    var i := 0;
    while i < |ViewportTests|
      invariant 0 <= i <= |ViewportTests| && |expected| == i
      invariant forall j :: 0 <= j < i ==> expected[j] == Classify(ViewportTests[j].width)
    {
      var test := ViewportTests[i];
      var breakpoint: Breakpoint;
      if test.width < 576 {
        breakpoint := Xs;
      } else if test.width < 768 {
        breakpoint := Sm;
      } else if test.width < 992 {
        breakpoint := Md;
      } else if test.width < 1200 {
        breakpoint := Lg;
      } else if test.width < 1400 {
        breakpoint := Xl;
      } else {
        breakpoint := Xxl;
      }
      expected := expected + [breakpoint];
      i := i + 1;
    }
  }

  // ---------------------------------------------------------------------
  // What the tests read from the page
  // ---------------------------------------------------------------------

  /** A `loading="lazy"` image and its `decoding` attribute, if present. */
  datatype Image = Image(decoding: Option<string>)

  /** The five capability checks of `testCrossBrowserSupport`. */
  datatype Capabilities = Capabilities(flexbox: bool, grid: bool, customProperties: bool,
                                       intersectionObserver: bool, touch: bool)

  datatype Page = Page(
    // `.hero`, `.hero h1`, `.hero .hero-btns` found
    heroSection: bool, heroTitle: bool, heroButtons: bool,
    // number of `.investment-focus .col-md-6` and `.ventures .col-md-4`
    investmentCards: nat, ventureCards: nat,
    // number of `.col-lg-3, .col-lg-4, .col-xl-4`; `.hero .col-lg-8` found
    desktopCols: nat, heroContent: bool,
    // `img[loading="lazy"]` in document order; number of `.card-img-wrapper`
    lazyImages: seq<Image>, imageContainers: nat,
    capabilities: Capabilities,
    // `.no-flexbox` found; the selector texts of the first style sheet's
    // rules (`None` for a rule without one), if there is a style sheet
    noFlexboxElement: bool, firstSheetRules: Option<seq<Option<string>>>,
    // number of preconnect and dns-prefetch links; the viewport meta
    // tag's content, if the tag exists; `window.matchMedia` defined
    preconnectLinks: nat, dnsPrefetchLinks: nat, viewportContent: Option<string>,
    hasMatchMedia: bool)

  const AsyncDecoding := "async"
  const NoFlexboxClass := ".no-flexbox"
  const MaximumScale := "maximum-scale"

  // ---------------------------------------------------------------------
  // The decisions of the six tests
  // ---------------------------------------------------------------------

  predicate MobileDetected(page: Page)
  {
    page.heroSection && page.heroTitle && page.heroButtons
  }

  predicate TabletDetected(page: Page)
  {
    page.investmentCards > 0 && page.ventureCards > 0
  }

  predicate DesktopDetected(page: Page)
  {
    page.desktopCols > 0 && page.heroContent
  }

  /** The number of lazy images whose `decoding` is `async`. */
  function AsyncCount(images: seq<Image>): (n: nat)
    ensures n <= |images|
    ensures n > 0 <==> exists i :: 0 <= i < |images| && images[i].decoding == Some(AsyncDecoding)
  {
    if images == [] then 0
    else
      var init := images[..|images| - 1];
      assert forall i :: 0 <= i < |init| ==> init[i] == images[i];
      AsyncCount(init) + if images[|images| - 1].decoding == Some(AsyncDecoding) then 1 else 0
  }

  predicate ImagesOptimized(page: Page)
  {
    |page.lazyImages| > 0 && AsyncCount(page.lazyImages) > 0 && page.imageContainers > 0
  }

  /** The image test passes exactly when some lazy image decodes
      asynchronously and there is an image container: the test that
      there are lazy images at all is implied. */
  lemma ImagesOptimizedIff(page: Page)
    ensures ImagesOptimized(page) <==>
      (exists i :: 0 <= i < |page.lazyImages| && page.lazyImages[i].decoding == Some(AsyncDecoding))
      && page.imageContainers > 0
  {
  }

  function CapabilityValues(c: Capabilities): seq<bool>
  {
    [c.flexbox, c.grid, c.customProperties, c.intersectionObserver, c.touch]
  }

  /** Some rule of the style sheet has a selector text mentioning
      `.no-flexbox` (an empty selector text is falsy, and mentions nothing
      anyway). */
  function RulesMention(rules: seq<Option<string>>): (r: bool)
    ensures r <==> exists i :: 0 <= i < |rules| && rules[i].Some? && Contains(rules[i].value, NoFlexboxClass)
  {
    if rules == [] then false
    else
      assert forall i :: 1 <= i < |rules| ==> rules[1..][i - 1] == rules[i];
      (rules[0].Some? && Contains(rules[0].value, NoFlexboxClass)) || RulesMention(rules[1..])
  }

  predicate FlexboxFallback(page: Page)
  {
    page.noFlexboxElement || (page.firstSheetRules.Some? && RulesMention(page.firstSheetRules.value))
  }

  predicate CrossBrowserSupported(page: Page)
  {
    true in CapabilityValues(page.capabilities) || FlexboxFallback(page)
  }

  /** The cross-browser test passes when any single capability is
      supported, whatever the style sheets hold, and with no capability it
      passes exactly when a `.no-flexbox` fallback is found. */
  lemma CrossBrowserIff(page: Page)
    ensures page.capabilities.flexbox ==> CrossBrowserSupported(page)
    ensures page.capabilities.grid ==> CrossBrowserSupported(page)
    ensures page.capabilities.customProperties ==> CrossBrowserSupported(page)
    ensures page.capabilities.intersectionObserver ==> CrossBrowserSupported(page)
    ensures page.capabilities.touch ==> CrossBrowserSupported(page)
    ensures page.capabilities == Capabilities(false, false, false, false, false) ==>
      (CrossBrowserSupported(page) <==> FlexboxFallback(page))
  {
    var v := CapabilityValues(page.capabilities);
    assert page.capabilities.flexbox ==> v[0];
    assert page.capabilities.grid ==> v[1];
    assert page.capabilities.customProperties ==> v[2];
    assert page.capabilities.intersectionObserver ==> v[3];
    assert page.capabilities.touch ==> v[4];
  }

  predicate ViewportLimitsScale(content: Option<string>)
  {
    content.Some? && Contains(content.value, MaximumScale)
  }

  /** The four independent conditions `testPerformance` scores. */
  function PerformanceChecks(page: Page): seq<bool>
  {
    [page.preconnectLinks > 0, page.dnsPrefetchLinks > 0,
     ViewportLimitsScale(page.viewportContent), page.hasMatchMedia]
  }

  /** `performanceScore`: how many of the four conditions hold. */
  function PerformanceScore(page: Page): (score: nat)
    ensures score <= 4
  {
    Widgets.CountTrue(PerformanceChecks(page))
  }

  predicate PerformanceOptimized(page: Page)
  {
    PerformanceScore(page) >= 2
  }

  /** The performance test passes exactly when two different conditions
      hold. */
  lemma PerformanceIff(page: Page)
    ensures PerformanceOptimized(page) <==>
      exists i, j :: 0 <= i < j < 4 && PerformanceChecks(page)[i] && PerformanceChecks(page)[j]
  {
    TwoTrue(PerformanceChecks(page));
  }

  /** A list of flags holds two set flags exactly when its count is two or
      more. */
  lemma {:induction false} TwoTrue(s: seq<bool>)
    ensures Widgets.CountTrue(s) >= 2 <==> exists i, j :: 0 <= i < j < |s| && s[i] && s[j]
  {
    if s != [] {
      var t := s[1..];
      TwoTrue(t);
      if exists i, j :: 0 <= i < j < |s| && s[i] && s[j] {
        var i, j :| 0 <= i < j < |s| && s[i] && s[j];
        if i == 0 {
          assert t[j - 1];
        } else {
          assert t[i - 1] && t[j - 1];
        }
      }
      if Widgets.CountTrue(s) >= 2 {
        if s[0] {
          var k :| 0 <= k < |t| && t[k];
          assert s[0] && s[k + 1];
        } else {
          var i, j :| 0 <= i < j < |t| && t[i] && t[j];
          assert s[i + 1] && s[j + 1];
        }
      }
    }
  }

  /** All flags are set exactly when the count equals their number. */
  lemma {:induction false} AllTrue(s: seq<bool>)
    ensures Widgets.CountTrue(s) == |s| <==> false !in s
  {
    if s != [] {
      AllTrue(s[1..]);
      assert s == [s[0]] + s[1..];
    }
  }

  // ---------------------------------------------------------------------
  // The shared results object
  // ---------------------------------------------------------------------

  /** `validationResults`: one flag per test, all false to begin with; the
      tests only ever set their own flag. */
  class ValidationResults {
    var mobileBreakpoints: bool
    var tabletLayout: bool
    var desktopLayout: bool
    var imageOptimization: bool
    var crossBrowserSupport: bool
    var performance: bool

    /** The flags in the order of the object's keys. */
    function Flags(): (f: seq<bool>)
      reads this
      ensures |f| == 6
    {
      [mobileBreakpoints, tabletLayout, desktopLayout, imageOptimization, crossBrowserSupport, performance]
    }

    constructor()
      ensures Flags() == [false, false, false, false, false, false]
    {
      mobileBreakpoints, tabletLayout, desktopLayout := false, false, false;
      imageOptimization, crossBrowserSupport, performance := false, false, false;
    }

    method TestMobileBreakpoints(page: Page)
      modifies this
      ensures mobileBreakpoints == (old(mobileBreakpoints) || MobileDetected(page))
      ensures (tabletLayout, desktopLayout, imageOptimization, crossBrowserSupport, performance)
          == old((tabletLayout, desktopLayout, imageOptimization, crossBrowserSupport, performance))
    {
      if page.heroSection && page.heroTitle && page.heroButtons {
        mobileBreakpoints := true;
      }
    }

    method TestTabletLayout(page: Page)
      modifies this
      ensures tabletLayout == (old(tabletLayout) || TabletDetected(page))
      ensures (mobileBreakpoints, desktopLayout, imageOptimization, crossBrowserSupport, performance)
          == old((mobileBreakpoints, desktopLayout, imageOptimization, crossBrowserSupport, performance))
    {
      if page.investmentCards > 0 && page.ventureCards > 0 {
        tabletLayout := true;
      }
    }

    method TestDesktopLayout(page: Page)
      modifies this
      ensures desktopLayout == (old(desktopLayout) || DesktopDetected(page))
      ensures (mobileBreakpoints, tabletLayout, imageOptimization, crossBrowserSupport, performance)
          == old((mobileBreakpoints, tabletLayout, imageOptimization, crossBrowserSupport, performance))
    {
      if page.desktopCols > 0 && page.heroContent {
        desktopLayout := true;
      }
    }

    /** Counts the lazy images that decode asynchronously, one by one. */
    method TestImageOptimization(page: Page)
      modifies this
      ensures imageOptimization == (old(imageOptimization) || ImagesOptimized(page))
      ensures (mobileBreakpoints, tabletLayout, desktopLayout, crossBrowserSupport, performance)
          == old((mobileBreakpoints, tabletLayout, desktopLayout, crossBrowserSupport, performance))
    {
      var lazyImages := page.lazyImages;
      var optimizedImages := 0;
      var i := 0;
      while i < |lazyImages|
        invariant 0 <= i <= |lazyImages|
        invariant optimizedImages == AsyncCount(lazyImages[..i])
      {
        assert lazyImages[..i + 1][..i] == lazyImages[..i];
        if lazyImages[i].decoding.Some? && lazyImages[i].decoding.value == AsyncDecoding {
          optimizedImages := optimizedImages + 1;
        }
        i := i + 1;
      }
      assert lazyImages[..i] == lazyImages;
      if |lazyImages| > 0 && optimizedImages > 0 && page.imageContainers > 0 {
        imageOptimization := true;
      }
    }

    method TestCrossBrowserSupport(page: Page)
      modifies this
      ensures crossBrowserSupport == (old(crossBrowserSupport) || CrossBrowserSupported(page))
      ensures (mobileBreakpoints, tabletLayout, desktopLayout, imageOptimization, performance)
          == old((mobileBreakpoints, tabletLayout, desktopLayout, imageOptimization, performance))
    {
      var hasFlexboxFallback := page.noFlexboxElement
        || (page.firstSheetRules.Some? && RulesMention(page.firstSheetRules.value));
      if true in CapabilityValues(page.capabilities) || hasFlexboxFallback {
        crossBrowserSupport := true;
      }
    }

    /** Adds one to the score for each condition that holds. */
    method TestPerformance(page: Page)
      modifies this
      ensures performance == (old(performance) || PerformanceOptimized(page))
      ensures (mobileBreakpoints, tabletLayout, desktopLayout, imageOptimization, crossBrowserSupport)
          == old((mobileBreakpoints, tabletLayout, desktopLayout, imageOptimization, crossBrowserSupport))
    {
      var performanceScore := 0;
      if page.preconnectLinks > 0 {
        performanceScore := performanceScore + 1;
      }
      if page.dnsPrefetchLinks > 0 {
        performanceScore := performanceScore + 1;
      }
      if ViewportLimitsScale(page.viewportContent) {
        performanceScore := performanceScore + 1;
      }
      if page.hasMatchMedia {
        performanceScore := performanceScore + 1;
      }
      ScoreCounts(page);
      if performanceScore >= 2 {
        performance := true;
      }
    }

    /** `runValidation`: runs the six tests, counts the flags that are set
        and reports whether all are; it returns this same object. A flag
        set by an earlier run stays set. */
    method RunValidation(page: Page) returns (results: ValidationResults, passedTests: nat, allMet: bool)
      modifies this
      ensures mobileBreakpoints == (old(mobileBreakpoints) || MobileDetected(page))
      ensures tabletLayout == (old(tabletLayout) || TabletDetected(page))
      ensures desktopLayout == (old(desktopLayout) || DesktopDetected(page))
      ensures imageOptimization == (old(imageOptimization) || ImagesOptimized(page))
      ensures crossBrowserSupport == (old(crossBrowserSupport) || CrossBrowserSupported(page))
      ensures performance == (old(performance) || PerformanceOptimized(page))
      ensures passedTests == Widgets.CountTrue(Flags()) && passedTests <= 6
      ensures allMet <==> forall k :: 0 <= k < 6 ==> Flags()[k]
      ensures results == this
    {
      TestMobileBreakpoints(page);
      TestTabletLayout(page);
      TestDesktopLayout(page);
      TestImageOptimization(page);
      TestCrossBrowserSupport(page);
      TestPerformance(page);
      var flags := Flags();
      passedTests := Widgets.CountTrue(flags);
      var totalTests := |flags|;
      AllTrue(flags);
      allMet := passedTests == totalTests;
      results := this;
    }
  }

  /** The score is the sum, over the four conditions, of one for each that
      holds. */
  lemma ScoreCounts(page: Page)
    ensures PerformanceScore(page) ==
      (if page.preconnectLinks > 0 then 1 else 0) + (if page.dnsPrefetchLinks > 0 then 1 else 0)
      + (if ViewportLimitsScale(page.viewportContent) then 1 else 0) + (if page.hasMatchMedia then 1 else 0)
  {
    var c := PerformanceChecks(page);
    var c1, c2, c3 := c[1..], c[1..][1..], c[1..][1..][1..];
    assert c1 == [c[1], c[2], c[3]] && c2 == [c[2], c[3]] && c3 == [c[3]] && c3[1..] == [];
    assert Widgets.CountTrue(c3) == if c[3] then 1 else 0;
    assert Widgets.CountTrue(c2) == (if c[2] then 1 else 0) + Widgets.CountTrue(c3);
    assert Widgets.CountTrue(c1) == (if c[1] then 1 else 0) + Widgets.CountTrue(c2);
  }
}
