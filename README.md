# IV1 Fund site scripts — a Dafny model

This project models the rule logic of the IV1 Fund marketing site:

- **js/main.js**, the page script:
  - the contact form's client-side validation, its submit gate and the live `is-invalid`/`is-valid` marks;
  - the navigation scrollspy;
  - the `scrolled` and scroll-to-top toggles;
  - the carousel indicators, the Isotope defaults and the filter click;
  - the mobile navigation toggle and the video overlay.
- **js/animations.js**, the `AnimationManager`:
  - the smooth scroll and its easing curves;
  - the sticky header and its one-frame throttle;
  - parallax;
  - the `animate-in` marking;
  - `animateElement`;
  - the button ripple;
  - the reduced-motion alternatives.
- **validate-responsive.js**, the responsive self check: the breakpoint classifier, the six tests' decisions and the aggregation in `runValidation`.
- **forms/contact.php**, the mail relay: field cleaning, the ordered error list, the reply and the mail body and headers.

One Dafny module stands for each component:

- **Imperative code.** Where the source changes state step by step, the module has a `class` with methods and `modifies` clauses, or a method over an `array`. Loops become `while` loops with invariants. Each method is proved against a specification function: `Spied`, `Writes`, `Reduced`, `AfterClick`, `FormErrors`, `Messages` and so on.
- **Pure code.** Expression-only code (easing curves, predicates, the classifier) becomes functions, with lemmas about them.
- **Shared pieces.**
  - `Text` holds the JavaScript and PHP whitespace sets, `trim`, `join`/`implode`, `includes` and character counting.
  - `JsNumbers` holds `parseInt`, `String(n)` and the timer-delay conversion (`ToInt32`, with negative delays clamped to zero).
  - `FormFields` holds the field order that both the page and the handler check in.
- **Host inputs.** The browser and PHP runtime enter as parameters:
  - the frame timestamps, scroll positions, element geometry and key presses;
  - the result of `parseFloat`;
  - `strip_tags` as a function and `FILTER_VALIDATE_EMAIL` as a predicate;
  - the boolean returned by `mail()` and the `date()` string.
  - In the self check, the page's element lookups become a `Page` value.

Behaviours of the code a reader may not expect, which the model keeps:

- With a header 80 pixels high, frames at 60, 120 and 90 leave the header shown, hidden, shown (`StickyHeader.TraceExample`). The first frame is not past the header's height.
- Parallax reads the element's geometry afresh on every scroll.
- Scroll-triggered marking has no once-guard. Every notification that an element is in view schedules another `animate-in` and another `animationStart` event.
- The reduced-motion alternatives are applied on top of whatever was set up before. Nothing is torn down.

## Model

| member | source | states |
|---|---|---|
| FormFields.FailedChecks | js/main.js:320-348 | the failed checks, in the order name, email, phone, message: at most four, none exactly when all four pass, each field listed exactly when its check fails |
| FormFields.FailedChecksInOrder | forms/contact.php:20-36 | the failed checks appear in strictly increasing checking order, on both the page and the handler |
| ContactForm.EmailIsPattern | js/main.js:329-333 | a string passes the direct L@D test exactly when `/^[^\s@]+@[^\s@]+\.[^\s@]+$/` matches it: L and D are non-empty and hold no whitespace and no `@`, and D has a `.` that is neither its first nor its last character |
| ContactForm.EmailMatchesPattern | js/main.js:330-331 | every string the L@D test accepts decomposes as the regular expression requires |
| ContactForm.PatternIsEmail | js/main.js:330-331 | every decomposition the regular expression admits passes the L@D test |
| ContactForm.IndexOf | js/main.js:330 | the first index of a character, or none exactly when the character is absent |
| ContactForm.CleanPhone | js/main.js:338 | deleting whitespace, `-`, `(` and `)` keeps every other character of the input, and only those |
| ContactForm.CleanPhoneConcat | js/main.js:338 | the clean-up works character by character and keeps the order: cleaning `a + b` is cleaning `a`, then `b` |
| ContactForm.CleanPhoneOne | js/main.js:338 | a single character is deleted exactly when it is whitespace, `-`, `(` or `)` |
| ContactForm.PhoneShape | js/main.js:336-340 | an accepted cleaned phone has 1 to 17 characters: a `+` only in front, a leading digit 1-9 otherwise, and ASCII digits after that |
| ContactForm.Messages | js/main.js:320-348 | one message per failed check, in the same order: the k-th message is the one pushed for the k-th failed check |
| ContactForm.ValidateForm | js/main.js:320-348 | the pushed list is exactly `FailedChecks` of the four verdicts (name: present with trimmed length at least 2; email: the L@D test; phone: present and the cleaned value matches; message: trimmed length at least 10) |
| ContactForm.FormStatus.constructor | js/main.js:315-317 | the three status elements start hidden and no request has been sent |
| ContactForm.FormStatus.ShowError | js/main.js:357-362 | only the error element is shown, carrying the message |
| ContactForm.FormStatus.ShowLoading | js/main.js:351-355 | only the loading element is shown |
| ContactForm.FormStatus.ShowSuccess | js/main.js:364-369 | only the sent element is shown |
| ContactForm.FormStatus.Submit | js/main.js:372-386 | a request is sent exactly when all four checks pass; otherwise no request is sent and the error shows the messages joined by `". "` |
| ContactForm.FormStatus.RequestSettled | js/main.js:390-402 | a successful response shows the sent element; a failed one shows the fixed error text |
| ContactForm.BlurAgreesWithValidateForm | js/main.js:408-424 | on blur, each of name, email, phone and message is invalid exactly when the submit-time check on its value fails; a field with any other name is never invalid |
| ContactForm.FormInput.constructor | js/main.js:406-407 | an input starts with neither mark |
| ContactForm.FormInput.Blur | js/main.js:408-424 | `is-invalid` is set exactly when the field's own check fails; otherwise `is-invalid` is cleared and `is-valid` added |
| ContactForm.FormInput.Input | js/main.js:426-428 | an `input` event removes both marks |
| ContactHandler.Messages | forms/contact.php:22-36 | the k-th error string is the message of the k-th failed check |
| ContactHandler.MessagesOfChecks | forms/contact.php:20-36 | the error list is the four checks' pushes, one after the other |
| ContactHandler.MessagesConcat | forms/contact.php:20-36 | the messages of two lists of failed checks joined are the two message lists joined |
| ContactHandler.CollectErrors | forms/contact.php:20-36 | one message per failed check, in the order name, email, phone, message; a field fails when PHP `empty()` holds on it (so `"0"` is missing), and the email also fails when the filter rejects it |
| ContactHandler.HandleRequest | forms/contact.php:12-64 | a non-POST request gets `Error: Invalid request method` and no mail; with errors, `Error: ` and the messages joined by `", "`, and no mail; otherwise one mail to the fixed address with the fixed subject, body and headers, replying `OK` exactly when `mail` succeeds; every reply other than `OK` starts with `Error: ` |
| ContactHandler.BodyEntriesInOrder | forms/contact.php:42-47 | the mail body is the introduction followed by the Name, Email, Phone, Message and Submitted-on entries, each at the offset the previous ones reach |
| ContactHandler.SixInOrder | forms/contact.php:42-47 | six concatenated texts each occur at the offset of those before them |
| ContactHandler.HeaderLineBreaks | forms/contact.php:49-51 | the header block holds 3 LF and 3 CR, plus two of each for every one the sender's address carries |
| ContactHandler.HeaderBreaksOf | forms/contact.php:49-51 | the line-break count of the header block, per break character |
| ContactHandler.HeaderTextsHaveNoBreak | forms/contact.php:49-51 | the fixed header keys and the content type carry no line break |
| ContactHandler.ContentTypePrintable | forms/contact.php:51 | the content-type line holds no control character |
| ContactHandler.HeaderLinesBreaks | forms/contact.php:49-51 | three CRLF lines, two carrying the same value, hold 3 + 2·(breaks in the value) breaks |
| ContactHandler.EntryBreaks | forms/contact.php:49-51 | a CRLF-terminated entry has one more break than its value |
| Text.TrimStart | js/main.js:324 | the stripped prefix is all whitespace and the rest starts with a non-whitespace character |
| Text.TrimEnd | js/main.js:324 | the stripped suffix is all whitespace and the rest ends with a non-whitespace character |
| Text.Trim | forms/contact.php:14-17 | the result is a window of the input, with only stripped characters outside it and none at either of its ends |
| Text.TrimWindow | forms/contact.php:14-17 | trimming the start and then the end leaves such a window |
| Text.JoinStartsWithFirst | js/main.js:379 | the joined text begins with the first item, is that item alone for one item, and is at least as long as the first item plus one separator per further item |
| Text.JoinAppend | js/main.js:379 | joining one more item appends a separator and that item, so the items appear in order with one separator between each two |
| Text.Contains | validate-responsive.js:154 | `includes` holds exactly when the text occurs at some position |
| Text.Count | forms/contact.php:49-51 | the count is zero exactly when the character is absent, and at most the length |
| Text.CountConcat | forms/contact.php:49-51 | counts add up over concatenation |
| Easing.CurveNamed | js/animations.js:53-62 | exactly the three names of `easeFunctions` find a curve, each its own one; any other name finds none, and calling it throws |
| Easing.FixesEnds | js/animations.js:53-57 | every curve maps 0 to 0 and 1 to 1 |
| Easing.InOutCubicEnds | js/animations.js:54 | `easeInOutCubic` fixes 0 and 1 |
| Easing.OutCubicEnds | js/animations.js:55 | `easeOutCubic` fixes 0 and 1 |
| Easing.InOutQuadEnds | js/animations.js:56 | `easeInOutQuad` fixes 0 and 1 |
| Easing.BranchesMeet | js/animations.js:54-56 | both branches of `easeInOutCubic` and both of `easeInOutQuad` give 0.5 at 0.5 |
| Easing.StaysInUnit | js/animations.js:53-57 | every curve maps [0,1] into [0,1] |
| Easing.Monotone | js/animations.js:53-57 | every curve is non-decreasing on [0,1] |
| Easing.CubeMonotone | js/animations.js:54-55 | cubing is monotone on non-negative values |
| Easing.SquareMonotone | js/animations.js:56 | squaring is monotone on non-negative values |
| SmoothScroll.Progress | js/animations.js:60-61 | progress is at most 1, non-negative once the start time has passed, and exactly 1 once the duration has elapsed |
| SmoothScroll.Scroll | js/animations.js:59-69 | an unknown easing throws before writing; otherwise the frame writes start + distance·ease(progress) and requests another frame exactly when progress < 1 |
| SmoothScroll.SmoothScrollTo | js/animations.js:47-72 | the positions written over the delivered frames are `Writes`: none, with a throw in the first frame, for an unknown easing |
| SmoothScroll.ResumesStep | js/animations.js:59-69 | delivering the next requested frame appends its position and keeps requesting while progress < 1 |
| SmoothScroll.WritesFrom | js/animations.js:59-69 | the writes from a frame on are that frame's position, then the later ones if it did not finish |
| SmoothScroll.ResumesDone | js/animations.js:66-71 | once the frames run out or none is requested, the positions written are the whole scroll |
| SmoothScroll.WritesShape | js/animations.js:61-68 | at most one write per frame and at least one when a frame arrives; every write but the last has progress < 1, and the last reached 1 when frames are left over |
| SmoothScroll.WriteAt | js/animations.js:59-64 | the k-th write is the eased position of the k-th frame |
| SmoothScroll.FinalWriteIsTarget | js/animations.js:61-64 | a frame at progress 1 writes exactly the target |
| SmoothScroll.LastWriteIsTarget | js/animations.js:59-69 | once a frame arrives after the duration, the scroll ends at the first such frame and its write is the target |
| SmoothScroll.Between | js/animations.js:64 | an eased value in [0,1] places the position between the start and the target |
| SmoothScroll.WritesBetween | js/animations.js:59-64 | with no frame before the start time, every written position lies between the start and the target |
| SmoothScroll.WritesAdvance | js/animations.js:59-64 | with frames in time order, every write is at least as far along as the one before |
| SmoothScroll.Advances | js/animations.js:64 | a larger eased value gives a position at least as far along |
| SmoothScroll.ProgressMonotone | js/animations.js:60-61 | progress does not decrease with time |
| StickyHeader.Trace | js/animations.js:165-184 | one hidden/shown verdict per frame |
| StickyHeader.TraceAt | js/animations.js:165-184 | a frame's verdict depends only on its position, the previous frame's position and the header height |
| StickyHeader.TraceExample | js/animations.js:162-184 | with header height 80 from position 0, frames at 60, 120 and 90 give shown, hidden, shown |
| StickyHeader.UpwardShows | js/animations.js:168-174 | a frame no further down than the previous one shows the header |
| StickyHeader.NearTopShows | js/animations.js:168-174 | within the header's height of the top, the header is shown |
| StickyHeader.Header.constructor | js/animations.js:158-163 | the last position starts at 0, the header height is read once, and no frame is pending |
| StickyHeader.Header.HandleScroll | js/animations.js:165-184 | the header is hidden exactly when the page moved down past the header height; the body is `scrolled` exactly above 50; the position is remembered |
| StickyHeader.Header.OnScroll | js/animations.js:188-196 | a scroll event leaves exactly one frame pending, scheduling none while one already is |
| StickyHeader.Header.RunFrame | js/animations.js:190-193 | the pending frame handles the position read at frame time and clears `ticking` |
| Parallax.Speed | js/animations.js:138 | a NaN or zero parse falls back to 0.5; any other parse is the speed |
| Parallax.Element.constructor | js/animations.js:137-138 | the element's speed is fixed when set up and nothing is written yet |
| Parallax.Element.Update | js/animations.js:140-150 | strictly inside the visibility window the offset −(scrolled − top)·speed is written; outside it the transform is left as it was |
| Parallax.OffsetShift | js/animations.js:147 | scrolling by d moves the offset by −d·speed |
| Parallax.OffsetZeroAtTop | js/animations.js:147 | the offset is zero with the page at the element's top |
| Parallax.OffsetBounded | js/animations.js:145-147 | inside the window, with a positive speed, the offset lies strictly between −height·speed and innerHeight·speed |
| Parallax.OffsetExample | js/animations.js:138-147 | a top of 1000 at the default speed, seen with the page at 1200, gives −100 |
| Scrollspy.LastMatch | js/main.js:236-249 | the last link whose section holds the reading position, or none when no section does |
| Scrollspy.Stop | js/main.js:237-239 | the pass visits the links before the first one whose `querySelector` throws, or all of them |
| Scrollspy.Visited | js/main.js:236-249 | one `active` flag per link |
| Scrollspy.Spied | js/main.js:236-249 | one `active` flag per link |
| Scrollspy.NavmenuScrollspy | js/main.js:236-249 | a lookup throws exactly when some link's hash is not a valid selector; the `active` classes are then `Spied`: only the last matching visited link, or, with no match, the visited tracked links cleared and the others unchanged |
| Scrollspy.VisitLink | js/main.js:237-248 | one link: a throwing lookup changes nothing and reports it; otherwise the classes are those of one more link visited |
| Scrollspy.AtMostOneActive | js/main.js:242-247 | after a pass, a visited tracked link and a later tracked link are not both active |
| Scrollspy.ThrowLeavesTwoActive | js/main.js:239 | a hash such as `#1-intro` ends the pass at once, so two later links stay active |
| Scrollspy.ActiveIsLastMatch | js/main.js:236-249 | a visited tracked link is active exactly when its section holds scrollY+200 (both ends included) and no later visited link's does |
| Scrollspy.NoMatchKeepsUnvisited | js/main.js:238-247 | with no visited match, links without a hash or a section, and the links from the throwing one on, keep their class |
| Widgets.GenerateIndicators | js/main.js:183-191 | n items append exactly n indicators targeting the carousel, with slide indices 0..n−1 in order and only the first active; the existing ones are kept |
| Widgets.IsotopeDefaults | js/main.js:142-144 | only a missing attribute falls back to `masonry`, `*` or `original-order` |
| Widgets.FirstActive | js/main.js:158 | the first item carrying `filter-active`, or none when no item does |
| Widgets.AfterClick | js/main.js:156-166 | the click throws exactly when no item is active; otherwise the clicked item is active afterwards |
| Widgets.FilterClick | js/main.js:156-166 | the classes become `AfterClick`: nothing changes when the lookup throws, and the clicked filter is passed to `arrange` once the layout exists |
| Widgets.ClickMovesActive | js/main.js:156-166 | with exactly one active item before a click, exactly one is active after it: the clicked one |
| Widgets.ClickKeepsLaterActive | js/main.js:158-159 | with two or more active items, only the first loses the class |
| Widgets.OnlyActiveCount | js/main.js:156-166 | a list whose only active item is j holds exactly one active item |
| Widgets.CountTrue | validate-responsive.js:188 | the count is at most the length and zero exactly when no flag is set |
| PageChrome.Page.constructor | js/main.js:15-20 | the header's stickiness and the button's presence are fixed |
| PageChrome.Page.ToggleScrolled | js/main.js:15-20 | with a sticky header the body is `scrolled` exactly above 100; otherwise nothing changes |
| PageChrome.Page.ToggleScrollTop | js/main.js:78-82 | the scroll-top button is active exactly above 100, when it exists |
| PageChrome.MobileNav.constructor | js/main.js:28-37 | the menu starts closed with the hamburger icon |
| PageChrome.MobileNav.Toggle | js/main.js:30-34 | the body class and both icons flip, and the icon keeps matching the menu |
| PageChrome.MobileNav.NavLinkClick | js/main.js:42-49 | a navigation link closes an open menu |
| PageChrome.MobileNav.ToggleKeyDown | js/main.js:714-719 | Enter or space on the toggle flips the menu; other keys do nothing |
| PageChrome.MobileNav.DocumentKeyDown | js/main.js:722-727 | Escape closes an open menu |
| PageChrome.VideoOverlay.constructor | js/main.js:256-260 | the overlay starts closed with no source and free scrolling |
| PageChrome.VideoOverlay.Play | js/main.js:263-272 | a non-empty URL opens the overlay on it and locks scrolling, when both elements exist; otherwise nothing changes |
| PageChrome.VideoOverlay.Close | js/main.js:275-281 | closing clears the source and frees scrolling |
| PageChrome.VideoOverlay.OverlayClick | js/main.js:289-295 | only a click on the overlay itself closes it |
| PageChrome.VideoOverlay.KeyDown | js/main.js:298-302 | Escape closes an open overlay; other keys do nothing |
| JsNumbers.DigitValue | js/animations.js:117 | a digit's value is below the radix; in base 10 exactly `0`-`9` are digits |
| JsNumbers.DigitRun | js/animations.js:117 | the longest prefix of digits |
| JsNumbers.Radix | js/animations.js:117 | a `0x`/`0X` prefix selects base 16 and is skipped; anything else is read in base 10 from the start |
| JsNumbers.ParseInt | js/animations.js:117 | `parseInt` is NaN exactly when the first character after the whitespace, the sign and a `0x` prefix is missing or not a digit of the base |
| JsNumbers.Unsigned | js/animations.js:117 | a leading `-` or `+` is dropped, and a text without one is kept whole |
| JsNumbers.Decimal | js/animations.js:415 | `String(n)` is a non-empty string of decimal digits, with a leading zero only for 0 |
| JsNumbers.ParseDecimal | js/animations.js:107-117 | `parseInt(String(n)) == n` for every non-negative integer |
| JsNumbers.ParseSignedDecimal | js/animations.js:117 | after any whitespace and an optional sign, a decimal number followed by a non-digit (and not making a `0x` prefix) reads as the number, negated for `-`: only the leading digit run counts |
| JsNumbers.TrimStartSkips | js/animations.js:117 | the skipped leading whitespace is exactly the run before the first other character |
| JsNumbers.SignedStart | js/animations.js:117 | after a sign, or none, the sign is dropped and the digits remain; the text starts with `-` exactly when the sign is `-` |
| JsNumbers.ParseIntOf | js/animations.js:117 | once the whitespace is skipped and the digits are read, the result is the number with the sign applied |
| JsNumbers.ParseDigitsPrefix | js/animations.js:117 | decimal digits followed by a non-digit that does not form a `0x` prefix read as their number |
| JsNumbers.DigitRunStops | js/animations.js:117 | a run of decimal digits ends at the first non-digit |
| JsNumbers.ParseDigitsDecimal | js/animations.js:117 | the digit parse of `String(n)` is n |
| JsNumbers.DigitRunAll | js/animations.js:117 | a string of decimal digits is one run |
| JsNumbers.DecimalValue | js/animations.js:117 | the digits of `String(n)` denote n |
| JsNumbers.ToInt32 | js/animations.js:109-117 | a 32-bit two's-complement value congruent to the input mod 2^32, the input itself when it fits |
| JsNumbers.TimerDelay | js/animations.js:435-437 | a timer waits the delay when it is in [0, 2^31) and 0 for NaN or a negative 32-bit value |
| JsNumbers.TimerDelayWraps | js/animations.js:109-117 | 2^32+5 waits 5 and 2^31 does not wait |
| InView.DelayText | js/animations.js:107 | an empty or missing attribute falls back to `'0'` |
| InView.NoAttributeNoDelay | js/animations.js:107-117 | with no delay attribute the element is marked without delay |
| InView.DecimalDelay | js/animations.js:107-117 | a decimal delay below 2^31 is waited exactly |
| InView.AnimatedElement.constructor | js/animations.js:105-107 | no timer pending and no event dispatched |
| InView.AnimatedElement.OnEntry | js/animations.js:84-90 | an intersecting entry schedules exactly one timer with the element's delay; any other entry does nothing |
| InView.AnimatedElement.FireTimer | js/animations.js:109-117 | a fired timer leaves `animate-in` set (idempotently) and dispatches one more `animationStart`, with no once-guard |
| InView.Observer.constructor | js/animations.js:93-94 | the observer watches the matching elements |
| InView.Observer.Resize | js/animations.js:396-402 | a resize re-observes the matching elements and touches no element's `animate-in` |
| InView.ScheduleHero | js/animations.js:386-394 | the hero's k-th element is scheduled at k·150 ms, so each element's timer is scheduled at least 150 ms after every earlier element's: they are marked in document order |
| AnimateElement.Merge | js/animations.js:408-413 | because the options are spread last, a present key wins whatever its value, an undefined key stays undefined, and only an absent key takes the default |
| AnimateElement.DefaultsApply | js/animations.js:408-413 | with no options the defaults are 600, 0 and `easeInOutCubic` |
| AnimateElement.GivenFalsyWins | js/animations.js:408-413 | a duration of 0 and an empty easing are kept |
| AnimateElement.NumberText | js/animations.js:415 | a non-negative number renders as its decimal text, a negative one as `-` and the decimal text of its magnitude, and `undefined` as `undefined` |
| AnimateElement.Transition | js/animations.js:415 | the transition is `all `, then the duration's text and `ms ` at index 4, and the easing at the end, with nothing else in between (its length is the sum of the four parts) |
| AnimateElement.TransitionDuration | js/animations.js:415 | a non-negative duration reads back from the text after `all ` as that number |
| AnimateElement.DefaultTransition | js/animations.js:408-415 | with no options the text is `all 600ms easeInOutCubic` |
| AnimateElement.TransformFor | js/animations.js:417-433 | `slideInLeft` gets `translateX(0)`, `scaleIn` gets `scale(1)`, and every other type gets `translateY(0)` |
| AnimateElement.ResolveDelay | js/animations.js:435-437 | the promise waits duration + delay, or 0 when either is undefined |
| AnimateElement.DefaultResolveDelay | js/animations.js:408-437 | with the defaults the promise resolves after 600 ms |
| AnimateElement.Element.constructor | js/animations.js:415-433 | the three styles as given |
| AnimateElement.Animate | js/animations.js:407-437 | the merged `all …ms …` text is assigned as the transition and kept exactly when it parses as CSS; the element gets opacity `1` and the type's transform; the returned delay is `ResolveDelay` |
| Ripple.Max | js/animations.js:258 | the diameter is the larger of width and height |
| Ripple.RippleCount | js/animations.js:266-271 | the number of ripple children |
| Ripple.Others | js/animations.js:266-271 | the children that are not ripples |
| Ripple.FirstRipple | js/animations.js:266 | the first ripple child, as `getElementsByClassName(...)[0]` finds it |
| Ripple.AfterClick | js/animations.js:266-271 | after a click the last child is the new ripple |
| Ripple.Button.constructor | js/animations.js:256 | the button's size and children |
| Ripple.Button.CreateRipple | js/animations.js:255-272 | the first ripple, if any, is removed and a ripple of diameter max(width, height) appended |
| Ripple.FirstRippleIs | js/animations.js:266 | the scan's stopping point is the first ripple |
| Ripple.CountConcat | js/animations.js:266-271 | counting ripples and collecting the other children distribute over concatenation |
| Ripple.RemoveRipple | js/animations.js:266-269 | removing a ripple takes one away and keeps every other child in order |
| Ripple.SplitAround | js/animations.js:266-269 | counting around one ripple child |
| Ripple.RipplesAfterClick | js/animations.js:255-271 | a click keeps the ripple count or raises it to 1 and keeps the other children in order, so a button with at most one ripple holds exactly one afterwards, the new one |
| Ripple.NoRippleFound | js/animations.js:266-267 | when no ripple is found there is none |
| ReducedMotion.FirstProgress | js/animations.js:332 | the first `.scroll-progress` element, as `querySelector` finds it |
| ReducedMotion.Reduced | js/animations.js:314-344 | the elements after the alternatives, one per element, each keeping its kind |
| ReducedMotion.Document.constructor | js/animations.js:316 | the document's scroll behaviour |
| ReducedMotion.ApplyReducedMotion | js/animations.js:314-344 | smooth scrolling becomes `auto` and the elements become `Reduced` of the originals |
| ReducedMotion.StillParallaxLayers | js/animations.js:319-323 | every parallax layer loses its transform and transition; nothing else changes |
| ReducedMotion.StillFloatingElements | js/animations.js:326-329 | every floating element loses its animation |
| ReducedMotion.HideFirstProgress | js/animations.js:332-335 | only the first progress bar is hidden |
| ReducedMotion.MarkFocusable | js/animations.js:338-341 | every focusable element gets the focus style |
| ReducedMotion.ReducedByPasses | js/animations.js:314-341 | the four passes one after the other give `Reduced` |
| ReducedMotion.FirstProgressIs | js/animations.js:332 | the scan's stopping point is the first progress bar |
| ReducedMotion.ReducedIdempotent | js/animations.js:314-344 | applying the alternatives twice is the same as once |
| ReducedMotion.FirstProgressSameKinds | js/animations.js:332 | which bar is first depends only on the kinds |
| ReducedMotion.OnlyFirstProgressHidden | js/animations.js:332-335 | a later progress bar keeps its display |
| ReducedMotion.Stilled | js/animations.js:319-341 | afterwards focusable elements carry the focus style, parallax layers have no transform or transition, and floating elements have no animation |
| ResponsiveValidation.Rank | validate-responsive.js:224-230 | a breakpoint's rank is at most the number of thresholds |
| ResponsiveValidation.Classify | validate-responsive.js:224-230 | a width is at or past the k-th threshold (576, 768, 992, 1200, 1400) exactly when its breakpoint ranks above k |
| ResponsiveValidation.ClassifyMonotone | validate-responsive.js:224-230 | a wider viewport never gets a lower breakpoint |
| ResponsiveValidation.ClassifyInterval | validate-responsive.js:224-230 | each breakpoint is exactly the interval from its threshold up to the next one |
| ResponsiveValidation.TestViewportSizes | validate-responsive.js:209-234 | the listed viewports classify as xs, sm, md, lg, xl, xxl in order |
| ResponsiveValidation.AsyncCount | validate-responsive.js:87-92 | the optimized count never exceeds the lazy images, and is positive exactly when some image decodes `async` |
| ResponsiveValidation.ImagesOptimizedIff | validate-responsive.js:94-97 | the image flag is earned exactly when some lazy image decodes `async` and a container exists |
| ResponsiveValidation.RulesMention | validate-responsive.js:119-122 | some rule's selector text includes `.no-flexbox` |
| ResponsiveValidation.CrossBrowserIff | validate-responsive.js:108-127 | any one of the five capabilities alone earns the cross-browser flag; with none, it is earned exactly when a `.no-flexbox` fallback is found |
| ResponsiveValidation.PerformanceScore | validate-responsive.js:142-163 | the score lies in 0..4 |
| ResponsiveValidation.PerformanceIff | validate-responsive.js:142-168 | the performance flag is earned exactly when two different conditions hold |
| ResponsiveValidation.ScoreCounts | validate-responsive.js:142-163 | the score adds one for each of the four conditions that holds |
| ResponsiveValidation.TwoTrue | validate-responsive.js:165 | a count of at least 2 means two distinct set flags, and conversely |
| ResponsiveValidation.AllTrue | validate-responsive.js:188-197 | the count equals the number of flags exactly when all are set |
| ResponsiveValidation.ValidationResults.Flags | validate-responsive.js:9-16 | the six flags in key order |
| ResponsiveValidation.ValidationResults.constructor | validate-responsive.js:9-16 | all six flags start false |
| ResponsiveValidation.ValidationResults.TestMobileBreakpoints | validate-responsive.js:21-42 | the flag is set when the hero, its title and its buttons exist, and is never cleared; other flags are kept |
| ResponsiveValidation.ValidationResults.TestTabletLayout | validate-responsive.js:47-59 | the flag is set when both card lists are non-empty, and is never cleared; other flags are kept |
| ResponsiveValidation.ValidationResults.TestDesktopLayout | validate-responsive.js:64-76 | the flag is set when desktop columns and the hero content exist, and is never cleared; other flags are kept |
| ResponsiveValidation.ValidationResults.TestImageOptimization | validate-responsive.js:81-100 | the counting loop computes `AsyncCount`; the flag is set when there are lazy images, async ones and containers; other flags are kept |
| ResponsiveValidation.ValidationResults.TestCrossBrowserSupport | validate-responsive.js:105-130 | the flag is set when a capability or a fallback is found; other flags are kept |
| ResponsiveValidation.ValidationResults.TestPerformance | validate-responsive.js:135-171 | the flag is set when the score reaches 2; other flags are kept |
| ResponsiveValidation.ValidationResults.RunValidation | validate-responsive.js:176-204 | each flag ends as its old value or its test's decision; `passedTests` is the number of set flags (at most 6); the all-met verdict holds exactly when all six are set; the shared object itself is returned |

## Left out

- Third-party widgets are left out: AOS, PureCounter, Swiper, GLightbox, Isotope layout and imagesLoaded, and the Bootstrap tooltips and popovers. Their behaviour is not in this code. The filter click records only the filter it passes to `arrange`.
- `fetch` and its response are not modelled; a request is a counter and its settlement a boolean. `console` logging and `contactForm.reset()` are also out.
- Several parts of js/main.js are out of scope:
  - the preloader, the dropdown toggles and the FAQ toggles;
  - the hash scroll on load and the scroll-top click;
  - the image, responsive, cross-browser and performance enhancements, and the ARIA labels.
- Timers, animation frames and intersection notifications are host scheduling. Frame timestamps, firing timers and entries are explicit inputs or method calls. Debouncing is out.
- `calculateThresholds` is out, because it accumulates 0.01 in floating point. The progress-bar percentage, `isInViewport` and the ripple's pixel offsets are also out.
- The hover effects (`setupHoverEffects`, `enhanceHoverEffect`), `disableAnimations`, `enableAnimations`, `stopAllAnimations` and the anchor click handler of `setupSmoothScrolling` are not modelled.
- Listener lifecycle is not modelled:
  - `init` running every setup and `setupAccessibility` running them again;
  - the removal of handlers that were never registered;
  - `location.reload`.
  There is no listener registry, so the model says nothing about reduced motion tearing effects down.
- How the two `scrolled` rules interleave is not modelled: main.js uses 100 pixels and animations.js uses 50. Each is modelled on its own.
- Arithmetic is on mathematical reals and integers, with no IEEE rounding. `parseInt` of a digit string beyond double precision is exact here. A `char` stands for one UTF-16 code unit, and whitespace outside the Basic Multilingual Plane is not considered.
- SmoothScroll.SmoothScrollTo: requires a positive duration. A zero duration would divide by zero in JavaScript, giving Infinity or NaN progress, which the reals cannot express. The only caller passes the default 800.
- SmoothScroll.SmoothScrollTo: the scroll position is not clamped to the page, as `window.scrollTo` would clamp it.
- Easing.CurveNamed: treats every name other than the three curves as unknown. A name inherited from `Object.prototype`, such as `toString`, finds a function that does not throw but gives NaN positions, and that case is not modelled.
- AnimateElement.Animate: records the text assigned to `style.transition` and takes whether CSS parsing accepts it as a parameter. Which texts CSS accepts is not modelled; the default `easeInOutCubic` is not a CSS timing function, so with the defaults the assignment is ignored by the browser.
- AnimateElement.Animate: options are numbers for the duration and delay and a string for the easing. Other option types, and fractional numbers in the transition text, are not modelled.
- Parallax.Element.Update: records the offset number rather than the `translateY(...px)` text.
- InView.Observer.Resize: assumes the observer exists, as it does after setup. The `if (this.observer)` guard for a page without one is not modelled.
- StickyHeader.Header.constructor: models a page that has a `.header`. Without one, `setupStickyHeader` returns before installing anything.
- Ripple.Button.CreateRipple: looks for an existing ripple only among the button's direct children. A ripple nested deeper cannot arise from this handler.
- The scrollspy's `.navmenu a.active` query and the link list are taken to be the same set of links.
- In validate-responsive.js:
  - `getComputedStyle`, `CSS.supports`, style-sheet rules and element lookups are inputs. A cross-origin style sheet whose `cssRules` throws is not modelled.
  - The console report, the one-second start-up timer and the `window` export are not modelled.
- ContactHandler.HandleRequest: each `$_POST` value is a string. An array-valued field, which makes `strip_tags` fail, is not modelled. `strip_tags`, `filter_var` and `date` are parameters, and `mail()` is its boolean result.
- ContactForm.FormStatus.constructor: starts with the three status elements hidden. The script does not hide them at setup; their initial visibility comes from the page's stylesheet, which is not part of this model, and hidden is assumed.
- Scroll positions (`window.scrollY`, `pageYOffset`, `offsetTop`) are integers here. Browsers may report fractional values; the comparisons modelled keep their meaning on reals, but the model does not state them there.
- PageChrome.MobileNav.constructor: starts with the menu closed and the toggle showing the `bi-list` icon. The script never sets this; it is the markup as served, which is not part of this model, and `Valid()` relies on it.
- PageChrome.VideoOverlay.constructor: starts with the overlay inactive, no frame source and the body's `overflow` empty. The script never sets this either; it is assumed from the markup and styles as served, and `Valid()` relies on it.
