/**
 * `AnimationManager.animateElement` (js/animations.js): the public call that
 * animates one element in. The options are merged over the defaults
 * (duration 600, delay 0, easing `easeInOutCubic`), the element's
 * transition, opacity and transform are written, and the returned promise
 * resolves once duration plus delay milliseconds have passed.
 *
 * Options are numbers for the duration and the delay and a string for the
 * easing; each key is absent, present with `undefined`, or present with a
 * value.
 */
module AnimateElement {
  import opened Wrappers
  import opened JsNumbers
  import opened Text

  /** One key of the `options` object. */
  datatype Field<T> = Absent | Undefined | Present(value: T)

  datatype Options = Options(duration: Field<int>, delay: Field<int>, easing: Field<string>)

  /** The merged `config`; `None` is `undefined`. */
  datatype Config = Config(duration: Option<int>, delay: Option<int>, easing: Option<string>)

  const DefaultDuration := 600
  const DefaultDelay := 0
  const DefaultEasing := "easeInOutCubic"

  /** A key of `{ key: options.key || fallback, ...options }`: the spread
      comes last, so any key present in `options` wins, whatever its value;
      the fallback only fills a missing key. */
  function Merge<T>(f: Field<T>, fallback: T): (r: Option<T>)
    ensures f.Absent? ==> r == Some(fallback)
    ensures f.Undefined? ==> r.None?
    ensures f.Present? ==> r == Some(f.value)
  {
    match f
    case Absent => Some(fallback)
    case Undefined => None
    case Present(v) => Some(v)
  }

  function ConfigOf(options: Options): Config
  {
    Config(Merge(options.duration, DefaultDuration), Merge(options.delay, DefaultDelay),
           Merge(options.easing, DefaultEasing))
  }

  /** With no options at all, the defaults apply. */
  lemma DefaultsApply()
    ensures ConfigOf(Options(Absent, Absent, Absent))
      == Config(Some(DefaultDuration), Some(DefaultDelay), Some(DefaultEasing))
  {
  }

  /** A falsy value that is given still wins over the default: a duration of
      0 stays 0 and an empty easing stays empty, unlike `options.key ||
      fallback` alone. */
  lemma GivenFalsyWins(options: Options)
    requires options.duration == Present(0) && options.easing == Present("")
    ensures ConfigOf(options).duration == Some(0) && ConfigOf(options).easing == Some("")
  {
  }

  /** A number as a template literal writes it; `undefined` is written out. */
  function NumberText(n: Option<int>): (s: string)
    ensures n.Some? && n.value >= 0 ==> s == Decimal(n.value)
    ensures n.Some? && n.value < 0 ==> s == "-" + Decimal(-n.value)
    ensures n.None? ==> s == "undefined"
  {
    match n
    case None => "undefined"
    case Some(v) => if v < 0 then "-" + Decimal(-v) else Decimal(v)
  }

  function EasingText(e: Option<string>): string
  {
    e.GetOr("undefined")
  }

  /** `all ${duration}ms ${easing}`. */
  function Transition(c: Config): (s: string)
    ensures |s| > 4 + |EasingText(c.easing)| && s[..4] == "all "
    ensures s[|s| - |EasingText(c.easing)|..] == EasingText(c.easing)
    ensures OccursAt(s, NumberText(c.duration) + "ms ", 4)
    ensures |s| == 4 + |NumberText(c.duration)| + 3 + |EasingText(c.easing)|
  {
    "all " + NumberText(c.duration) + "ms " + EasingText(c.easing)
  }

  /** The duration written into the transition reads back as the
      configured number of milliseconds. */
  lemma TransitionDuration(c: Config, d: nat)
    requires c.duration == Some(d)
    ensures ParseInt(Transition(c)[4..]) == Some(d)
  {
    var rest := "ms " + EasingText(c.easing);
    assert Transition(c)[4..] == [] + ([] + Decimal(d) + rest);
    ParseSignedDecimal([], [], d, rest);
  }

  const FullOpacity := "1"
  const TranslateYZero := "translateY(0)"
  const TranslateXZero := "translateX(0)"
  const ScaleOne := "scale(1)"

  /** The transform for an animation type: `slideInLeft` slides along the
      x axis, `scaleIn` scales, and `fadeIn` and every other type slide
      along the y axis. */
  function TransformFor(animationType: string): (t: string)
    ensures t in {TranslateYZero, TranslateXZero, ScaleOne}
    ensures t == TranslateXZero <==> animationType == "slideInLeft"
    ensures t == ScaleOne <==> animationType == "scaleIn"
  {
    if animationType == "slideInLeft" then TranslateXZero
    else if animationType == "scaleIn" then ScaleOne
    else TranslateYZero
  }

  /** The timer delay of the promise: `config.duration + config.delay`, which
      is `NaN` (so no wait) when either is `undefined`. */
  function ResolveDelay(c: Config): (d: nat)
    ensures c.duration.Some? && c.delay.Some? && 0 <= c.duration.value + c.delay.value < TwoTo31 ==>
      d == c.duration.value + c.delay.value
    ensures c.duration.None? || c.delay.None? ==> d == 0
  {
    if c.duration.Some? && c.delay.Some? then TimerDelay(Some(c.duration.value + c.delay.value))
    else TimerDelay(None)
  }

  /** With no options the text assigned is `all 600ms easeInOutCubic`,
      whose last part, `easeInOutCubic`, is not a CSS timing function. */
  lemma DefaultTransition()
    ensures Transition(ConfigOf(Options(Absent, Absent, Absent))) == "all 600ms easeInOutCubic"
  {
    DefaultsApply();
    DecimalSix();
  }

  lemma DecimalSix()
    ensures Decimal(600) == "600"
  {
    assert Decimal(6) == "6";
    assert Decimal(60) == "60";
  }

  /** With the defaults, the promise resolves after 600 milliseconds. */
  lemma DefaultResolveDelay()
    ensures ResolveDelay(ConfigOf(Options(Absent, Absent, Absent))) == DefaultDuration
  {
  }

  class Element {
    var transition: string
    var opacity: string
    var transform: string

    constructor(transition: string, opacity: string, transform: string)
      ensures this.transition == transition && this.opacity == opacity && this.transform == transform
    {
      this.transition, this.opacity, this.transform := transition, opacity, transform;
    }
  }

  /** `animateElement(element, animationType, options)`: writes the three
      styles and returns the delay after which the promise resolves. The
      style object keeps an assigned transition only when it parses as CSS;
      `cssAccepts` is that verdict, and a rejected text leaves the old
      transition in place. */
  method Animate(element: Element, animationType: string, options: Options, cssAccepts: string -> bool)
    returns (resolveAfter: nat)
    modifies element
    ensures element.transition ==
      if cssAccepts(Transition(ConfigOf(options))) then Transition(ConfigOf(options)) else old(element.transition)
    ensures element.opacity == FullOpacity
    ensures element.transform == TransformFor(animationType)
    ensures resolveAfter == ResolveDelay(ConfigOf(options))
  {
    var config := ConfigOf(options);
    var text := Transition(config);
    if cssAccepts(text) {
      element.transition := text;
    }
    if animationType == "fadeIn" {
      element.opacity := FullOpacity;
      element.transform := TranslateYZero;
    } else if animationType == "slideInLeft" {
      element.opacity := FullOpacity;
      element.transform := TranslateXZero;
    } else if animationType == "scaleIn" {
      element.opacity := FullOpacity;
      element.transform := ScaleOne;
    } else {
      element.opacity := FullOpacity;
      element.transform := TranslateYZero;
    }
    resolveAfter := ResolveDelay(config);
  }
}
