/**
 * SeekSlider.js: the width of the coloured progress bar, the thumb position,
 * the bar and stroke colour tables, and the range input that forwards a seek.
 */
module SeekSlider {
  import opened Wrappers
  import opened Digits
  import Session
  import Player

  /**
   * The coloured bar's width for a slider width: below 9 px the bar is hidden,
   * from 9 px up to 13 px it is widened to 13 px, from 13 px on it follows.
   * (The source's extra test `sliderWidth > 8` is implied by the first branch.)
   */
  function BarWidth(sliderWidth: real): (w: real)
    ensures sliderWidth < 9.0 ==> w == 0.0
    ensures 9.0 <= sliderWidth < 13.0 ==> w == 13.0
    ensures sliderWidth >= 13.0 ==> w == sliderWidth
  {
    if sliderWidth < 9.0 then 0.0
    else if sliderWidth > 8.0 && sliderWidth < 13.0 then 13.0
    else sliderWidth
  }

  /** The thumb is drawn at the unsnapped slider width. */
  function ThumbPos(sliderWidth: real): real {
    sliderWidth
  }

  /** The bar is never a sliver: its width is 0 or at least 13. */
  lemma BarWidthGap(sliderWidth: real)
    ensures BarWidth(sliderWidth) == 0.0 || BarWidth(sliderWidth) >= 13.0
  {
  }

  /** A wider slider never gives a narrower bar. */
  lemma BarWidthMonotone(a: real, b: real)
    requires a <= b
    ensures BarWidth(a) <= BarWidth(b)
  {
  }

  /** Snapping a snapped width changes nothing. */
  lemma BarWidthIdempotent(sliderWidth: real)
    ensures BarWidth(BarWidth(sliderWidth)) == BarWidth(sliderWidth)
  {
  }

  /** For a non-negative width the bar's end lies within 9 px of the thumb, never past it by 4 px or more. */
  lemma BarNearThumb(sliderWidth: real)
    requires sliderWidth >= 0.0
    ensures -9.0 < BarWidth(sliderWidth) - ThumbPos(sliderWidth) <= 4.0
  {
  }

  /**
   * `(progress / duration) * fullWidth`; at duration 0 the division gives a
   * non-finite number, which is `None` here.
   */
  function SliderWidth(progress: real, duration: real, fullWidth: real): (r: Option<real>)
    ensures r.None? <==> duration == 0.0
    ensures r.Some? ==> r.value * duration == progress * fullWidth
  {
    if duration == 0.0 then None else Some(progress / duration * fullWidth)
  }

  /** While the progress lies within the track, the slider width lies within the full width. */
  lemma SliderWidthBounded(progress: real, duration: real, fullWidth: real)
    requires 0.0 <= progress <= duration && duration > 0.0 && fullWidth >= 0.0
    ensures var r := SliderWidth(progress, duration, fullWidth);
      r.Some? && 0.0 <= r.value <= fullWidth
  {
  }

  /**
   * The effect: it measures only once the full-width element is mounted,
   * otherwise keeps the old width. Once measured, the width is non-finite
   * exactly at duration 0, and a progress within the track keeps it within
   * the measured full width.
   */
  function SliderEffect(previous: Option<real>, measured: Option<real>, progress: real, duration: real): (r: Option<real>)
    ensures measured.None? ==> r == previous
    ensures measured.Some? ==> (r.None? <==> duration == 0.0)
    ensures measured.Some? && measured.value >= 0.0 && 0.0 <= progress <= duration && duration > 0.0 ==>
      r.Some? && 0.0 <= r.value <= measured.value
  {
    match measured
    case None => previous
    case Some(fullWidth) => SliderWidth(progress, duration, fullWidth)
  }

  /** Bar classes by colour name (`bgSliderColorVariants`, abbreviated to the colour class). */
  const BarClasses: map<string, string> := map[
    "yellow" := "bg-yellow-400", "green" := "bg-green-400", "blue" := "bg-blue-400",
    "red" := "bg-red-400", "violet" := "bg-violet-400", "teal" := "bg-teal-400"]

  /** Stroke classes by colour name (`strokeSliderColorVariants`). */
  const StrokeClasses: map<string, string> := map[
    "blue" := "stroke-blue-400", "red" := "stroke-red-400", "violet" := "stroke-violet-400",
    "teal" := "stroke-teal-400", "yellow" := "stroke-yellow-400", "green" := "stroke-green-400",
    "gray" := "stroke-gray-400"]

  /** `table[color]`: `undefined` for a name the table lacks. */
  function Lookup(table: map<string, string>, color: string): (r: Option<string>)
    ensures r.Some? <==> color in table
    ensures r.Some? ==> r.value == table[color]
  {
    if color in table then Some(table[color]) else None
  }

  /** The stroke table knows exactly one colour more than the bar table: gray, so gray gets a stroke but no bar class. */
  lemma GrayHasNoBar()
    ensures StrokeClasses.Keys == BarClasses.Keys + {"gray"}
    ensures "gray" !in BarClasses
    ensures Lookup(BarClasses, "gray").None? && Lookup(StrokeClasses, "gray") == Some("stroke-gray-400")
  {
  }

  // ---- seeking through the range input ----

  /** A JavaScript value on the seek path: a number or a string. */
  datatype JsValue = Num(n: real) | Str(s: string)

  /** The range input's `onChange` as written: `e.target.value`, the decimal string of the chosen step. */
  function SeekArgAsWritten(step: nat): (v: JsValue)
    ensures v.Str? && AllDigits(v.s) && ParseNat(v.s) == step
  {
    ParseNatToString(step);
    Str(NatToString(step))
  }

  /** `prevValue + 1` in the progress interval: addition for a number, concatenation for a string. */
  function PlusOne(v: JsValue): (r: JsValue)
    ensures v.Num? ==> r == Num(v.n + 1.0)
    ensures v.Str? ==> r == Str(v.s + "1")
  {
    match v
    case Num(n) => Num(n + 1.0)
    case Str(s) => Str(s + "1")
  }

  /**
   * As written, a seek stores the input's string as `currentTime`; the
   * counter resyncs to that string and the next tick appends "1". Seeking to
   * 42 s shows "421" one second later, unless a state notification from the
   * SDK has replaced the string with a number by then. Read as a number the
   * text is `10·step + 1`, which is the intended `step + 1` only at step 0.
   */
  lemma SeekStringConcatenates(step: nat)
    ensures PlusOne(SeekArgAsWritten(step)) == Str(NatToString(step) + "1")
    ensures AllDigits(PlusOne(SeekArgAsWritten(step)).s)
    ensures ParseNat(PlusOne(SeekArgAsWritten(step)).s) == 10 * step + 1
    ensures ParseNat(PlusOne(SeekArgAsWritten(step)).s) != step + 1 <==> step > 0
  {
    var t := NatToString(step) + "1";
    assert t[..|t| - 1] == NatToString(step);
    ParseNatToString(step);
  }

  /**
   * The evidently intended forwarding: the step converted to a number. The
   * range input keeps it between 0 and the duration.
   */
  function SeekArg(step: nat, duration: real): (p: real)
    requires step as real <= duration
    ensures 0.0 <= p <= duration && p.Floor == step
  {
    step as real
  }

  /** With numeric forwarding, `k` ticks after seeking to a step the counter reads `step + k`. */
  lemma SeekArgThenTicks(s: Session.Session, step: nat, k: nat)
    requires s.mounted && s.hasPlayer && s.app.isPlaying
    requires step as real <= s.app.duration && step as real != s.app.currentTime
    ensures Session.Run(Session.Step(s, Session.SeekTo(SeekArg(step, s.app.duration))), Session.TickEvents(k)).progress.value
      == (step + k) as real
  {
    Session.TicksAfterSeek(s, SeekArg(step, s.app.duration), k);
  }
}
