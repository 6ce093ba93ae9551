/** The event handlers of the `InputSlider` control: each decides whether the
    control calls `emitChange`, and with which value. `Some(v)` means
    `emitChange(v)` is called, `None` that nothing is emitted. */
module InputSlider {
  import opened Wrappers

  /** What the slider reports on change: a single number, or an array of numbers
      for a range slider. */
  datatype SliderValue = Number(v: real) | Numbers(vs: seq<real>)

  /** The control's value once an emitted value has been applied by the owner;
      nothing emitted leaves it as it was. */
  function Apply(value: real, emitted: Option<real>): real
  {
    match emitted
    case Some(v) => v
    case None => value
  }

  /** Reference definition: `value` clamped into `[min, max]`. */
  function Clamp(value: real, min: real, max: real): (r: real)
    requires min <= max
    ensures min <= r <= max
    ensures (min <= value <= max) <==> r == value
  {
    if value < min then min else if max < value then max else value
  }

  /** `handleSliderChange`: a single number is forwarded as it is; an array is ignored. */
  function HandleSliderChange(newValue: SliderValue): (r: Option<real>)
    ensures r.Some? <==> newValue.Number?
    ensures r.Some? ==> r.value == newValue.v
  {
    if newValue.Number? then Some(newValue.v) else None
  }

  /** `handleInputChange`: an empty text field emits nothing; any other text is
      converted by `toNumber` (JavaScript's `Number`) and forwarded unclamped. */
  function HandleInputChange(text: string, toNumber: string -> real): (r: Option<real>)
    ensures r.None? <==> text == ""
    ensures text != "" ==> r == Some(toNumber(text))
  {
    if text == "" then None else Some(toNumber(text))
  }

  /** `handleBlur`: a value below `min` emits `min`, otherwise a value above `max`
      emits `max`, and a value within `[min, max]` emits nothing. */
  function HandleBlur(value: real, min: real, max: real): (r: Option<real>)
    ensures value < min ==> r == Some(min)
    ensures min <= value && max < value ==> r == Some(max)
    ensures min <= value <= max ==> r == None
  {
    if value < min then Some(min)
    else if value > max then Some(max)
    else None
  }

  /** With `min <= max`, whatever blur emits lies in `[min, max]`, it emits exactly
      when the value is out of range, and the value it leaves is the clamped value. */
  lemma BlurClamps(value: real, min: real, max: real)
    requires min <= max
    ensures HandleBlur(value, min, max).Some? ==>
      min <= HandleBlur(value, min, max).value <= max
    ensures HandleBlur(value, min, max).Some? <==> !(min <= value <= max)
    ensures Apply(value, HandleBlur(value, min, max)) == Clamp(value, min, max)
  {
  }

  /** Clamping is idempotent: blurring again once the emitted value is applied emits nothing. */
  lemma BlurIdempotent(value: real, min: real, max: real)
    requires min <= max
    ensures HandleBlur(Apply(value, HandleBlur(value, min, max)), min, max) == None
  {
  }

  /** Typed text may leave the range, but the blur that follows brings the value back
      into `[min, max]` when `min <= max`. */
  lemma TypeThenBlurInRange(value: real, text: string, toNumber: string -> real, min: real, max: real)
    requires min <= max
    ensures var typed := Apply(value, HandleInputChange(text, toNumber));
      min <= Apply(typed, HandleBlur(typed, min, max)) <= max
  {
    var typed := Apply(value, HandleInputChange(text, toNumber));
    BlurClamps(typed, min, max);
  }
}
