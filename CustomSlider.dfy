/** `CustomSlider`: the thumb's offset along the track, the mapping from
    offset to value, snapping to `step`, and the gesture and measurement
    callbacks that update the view's state. Floating-point numbers are
    modelled as reals. */
module CustomSlider {

  function Min(a: real, b: real): real { if a <= b then a else b }
  function Max(a: real, b: real): real { if a >= b then a else b }
  function Abs(a: real): real { if a < 0.0 then -a else a }

  /** Swift's `round`: to the nearest integer, halfway cases away from zero. */
  function Round(x: real): (r: int)
    ensures -0.5 <= x - r as real <= 0.5
    ensures x - r as real == 0.5 ==> x < 0.0
    ensures x - r as real == -0.5 ==> x > 0.0
  {
    if x >= 0.0 then (x + 0.5).Floor else -((-x + 0.5).Floor)
  }

  /** `percentage`: where `value` sits in `lower...upper`. */
  function Percentage(value: real, lower: real, upper: real): real
    requires lower < upper
  {
    1.0 - (upper - value) / (upper - lower)
  }

  /** The percentage is the linear position of the value in the bounds:
      0 at `lower`, 1 at `upper`, and within [0, 1] for a value in bounds. */
  lemma PercentageLinear(value: real, lower: real, upper: real)
    requires lower < upper
    ensures Percentage(value, lower, upper) == (value - lower) / (upper - lower)
    ensures lower <= value <= upper ==> 0.0 <= Percentage(value, lower, upper) <= 1.0
    ensures Percentage(lower, lower, upper) == 0.0 && Percentage(upper, lower, upper) == 1.0
  {
    var d := upper - lower;
    calc {
      Percentage(value, lower, upper);
      d / d - (upper - value) / d;
      (d - (upper - value)) / d;
      (value - lower) / d;
    }
    if lower <= value <= upper {
      DivBounds(value - lower, d);
    }
  }

  lemma DivBounds(a: real, d: real)
    requires d > 0.0 && 0.0 <= a <= d
    ensures 0.0 <= a / d <= 1.0
  {
    assert a / d * d == a;
  }

  /** `fillWidth`: the filled part of the track. */
  function FillWidth(trackWidth: real, value: real, lower: real, upper: real): (r: real)
    requires lower < upper && trackWidth >= 0.0
    ensures lower <= value <= upper ==> 0.0 <= r <= trackWidth
  {
    var p := Percentage(value, lower, upper);
    PercentageLinear(value, lower, upper);
    ScaleBounds(trackWidth, p);
    assert lower <= value <= upper ==> 0.0 <= p <= 1.0;
    trackWidth * p
  }

  lemma ScaleBounds(w: real, p: real)
    requires w >= 0.0
    ensures 0.0 <= p <= 1.0 ==> 0.0 <= w * p <= w
  {
    if 0.0 <= p <= 1.0 {
      assert w * p <= w * 1.0;
    }
  }

  /** The thumb offset after a drag: `max(0, min(offset, availableWidth))`. */
  function ClampOffset(offset: real, availableWidth: real): (r: real)
    ensures availableWidth >= 0.0 ==> 0.0 <= r <= availableWidth
    ensures 0.0 <= offset <= availableWidth ==> r == offset
    ensures availableWidth >= 0.0 && offset < 0.0 ==> r == 0.0
    ensures availableWidth >= 0.0 && offset > availableWidth ==> r == availableWidth
    ensures availableWidth < 0.0 ==> r == 0.0
  {
    Max(0.0, Min(offset, availableWidth))
  }

  /** The unstepped value for an offset: the offset's share of the
      available width, mapped linearly onto the bounds. */
  function MapOffset(xOffset: real, availableWidth: real, lower: real, upper: real): real
    requires availableWidth != 0.0
  {
    (upper - lower) * (xOffset / availableWidth) + lower
  }

  /** The two ends of the track map to the two bounds, and the track in
      between stays within them. */
  lemma MapOffsetBounds(xOffset: real, availableWidth: real, lower: real, upper: real)
    requires availableWidth > 0.0 && lower < upper
    ensures MapOffset(0.0, availableWidth, lower, upper) == lower
    ensures MapOffset(availableWidth, availableWidth, lower, upper) == upper
    ensures 0.0 <= xOffset <= availableWidth ==> lower <= MapOffset(xOffset, availableWidth, lower, upper) <= upper
  {
    assert availableWidth / availableWidth == 1.0;
    if 0.0 <= xOffset <= availableWidth {
      DivBounds(xOffset, availableWidth);
      ScaleBounds(upper - lower, xOffset / availableWidth);
    }
  }

  /** `round(newValue / step) * step`: the nearest multiple of `step`. */
  function Snap(v: real, step: real): (r: real)
    requires step > 0.0
    ensures r / step == (r / step).Floor as real
    ensures -step / 2.0 <= v - r <= step / 2.0
  {
    var k := Round(v / step);
    var m := k as real;
    SnapDistance(v, step, k);
    CancelFactor(m, step);
    assert m.Floor == k;
    m * step
  }

  lemma CancelFactor(x: real, d: real)
    requires d > 0.0
    ensures x * d / d == x
  {
  }

  lemma SnapDistance(v: real, step: real, k: int)
    requires step > 0.0 && -0.5 <= v / step - k as real <= 0.5
    ensures -step / 2.0 <= v - k as real * step <= step / 2.0
  {
    var e := v / step - k as real;
    assert v == (k as real + e) * step;
    assert v - k as real * step == e * step;
    assert -0.5 * step <= e * step <= 0.5 * step;
  }

  /** `min(upper, max(lower, v))` */
  function ClampValue(v: real, lower: real, upper: real): (r: real)
    requires lower <= upper
    ensures lower <= r <= upper
    ensures lower <= v <= upper ==> r == v
    ensures v < lower ==> r == lower
    ensures v > upper ==> r == upper
  {
    Min(upper, Max(lower, v))
  }

  /** The value a drag to `xOffset` sets. */
  function DragValue(xOffset: real, availableWidth: real, lower: real, upper: real, step: real): (r: real)
    requires availableWidth != 0.0 && lower < upper && step > 0.0
    ensures lower <= r <= upper
  {
    ClampValue(Snap(MapOffset(xOffset, availableWidth, lower, upper), step), lower, upper)
  }

  /** Dragging the thumb to either end of the track selects that bound. */
  lemma DragEnds(availableWidth: real, lower: real, upper: real, step: real)
    requires availableWidth > 0.0 && lower < upper && step > 0.0
    ensures lower <= DragValue(0.0, availableWidth, lower, upper, step) <= lower + step / 2.0
    ensures upper - step / 2.0 <= DragValue(availableWidth, availableWidth, lower, upper, step) <= upper
  {
    MapOffsetBounds(0.0, availableWidth, lower, upper);
  }

  class Slider {
    const lower: real
    const upper: real
    const step: real
    const thumbWidth: real
    const thumbHeight: real
    /** Whether an `onEditingChanged` closure was passed (it defaults to nil). */
    const hasEditingHandler: bool
    /** The bound `value` */
    var value: real
    var xOffset: real
    var lastOffset: real
    /** `trackSize` */
    var trackWidth: real
    var trackHeight: real
    /** The arguments of every `onEditingChanged` call, oldest first; it
        stays empty without a handler. */
    ghost var editingChanges: seq<bool>

    ghost predicate Valid() {
      lower < upper && step > 0.0
    }

    /** `init`: the offsets and the track size start at zero. */
    constructor (value: real, lower: real, upper: real, step: real, thumbWidth: real, thumbHeight: real,
                 hasEditingHandler: bool := false)
      requires lower < upper && step > 0.0
      ensures Valid()
      ensures this.value == value && this.lower == lower && this.upper == upper && this.step == step
      ensures this.thumbWidth == thumbWidth && this.thumbHeight == thumbHeight
      ensures this.hasEditingHandler == hasEditingHandler
      ensures xOffset == 0.0 && lastOffset == 0.0 && trackWidth == 0.0 && trackHeight == 0.0
      ensures editingChanges == []
    {
      this.value := value;
      this.lower := lower;
      this.upper := upper;
      this.step := step;
      this.thumbWidth := thumbWidth;
      this.thumbHeight := thumbHeight;
      this.hasEditingHandler := hasEditingHandler;
      xOffset := 0.0;
      lastOffset := 0.0;
      trackWidth := 0.0;
      trackHeight := 0.0;
      editingChanges := [];
    }

    /** The `measureSize` callback: only the first measurement (the track
        size still zero) places the thumb to match `value`. */
    method MeasureSize(width: real, height: real)
      requires Valid()
      modifies this`trackWidth, this`trackHeight, this`xOffset, this`lastOffset
      ensures trackWidth == width && trackHeight == height
      ensures old(trackWidth) == 0.0 && old(trackHeight) == 0.0 ==>
        xOffset == width * Percentage(value, lower, upper) && lastOffset == xOffset
      ensures !(old(trackWidth) == 0.0 && old(trackHeight) == 0.0) ==>
        xOffset == old(xOffset) && lastOffset == old(lastOffset)
    {
      var firstInit := trackWidth == 0.0 && trackHeight == 0.0;
      trackWidth, trackHeight := width, height;
      if firstInit {
        xOffset := trackWidth * Percentage(value, lower, upper);
        lastOffset := xOffset;
      }
    }

    /** The drag gesture's `onChanged`: a near-zero translation marks the
        start of a drag; the thumb follows the translation from where the
        drag started, within the track, and the value follows the thumb.
        A track narrower than the thumb (before the first measurement, say)
        pins the thumb at 0 and the value at the stepped lower bound. */
    method DragChanged(translation: real)
      requires Valid() && trackWidth - thumbWidth != 0.0
      modifies this`lastOffset, this`xOffset, this`value, this`editingChanges
      ensures Abs(translation) < 0.1 ==>
        && lastOffset == old(xOffset)
        && editingChanges == old(editingChanges) + (if hasEditingHandler then [true] else [])
      ensures Abs(translation) >= 0.1 ==>
        lastOffset == old(lastOffset) && editingChanges == old(editingChanges)
      ensures xOffset == ClampOffset(lastOffset + translation, trackWidth - thumbWidth)
      ensures value == DragValue(xOffset, trackWidth - thumbWidth, lower, upper, step)
      ensures trackWidth - thumbWidth > 0.0 ==> 0.0 <= xOffset <= trackWidth - thumbWidth
      ensures trackWidth - thumbWidth < 0.0 ==>
        xOffset == 0.0 && value == ClampValue(Snap(lower, step), lower, upper)
      ensures lower <= value <= upper
    {
      if Abs(translation) < 0.1 {
        lastOffset := xOffset;
        if hasEditingHandler {
          editingChanges := editingChanges + [true];
        }
      }
      var availableWidth := trackWidth - thumbWidth;
      xOffset := Max(0.0, Min(lastOffset + translation, availableWidth));
      assert xOffset == ClampOffset(lastOffset + translation, availableWidth);
      var newValue := (upper - lower) * (xOffset / availableWidth) + lower;
      assert newValue == MapOffset(xOffset, availableWidth, lower, upper);
      var steppedNewValue := Round(newValue / step) as real * step;
      assert steppedNewValue == Snap(newValue, step);
      value := Min(upper, Max(lower, steppedNewValue));
      assert value == ClampValue(steppedNewValue, lower, upper);
    }

    /** The drag gesture's `onEnded` */
    method DragEnded()
      modifies this`editingChanges
      ensures editingChanges == old(editingChanges) + (if hasEditingHandler then [false] else [])
    {
      if hasEditingHandler {
        editingChanges := editingChanges + [false];
      }
    }
  }

  /** The first measurement places the thumb at `trackWidth * percentage`,
      while drags keep it within `trackWidth - thumbWidth`: for a value at
      the upper bound and a thumb of positive width, the first placement is
      beyond any offset a drag can reach. */
  lemma FirstPlacementBeyondDragRange(trackWidth: real, thumbWidth: real, lower: real, upper: real)
    requires lower < upper && thumbWidth > 0.0
    ensures trackWidth * Percentage(upper, lower, upper) > trackWidth - thumbWidth
  {
    PercentageLinear(upper, lower, upper);
  }
}
