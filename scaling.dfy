/** The resize dialog (ScalingModal.jsx): the two text fields for width and
    height in percent or pixel mode, their validation, the aspect lock with
    its table of common resolutions, the switch between modes, and the
    confirm step that computes the target size and dispatches to a
    resampler. The fields hold what `Number()` makes of the typed text: a
    finite number, or NaN/Infinity. */
module ScalingModal {
  import opened Common
  import Interpolation

  /** What `Number(field)` gives: a finite number or a non-finite one. */
  datatype Entry = Finite(v: real) | NotANumber

  /** The mode names of the dropdown. */
  const PERCENT: string := "Проценты"
  const PIXELS: string := "Пиксели"

  /** The algorithm names of the dropdown. */
  const NEAREST: string := "Ближайший сосед"
  const BILINEAR: string := "Билинейный"
  const BICUBIC: string := "Бикубический"

  /** The largest side, in pixels, the dialog accepts. */
  const MAX_SIDE: int := 32768

  /** The largest percentage the dialog accepts. */
  const MAX_PERCENT: int := 1000

  predicate IsInteger(x: real) { x.Floor as real == x }

  // ---------------------------------------------------------------- validation

  /** The branches of `validateDimensions`, in their order. */
  datatype DimensionError = NotPositiveInteger | BelowOne | AboveMax | PercentOutOfRange | NoError

  /** `validateDimensions` for one field; width and height are validated alike. */
  function Validate(value: Entry, resizeMode: string): (e: DimensionError)
    ensures (value.NotANumber? || !IsInteger(value.v) || value.v <= 0.0) <==> e == NotPositiveInteger
    ensures e == AboveMax <==> value.Finite? && IsInteger(value.v) && value.v > MAX_SIDE as real
    ensures e == PercentOutOfRange <==>
      value.Finite? && IsInteger(value.v) && 0.0 < value.v <= MAX_SIDE as real &&
      resizeMode == PERCENT && value.v > MAX_PERCENT as real
    ensures e != BelowOne
  {
    if value.NotANumber? || !IsInteger(value.v) || value.v <= 0.0 then NotPositiveInteger
    else if value.v < 1.0 then BelowOne
    else if value.v > MAX_SIDE as real then AboveMax
    else if resizeMode == PERCENT && (value.v < 1.0 || value.v > MAX_PERCENT as real) then PercentOutOfRange
    else NoError
  }

  /** A field passes validation exactly when it holds a whole number from 1 to
      32768, and at most 1000 in percent mode. */
  lemma ValidIffInRange(value: Entry, resizeMode: string)
    ensures Validate(value, resizeMode) == NoError <==>
      value.Finite? && IsInteger(value.v) && 1.0 <= value.v &&
      value.v <= (if resizeMode == PERCENT then MAX_PERCENT else MAX_SIDE) as real
  {
  }

  datatype Axis = WidthAxis | HeightAxis

  /** The text `validateDimensions` puts into `widthError` or `heightError`. */
  function ErrorMessage(axis: Axis, e: DimensionError): (m: string)
    ensures m == "" <==> e == NoError
  {
    match (axis, e)
    case (HeightAxis, NotPositiveInteger) => "⚠ Высота должна быть целым положительным числом"
    case (HeightAxis, BelowOne) => "⚠ Минимальная высота: 1 пиксель"
    case (HeightAxis, AboveMax) => "⚠ Максимальная высота: 32768 пикселей"
    case (WidthAxis, NotPositiveInteger) => "⚠ Ширина должна быть целым положительным числом"
    case (WidthAxis, BelowOne) => "⚠ Минимальная ширина: 1 пиксель"
    case (WidthAxis, AboveMax) => "⚠ Максимальная ширина: 32768 пикселей"
    case (_, PercentOutOfRange) => "⚠ Проценты должны быть от 1% до 1000%"
    case (_, NoError) => ""
  }

  // ---------------------------------------------------------------- the resolution table

  /** The entries under the comment "by width". */
  const WIDTH_PRESETS: seq<(int, int)> :=
    [(4096, 2160), (3840, 2160), (1920, 1080), (1280, 720), (720, 480), (640, 480), (1366, 768),
     (1440, 900), (1600, 900), (2560, 1440), (3440, 1440)]

  /** The entries under the comment "by height (reversed)". */
  const HEIGHT_PRESETS: seq<(int, int)> :=
    [(2160, 4096), (1080, 1920), (480, 720), (768, 1366), (900, 1600), (1440, 2560)]

  /** `resolutionPresets` as written: one object literal whose first eleven
      entries map widths to heights and whose last six map heights back to
      widths. Key 1440 appears twice, and an object literal keeps the later value. */
  const RESOLUTION_PRESETS: seq<(int, int)> := WIDTH_PRESETS + HEIGHT_PRESETS

  /** The value of the last entry whose key is the number key, as property
      lookup in an object literal finds it. */
  function PresetLookup(entries: seq<(int, int)>, key: real): (r: Option<int>)
    ensures r.None? <==> forall i :: 0 <= i < |entries| ==> entries[i].0 as real != key
    ensures r.Some? ==> exists i :: 0 <= i < |entries| && entries[i].0 as real == key && r.value == entries[i].1 &&
                                    forall j :: i < j < |entries| ==> entries[j].0 as real != key
    decreases |entries|
  {
    if entries == [] then None
    else if entries[|entries| - 1].0 as real == key then Some(entries[|entries| - 1].1)
    else PresetLookup(entries[..|entries| - 1], key)
  }

  /** `resolutionPresets[Number(value)]` as written, for either field. */
  function PresetAsWritten(value: Entry): Option<int>
  {
    if value.Finite? then PresetLookup(RESOLUTION_PRESETS, value.v) else None
  }

  /** As written, typing the width 1440 under the lock sets the height to 2560,
      not to the 900 of the width entry, and typing the height 720 sets the
      width to 480, taken from the width entry 720 to 480. */
  lemma PresetAsWrittenMixesDirections(w: real, h: real)
    requires w == 1440.0 && h == 720.0
    ensures PresetAsWritten(Finite(w)) == Some(2560)
    ensures PresetAsWritten(Finite(h)) == Some(480)
  {
    LookupOnlyMatch(RESOLUTION_PRESETS, w, 16);
    LookupOnlyMatch(RESOLUTION_PRESETS, h, 4);
  }

  /** The entry of the only key that matches is the one found. */
  lemma LookupOnlyMatch(entries: seq<(int, int)>, key: real, k: nat)
    requires k < |entries| && entries[k].0 as real == key
    requires forall j :: k < j < |entries| ==> entries[j].0 as real != key
    ensures PresetLookup(entries, key) == Some(entries[k].1)
    decreases |entries|
  {
    if k < |entries| - 1 {
      LookupOnlyMatch(entries[..|entries| - 1], key, k);
    }
  }

  /** No two entries of the width table share a key. */
  lemma WidthKeysDistinct()
    ensures forall j, k :: 0 <= j < k < |WIDTH_PRESETS| ==> WIDTH_PRESETS[j].0 != WIDTH_PRESETS[k].0
  {
  }

  /** No two entries of the height table share a key. */
  lemma HeightKeysDistinct()
    ensures forall j, k :: 0 <= j < k < |HEIGHT_PRESETS| ==> HEIGHT_PRESETS[j].0 != HEIGHT_PRESETS[k].0
  {
  }

  /** The lookup the two comments describe: widths in the width table,
      heights in the height table. */
  function Preset(axis: Axis, value: Entry): Option<int>
  {
    if value.NotANumber? then None
    else if axis == WidthAxis then PresetLookup(WIDTH_PRESETS, value.v)
    else PresetLookup(HEIGHT_PRESETS, value.v)
  }

  /** With the two directions kept apart, every width entry gives its own
      height and every height entry its own width, since no table repeats a key. */
  lemma PresetFindsEveryEntry(axis: Axis, i: nat)
    requires i < (if axis == WidthAxis then |WIDTH_PRESETS| else |HEIGHT_PRESETS|)
    ensures var table := if axis == WidthAxis then WIDTH_PRESETS else HEIGHT_PRESETS;
      Preset(axis, Finite(table[i].0 as real)) == Some(table[i].1)
  {
    if axis == WidthAxis {
      WidthKeysDistinct();
      LookupOnlyMatch(WIDTH_PRESETS, WIDTH_PRESETS[i].0 as real, i);
    } else {
      HeightKeysDistinct();
      LookupOnlyMatch(HEIGHT_PRESETS, HEIGHT_PRESETS[i].0 as real, i);
    }
  }

  /** Every preset value is positive, so the `if (preset)` truthiness test
      is the test for an entry. */
  lemma PresetsPositive()
    ensures forall i :: 0 <= i < |RESOLUTION_PRESETS| ==> RESOLUTION_PRESETS[i].1 > 0
  {
  }

  // ---------------------------------------------------------------- the lock

  /** The height the lock derives from a typed width without a preset:
      `Math.round(widthNum / aspectRatio)`; a non-finite width, or the
      aspect ratio 0 the dialog holds before the image loads, gives NaN or
      Infinity. */
  function HeightFromWidth(value: Entry, aspectRatio: real): (h: Entry)
    requires aspectRatio >= 0.0
    ensures h.Finite? <==> value.Finite? && aspectRatio > 0.0
    ensures h.Finite? ==> IsInteger(h.v) && h.v - 0.5 <= value.v / aspectRatio < h.v + 0.5
  {
    if value.Finite? && aspectRatio > 0.0 then Finite(Round(value.v / aspectRatio) as real) else NotANumber
  }

  /** The width the lock derives from a typed height without a preset:
      `Math.round(heightNum * aspectRatio)`. */
  function WidthFromHeight(value: Entry, aspectRatio: real): (w: Entry)
    requires aspectRatio >= 0.0
    ensures w.Finite? <==> value.Finite?
    ensures w.Finite? ==> IsInteger(w.v) && w.v - 0.5 <= value.v * aspectRatio < w.v + 0.5
  {
    if value.Finite? then Finite(Round(value.v * aspectRatio) as real) else NotANumber
  }

  /** `JSON.parse(localStorage.getItem('lockAspectRatio')) || true` as written:
      the stored choice is discarded. */
  function InitialLockAsWritten(stored: Option<bool>): bool
  {
    (stored.Some? && stored.value) || true
  }

  /** As written, a stored `false` comes back as a locked ratio. */
  lemma InitialLockIgnoresStoredFalse()
    ensures InitialLockAsWritten(Some(false))
  {
  }

  /** The initial lock evidently meant: the stored choice, locked when none is stored. */
  function InitialLock(stored: Option<bool>): (lock: bool)
    ensures stored.Some? ==> lock == stored.value
    ensures stored.None? ==> lock
  {
    if stored.Some? then stored.value else true
  }

  /** `localStorage.getItem(key) || fallback`: an empty stored string counts as missing. */
  function StoredOr(stored: Option<string>, fallback: string): (s: string)
    ensures stored.Some? && stored.value != "" ==> s == stored.value
    ensures stored.None? || stored.value == "" ==> s == fallback
  {
    if stored.Some? && stored.value != "" then stored.value else fallback
  }

  // ---------------------------------------------------------------- confirm

  /** The side `handleResizeConfirm` resamples to: `Math.round(natural * value / 100)`
      in percent mode, the value itself in pixel mode. */
  function TargetSize(resizeMode: string, natural: nat, value: nat): (n: nat)
    ensures resizeMode != PERCENT ==> n == value
    ensures resizeMode == PERCENT ==> 200 * n - 100 <= 2 * natural * value < 200 * n + 100
  {
    if resizeMode == PERCENT then RoundDiv(natural * value, 100) else value
  }

  /** At 100 % the target side is the natural side. */
  lemma TargetAtHundredPercent(natural: nat, value: nat)
    requires value == 100
    ensures TargetSize(PERCENT, natural, value) == natural
  {
    DivUnique(2 * natural * value + 100, 200, natural, 100);
  }

  /** A percentage that validation accepts can still round a small side down
      to 0: 10 % of a 1-pixel side. */
  lemma SmallPercentVanishes(natural: nat, value: nat)
    requires natural == 1 && value == 10
    ensures Validate(Finite(value as real), PERCENT) == NoError
    ensures TargetSize(PERCENT, natural, value) == 0
  {
  }

  /** What confirming the dialog leads to. */
  datatype ResizeOutcome =
    | Blocked                          // a field has an error: nothing happens
    | Resized(image: ImageData)        // the chosen resampler's output
    | BrowserScaled(width: nat, height: nat)  // no known algorithm: the browser scales the image
    | ResizeFailed                     // a side of 0: `new ImageData` or `getImageData` throws

  /** The switch of `handleResizeConfirm` over the algorithm name, with the
      resamplers as written. For any other name the browser scales the image,
      and `getImageData` then throws for a side of 0. */
  function Dispatch(algorithm: string, img: ImageData, newWidth: nat, newHeight: nat): (o: ResizeOutcome)
    ensures o.Blocked? == false
    ensures algorithm !in [NEAREST, BILINEAR, BICUBIC] && newWidth > 0 && newHeight > 0 ==>
      o == BrowserScaled(newWidth, newHeight)
    ensures o.BrowserScaled? ==> algorithm !in [NEAREST, BILINEAR, BICUBIC]
    ensures o.ResizeFailed? <==> newWidth == 0 || newHeight == 0
    ensures o.Resized? ==> o.image.width == newWidth && o.image.height == newHeight && o.image.Valid()
    ensures algorithm == NEAREST && o.Resized? ==> Some(o.image) == Interpolation.Nearest(img, newWidth, newHeight)
    ensures algorithm == BILINEAR && o.Resized? ==> Some(o.image) == Interpolation.Bilinear(img, newWidth, newHeight)
    ensures algorithm == BICUBIC && o.Resized? ==> Some(o.image) == Interpolation.Bicubic(img, newWidth, newHeight)
  {
    var r :=
      if algorithm == NEAREST then Interpolation.Nearest(img, newWidth, newHeight)
      else if algorithm == BILINEAR then Interpolation.Bilinear(img, newWidth, newHeight)
      else if algorithm == BICUBIC then Interpolation.Bicubic(img, newWidth, newHeight)
      else None;
    if newWidth == 0 || newHeight == 0 then ResizeFailed
    else if algorithm !in [NEAREST, BILINEAR, BICUBIC] then BrowserScaled(newWidth, newHeight)
    else if r.None? then ResizeFailed
    else Resized(r.value)
  }

  // ---------------------------------------------------------------- the dialog's state

  /** The dialog's `useState` fields that the handlers below update. The two
      error fields follow from the others (an effect recomputes them after
      every change), so they are functions here. */
  class ScalingDialog {
    var resizeMode: string
    var width: Entry
    var height: Entry
    var lockAspectRatio: bool
    var aspectRatio: real
    var interpolationAlgorithm: string

    predicate Valid()
      reads this
    {
      aspectRatio >= 0.0
    }

    /** The initial state, from the values stored by an earlier confirm; as
        written the lock always starts on. */
    constructor (storedMode: Option<string>, storedLock: Option<bool>, storedAlgorithm: Option<string>)
      ensures Valid()
      ensures resizeMode == StoredOr(storedMode, PERCENT) && interpolationAlgorithm == StoredOr(storedAlgorithm, NEAREST)
      ensures lockAspectRatio == InitialLockAsWritten(storedLock) && lockAspectRatio
      ensures width == Finite(100.0) && height == Finite(100.0) && aspectRatio == 0.0
    {
      resizeMode := StoredOr(storedMode, PERCENT);
      width := Finite(100.0);
      height := Finite(100.0);
      lockAspectRatio := InitialLockAsWritten(storedLock);
      aspectRatio := 0.0;
      interpolationAlgorithm := StoredOr(storedAlgorithm, NEAREST);
    }

    function WidthError(): DimensionError
      reads this
    {
      Validate(width, resizeMode)
    }

    function HeightError(): DimensionError
      reads this
    {
      Validate(height, resizeMode)
    }

    /** The `onload` effect: the aspect ratio of the image, and fields reset to
        100 % or to the natural size. */
    method OnImageLoad(naturalWidth: nat, naturalHeight: nat)
      requires naturalWidth > 0 && naturalHeight > 0
      modifies this
      ensures Valid()
      ensures aspectRatio == naturalWidth as real / naturalHeight as real
      ensures resizeMode == PERCENT ==> width == Finite(100.0) && height == Finite(100.0)
      ensures resizeMode != PERCENT ==> width == Finite(naturalWidth as real) && height == Finite(naturalHeight as real)
      ensures resizeMode == old(resizeMode) && lockAspectRatio == old(lockAspectRatio)
      ensures interpolationAlgorithm == old(interpolationAlgorithm)
    {
      aspectRatio := naturalWidth as real / naturalHeight as real;
      if resizeMode == PERCENT {
        width, height := Finite(100.0), Finite(100.0);
      } else {
        width, height := Finite(naturalWidth as real), Finite(naturalHeight as real);
      }
    }

    /** `handleWidthChange`: the width takes the typed value; under the lock
        the height follows, equal to it in percent mode, and in pixel mode
        from the single resolution table as written, in which widths and
        heights share keys, or else from the aspect ratio. */
    method HandleWidthChange(value: Entry)
      requires Valid()
      modifies this
      ensures Valid() && width == value
      ensures !lockAspectRatio ==> height == old(height)
      ensures lockAspectRatio && resizeMode == PERCENT ==> height == value
      ensures lockAspectRatio && resizeMode != PERCENT && PresetAsWritten(value).Some? ==>
        height == Finite(PresetAsWritten(value).value as real)
      ensures lockAspectRatio && resizeMode != PERCENT && PresetAsWritten(value).None? ==>
        height == HeightFromWidth(value, aspectRatio)
      ensures resizeMode == old(resizeMode) && lockAspectRatio == old(lockAspectRatio)
      ensures aspectRatio == old(aspectRatio) && interpolationAlgorithm == old(interpolationAlgorithm)
    {
      width := value;
      if lockAspectRatio {
        if resizeMode == PERCENT {
          height := value;
        } else {
          var preset := PresetAsWritten(value);
          if preset.Some? {
            height := Finite(preset.value as real);
          } else {
            height := HeightFromWidth(value, aspectRatio);
          }
        }
      }
    }

    /** `handleHeightChange`, the mirror image of `handleWidthChange`, looking
        the height up in the same table. */
    method HandleHeightChange(value: Entry)
      requires Valid()
      modifies this
      ensures Valid() && height == value
      ensures !lockAspectRatio ==> width == old(width)
      ensures lockAspectRatio && resizeMode == PERCENT ==> width == value
      ensures lockAspectRatio && resizeMode != PERCENT && PresetAsWritten(value).Some? ==>
        width == Finite(PresetAsWritten(value).value as real)
      ensures lockAspectRatio && resizeMode != PERCENT && PresetAsWritten(value).None? ==>
        width == WidthFromHeight(value, aspectRatio)
      ensures resizeMode == old(resizeMode) && lockAspectRatio == old(lockAspectRatio)
      ensures aspectRatio == old(aspectRatio) && interpolationAlgorithm == old(interpolationAlgorithm)
    {
      height := value;
      if lockAspectRatio {
        if resizeMode == PERCENT {
          width := value;
        } else {
          var preset := PresetAsWritten(value);
          if preset.Some? {
            width := Finite(preset.value as real);
          } else {
            width := WidthFromHeight(value, aspectRatio);
          }
        }
      }
    }

    /** The lock button. */
    method ToggleLock()
      modifies this
      ensures lockAspectRatio == !old(lockAspectRatio)
      ensures width == old(width) && height == old(height) && resizeMode == old(resizeMode)
      ensures aspectRatio == old(aspectRatio) && interpolationAlgorithm == old(interpolationAlgorithm)
    {
      lockAspectRatio := !lockAspectRatio;
    }

    /** `handleResizeModeChange`: both fields go back to 100 % or to the natural size. */
    method HandleResizeModeChange(selectedOption: string, naturalWidth: nat, naturalHeight: nat)
      modifies this
      ensures resizeMode == selectedOption
      ensures selectedOption == PERCENT ==> width == Finite(100.0) && height == Finite(100.0)
      ensures selectedOption != PERCENT ==> width == Finite(naturalWidth as real) && height == Finite(naturalHeight as real)
      ensures lockAspectRatio == old(lockAspectRatio) && aspectRatio == old(aspectRatio)
      ensures interpolationAlgorithm == old(interpolationAlgorithm)
    {
      resizeMode := selectedOption;
      if selectedOption == PERCENT {
        width, height := Finite(100.0), Finite(100.0);
      } else {
        width, height := Finite(naturalWidth as real), Finite(naturalHeight as real);
      }
    }

    /** `handleInterpolationAlgorithmChange`. */
    method HandleInterpolationAlgorithmChange(selectedOption: string)
      modifies this
      ensures interpolationAlgorithm == selectedOption
      ensures width == old(width) && height == old(height) && resizeMode == old(resizeMode)
      ensures lockAspectRatio == old(lockAspectRatio) && aspectRatio == old(aspectRatio)
    {
      interpolationAlgorithm := selectedOption;
    }

    /** `handleResizeConfirm` on the pixels of the original image: nothing while
        a field has an error, otherwise the image resampled to the target size
        by the chosen algorithm. */
    method HandleResizeConfirm(original: ImageData) returns (outcome: ResizeOutcome)
      requires original.Valid()
      ensures outcome.Blocked? <==> WidthError() != NoError || HeightError() != NoError
      ensures !outcome.Blocked? ==>
        width.Finite? && height.Finite? && IsInteger(width.v) && IsInteger(height.v) &&
        width.v >= 1.0 && height.v >= 1.0 &&
        outcome == Dispatch(interpolationAlgorithm, original,
                            TargetSize(resizeMode, original.width, width.v.Floor),
                            TargetSize(resizeMode, original.height, height.v.Floor))
    {
      if WidthError() != NoError || HeightError() != NoError {
        return Blocked;
      }
      ValidIffInRange(width, resizeMode);
      ValidIffInRange(height, resizeMode);
      var newWidth := TargetSize(resizeMode, original.width, width.v.Floor);
      var newHeight := TargetSize(resizeMode, original.height, height.v.Floor);
      outcome := Dispatch(interpolationAlgorithm, original, newWidth, newHeight);
    }
  }

  /** Confirming at 100 % in both fields resamples to the natural size. */
  lemma ConfirmAtHundredPercent(original: ImageData, h: nat)
    requires h == 100
    ensures TargetSize(PERCENT, original.width, h) == original.width
    ensures TargetSize(PERCENT, original.height, h) == original.height
  {
    TargetAtHundredPercent(original.width, h);
    TargetAtHundredPercent(original.height, h);
  }
}
