/** Helpers of the editor page (Editor.jsx): the undo/redo history of edited
    images, the zoom factor's range, the transparency scan that decides
    whether a GrayBit-7 export carries a mask, and the unit a file size is
    shown in. */
module Editor {
  import opened Common
  import GrayBit7

  // ---------------------------------------------------------------- history

  /** The history of images and the position of the current one. */
  datatype Timeline = Timeline(entries: seq<string>, index: int)
  {
    /** -1 is the position of an empty history and of nothing else. */
    predicate Valid()
    {
      -1 <= index < |entries| && (index == -1 <==> |entries| == 0)
    }

    predicate CanUndo() { index > 0 }

    predicate CanRedo() { index < |entries| - 1 }
  }

  /** `addToHistory`: what lies after the current image is dropped, the new
      image is appended and becomes the current one. */
  function Added(t: Timeline, newImage: string): (r: Timeline)
    requires t.Valid()
    ensures r.Valid() && !r.CanRedo()
    ensures |r.entries| == t.index + 2 && r.entries[r.index] == newImage
    ensures r.entries[..r.index] == t.entries[..t.index + 1]
  {
    var entries := t.entries[..t.index + 1] + [newImage];
    Timeline(entries, |entries| - 1)
  }

  /** `undo`: one image back, when there is one. */
  function Undone(t: Timeline): (r: Timeline)
    requires t.Valid()
    ensures r.Valid() && r.entries == t.entries
    ensures t.CanUndo() ==> r.index == t.index - 1
    ensures !t.CanUndo() ==> r == t
  {
    if t.CanUndo() then t.(index := t.index - 1) else t
  }

  /** `redo`: one image forward, when there is one. */
  function Redone(t: Timeline): (r: Timeline)
    requires t.Valid()
    ensures r.Valid() && r.entries == t.entries
    ensures t.CanRedo() ==> r.index == t.index + 1
    ensures !t.CanRedo() ==> r == t
  {
    if t.CanRedo() then t.(index := t.index + 1) else t
  }

  /** Redo takes back an undo, and undo takes back a redo. */
  lemma UndoRedoInverse(t: Timeline)
    requires t.Valid()
    ensures t.CanUndo() ==> Redone(Undone(t)) == t
    ensures t.CanRedo() ==> Undone(Redone(t)) == t
  {
  }

  /** Undoing an addition goes back to the image the addition was made on,
      and keeps the new image available to redo. */
  lemma UndoAfterAdd(t: Timeline, newImage: string)
    requires t.Valid() && t.index >= 0
    ensures var u := Undone(Added(t, newImage));
      u.index == t.index && u.entries[u.index] == t.entries[t.index] && u.CanRedo()
  {
    var a := Added(t, newImage);
    assert a.entries[t.index] == a.entries[..a.index][t.index];
  }

  /** The history as the editor keeps it, with the image on display. */
  class History {
    var history: seq<string>
    var historyIndex: int
    var image: string

    function Snapshot(): Timeline
      reads this
    {
      Timeline(history, historyIndex)
    }

    /** `useState([])` and `useState(-1)`. */
    constructor (initialImage: string)
      ensures Snapshot() == Timeline([], -1) && Snapshot().Valid() && image == initialImage
    {
      history := [];
      historyIndex := -1;
      image := initialImage;
    }

    method AddToHistory(newImage: string)
      requires Snapshot().Valid()
      modifies this
      ensures Snapshot() == Added(old(Snapshot()), newImage)
      ensures image == old(image)
    {
      var newHistory := history[..historyIndex + 1];
      newHistory := newHistory + [newImage];
      history := newHistory;
      historyIndex := |newHistory| - 1;
    }

    /** `undo`: the index moves back and the earlier image is put on display. */
    method Undo()
      requires Snapshot().Valid()
      modifies this
      ensures Snapshot() == Undone(old(Snapshot()))
      ensures old(historyIndex) > 0 ==> image == history[historyIndex]
      ensures old(historyIndex) <= 0 ==> image == old(image)
    {
      if historyIndex > 0 {
        historyIndex := historyIndex - 1;
        image := history[historyIndex];
      }
    }

    /** `redo`: the index moves forward and the later image is put on display. */
    method Redo()
      requires Snapshot().Valid()
      modifies this
      ensures Snapshot() == Redone(old(Snapshot()))
      ensures old(historyIndex) < |old(history)| - 1 ==> image == history[historyIndex]
      ensures old(historyIndex) >= |old(history)| - 1 ==> image == old(image)
    {
      if historyIndex < |history| - 1 {
        historyIndex := historyIndex + 1;
        image := history[historyIndex];
      }
    }

    /** The effect that runs when the displayed image changes: a non-empty
        image that is not the current entry is added, so an image put back by
        undo or redo is not added again. */
    method ImageChanged(newImage: string)
      requires Snapshot().Valid()
      modifies this
      ensures image == newImage
      ensures newImage != "" && (|old(history)| == 0 || newImage != old(history)[old(historyIndex)]) ==>
        Snapshot() == Added(old(Snapshot()), newImage)
      ensures newImage == "" || (|old(history)| > 0 && newImage == old(history)[old(historyIndex)]) ==>
        Snapshot() == old(Snapshot())
    {
      image := newImage;
      if newImage != "" && (|history| == 0 || newImage != history[historyIndex]) {
        AddToHistory(newImage);
      }
    }

    /** `updateImage`: an edit puts the new image on display and records it. */
    method UpdateImage(newImage: string)
      requires Snapshot().Valid()
      modifies this
      ensures image == newImage && Snapshot() == Added(old(Snapshot()), newImage)
    {
      image := newImage;
      AddToHistory(newImage);
    }
  }

  // ---------------------------------------------------------------- zoom

  /** The zoom factor's bounds, in percent. */
  const MIN_ZOOM: real := 12.0
  const MAX_ZOOM: real := 300.0

  /** The step one wheel notch changes the zoom by, in percent. */
  const ZOOM_STEP: real := 10.0

  /** `Math.max(12, Math.min(300, v))`. */
  function ClampZoom(v: real): (z: real)
    ensures MIN_ZOOM <= z <= MAX_ZOOM
    ensures MIN_ZOOM <= v <= MAX_ZOOM ==> z == v
    ensures v < MIN_ZOOM ==> z == MIN_ZOOM
    ensures v > MAX_ZOOM ==> z == MAX_ZOOM
  {
    MaxReal(MIN_ZOOM, MinReal(MAX_ZOOM, v))
  }

  /** The wheel handler: scrolling up zooms in by a step, anything else zooms out. */
  function WheelZoom(currentScale: real, deltaY: real): (z: real)
    ensures MIN_ZOOM <= z <= MAX_ZOOM
    ensures deltaY < 0.0 && currentScale + ZOOM_STEP <= MAX_ZOOM && currentScale >= MIN_ZOOM - ZOOM_STEP ==>
      z == currentScale + ZOOM_STEP
    ensures deltaY >= 0.0 && currentScale - ZOOM_STEP >= MIN_ZOOM && currentScale <= MAX_ZOOM + ZOOM_STEP ==>
      z == currentScale - ZOOM_STEP
  {
    ClampZoom(if deltaY < 0.0 then currentScale + ZOOM_STEP else currentScale - ZOOM_STEP)
  }

  /** Zooming in never lowers the zoom and zooming out never raises it, once
      the zoom is inside its range. */
  lemma WheelZoomMonotone(currentScale: real, deltaY: real)
    requires MIN_ZOOM <= currentScale <= MAX_ZOOM
    ensures deltaY < 0.0 ==> WheelZoom(currentScale, deltaY) >= currentScale
    ensures deltaY >= 0.0 ==> WheelZoom(currentScale, deltaY) <= currentScale
  {
  }

  /** The zoom chosen when an image loads: the largest that fits the image
      into the workspace with 50 px to spare on each side, kept within range. */
  function FitZoom(workspaceWidth: real, workspaceHeight: real, imageWidth: real, imageHeight: real): (z: real)
    requires imageWidth > 0.0 && imageHeight > 0.0
    ensures MIN_ZOOM <= z <= MAX_ZOOM
  {
    var widthScale := (workspaceWidth - 100.0) / imageWidth;
    var heightScale := (workspaceHeight - 100.0) / imageHeight;
    ClampZoom(MinReal(widthScale, heightScale) * 100.0)
  }

  /** Unless the zoom was raised to its minimum, the image drawn at the load
      zoom fits into the workspace less the 50 px margins. */
  lemma FitZoomFits(workspaceWidth: real, workspaceHeight: real, imageWidth: real, imageHeight: real)
    requires imageWidth > 0.0 && imageHeight > 0.0
    requires MinReal((workspaceWidth - 100.0) / imageWidth, (workspaceHeight - 100.0) / imageHeight) * 100.0 >= MIN_ZOOM
    ensures var z := FitZoom(workspaceWidth, workspaceHeight, imageWidth, imageHeight);
      imageWidth * z / 100.0 <= workspaceWidth - 100.0 && imageHeight * z / 100.0 <= workspaceHeight - 100.0
  {
    var widthScale := (workspaceWidth - 100.0) / imageWidth;
    var heightScale := (workspaceHeight - 100.0) / imageHeight;
    var z := FitZoom(workspaceWidth, workspaceHeight, imageWidth, imageHeight);
    assert z <= MinReal(widthScale, heightScale) * 100.0;
    assert z / 100.0 <= widthScale && z / 100.0 <= heightScale;
    MulLeReal(z / 100.0, widthScale, imageWidth);
    MulLeReal(z / 100.0, heightScale, imageHeight);
    assert widthScale * imageWidth == workspaceWidth - 100.0;
    assert heightScale * imageHeight == workspaceHeight - 100.0;
  }

  // ---------------------------------------------------------------- transparency and export

  /** `checkImageHasTransparency`: scans the alpha bytes and stops at the
      first one below 255. */
  method CheckImageHasTransparency(data: seq<byte>) returns (hasTransparency: bool)
    ensures hasTransparency <==> SomeAlphaBelow255(data)
  {
    var i := 3;
    while i < |data|
      invariant i % 4 == 3 && 3 <= i
      invariant forall j :: 0 <= j < i && j < |data| && j % 4 == 3 ==> data[j] == 255
      decreases |data| - i
    {
      if data[i] < 255 {
        return true;
      }
      i := i + 4;
    }
    return false;
  }

  /** The GrayBit-7 export: the mask is included exactly when the image has a
      transparent pixel. */
  method ExportGrayBit7(img: ImageData) returns (buffer: seq<byte>)
    requires img.Valid()
    ensures buffer == GrayBit7.Encoding(img, SomeAlphaBelow255(img.data))
  {
    var hasTransparency := CheckImageHasTransparency(img.data);
    buffer := GrayBit7.Encode(img, hasTransparency);
  }

  /** An opaque image is exported without a mask: the flag byte of the header is 0. */
  lemma OpaqueExportHasNoMask(img: ImageData)
    requires img.Valid() && forall i :: 0 <= i < |img.data| && i % 4 == 3 ==> img.data[i] == 255
    ensures GrayBit7.Encoding(img, SomeAlphaBelow255(img.data))[5] == 0x00
  {
  }

  // ---------------------------------------------------------------- file size

  datatype SizeUnit = Bytes | Kilobytes | Megabytes

  /** The unit `formatFileSize` shows a size in. */
  function FileSizeUnit(bytes: int): (u: SizeUnit)
    ensures u == Bytes <==> bytes < 1024
    ensures u == Kilobytes <==> 1024 <= bytes < 1048576
    ensures u == Megabytes <==> bytes >= 1048576
  {
    if bytes < 1024 then Bytes else if bytes < 1048576 then Kilobytes else Megabytes
  }

  /** The number shown before the unit, before `toFixed(1)` rounds it. */
  function FileSizeQuantity(bytes: int): real
  {
    match FileSizeUnit(bytes)
    case Bytes => bytes as real
    case Kilobytes => bytes as real / 1024.0
    case Megabytes => bytes as real / 1048576.0
  }

  /** A size shown in KB or MB shows a number of at least 1, and one shown in
      KB is below 1024: each size is shown in the largest unit it fills. */
  lemma FileSizeQuantityRange(bytes: int)
    ensures FileSizeUnit(bytes) != Bytes ==> FileSizeQuantity(bytes) >= 1.0
    ensures FileSizeUnit(bytes) == Kilobytes ==> FileSizeQuantity(bytes) < 1024.0
  {
  }

  /** A size below 1 KB is printed exactly, as `bytes + ' B'`. */
  function FormatBytes(bytes: nat): (s: string)
    requires bytes < 1024
    ensures |s| >= 3 && s[|s| - 2..] == " B" && ParseDigits(s[..|s| - 2]) == bytes
  {
    ParseNatToString(bytes);
    var digits := NatToString(bytes);
    assert (digits + " B")[..|digits|] == digits;
    digits + " B"
  }
}
