/** The layer records of the editor and the `useLayers` hook that holds them:
    the stack of layers (index 0 is the topmost one), the active layer id,
    the order in which layers are painted, how each one is drawn, the blend
    mode mapping, the fit rectangle of an image layer and the summary the
    hook reports. */
module Layers {
  import opened Common

  /** What a layer holds (`type`: 'image', 'color' or 'empty'). */
  datatype LayerKind = ImageKind | ColorKind | EmptyKind

  /** The alpha-channel record of a layer: `{ visible, data, preview }`. */
  datatype AlphaChannel = AlphaChannel(visible: bool, data: Option<string>, preview: Option<string>)

  /** The fields a colour fill saves so that a reset can bring them back. */
  datatype SavedState = SavedState(kind: LayerKind, data: Option<string>, preview: Option<string>,
                                   name: string, alphaChannel: Option<AlphaChannel>)

  /** One layer record. `data` is a data URL for an image layer and a CSS
      colour for a colour layer; `originalState` is present only after a fill. */
  datatype Layer = Layer(id: string, name: string, visible: bool, opacity: int, blendMode: string,
                         kind: LayerKind, data: Option<string>, preview: Option<string>,
                         alphaChannel: Option<AlphaChannel>, originalState: Option<SavedState>)

  /** The id of the layer `initializeWithImage` creates. */
  const BASE_LAYER_ID: string := "base-layer"

  /** The name of the base layer. */
  const BASE_LAYER_NAME: string := "Слой 1"

  /** The base layer of a freshly opened image, with its rendered preview. */
  function BaseLayer(imageUrl: string, preview: string): (l: Layer)
    ensures l.id == BASE_LAYER_ID && l.name == BASE_LAYER_NAME && l.visible && l.opacity == 100
    ensures l.kind == ImageKind && l.data == Some(imageUrl) && l.alphaChannel.None?
  {
    Layer(BASE_LAYER_ID, BASE_LAYER_NAME, true, 100, "normal", ImageKind, Some(imageUrl), Some(preview), None, None)
  }

  /** `layers.findIndex(layer => layer.id === id)`: the first index holding id, or -1. */
  function FindIndex(layers: seq<Layer>, id: string): (i: int)
    ensures -1 <= i < |layers|
    ensures i >= 0 ==> layers[i].id == id
    ensures forall j :: 0 <= j < |layers| && (i < 0 || j < i) ==> layers[j].id != id
    decreases |layers|
  {
    if layers == [] then -1
    else if layers[0].id == id then 0
    else
      var k := FindIndex(layers[1..], id);
      if k < 0 then -1 else k + 1
  }

  /** `layers.find(layer => layer.id === activeLayerId)`; a null active id
      matches no layer, since every id is a string. */
  function FindLayer(layers: seq<Layer>, activeLayerId: Option<string>): (r: Option<Layer>)
    ensures r.None? <==> forall i :: 0 <= i < |layers| ==> Some(layers[i].id) != activeLayerId
    ensures r.Some? ==> exists k :: 0 <= k < |layers| && layers[k] == r.value && Some(layers[k].id) == activeLayerId &&
                                    forall j :: 0 <= j < k ==> Some(layers[j].id) != activeLayerId
  {
    if activeLayerId.None? then None
    else
      var k := FindIndex(layers, activeLayerId.value);
      if k < 0 then None else Some(layers[k])
  }

  // ---------------------------------------------------------------- painting

  /** `layer.visible && layer.data`: an empty string is as falsy as null. */
  predicate Drawable(l: Layer)
  {
    l.visible && l.data.Some? && l.data.value != ""
  }

  /** The layers in the opposite order (`[...layers].reverse()`). */
  function Reverse(s: seq<Layer>): (r: seq<Layer>)
    ensures |r| == |s|
    ensures forall i :: 0 <= i < |s| ==> r[i] == s[|s| - 1 - i]
    decreases |s|
  {
    if s == [] then [] else [s[|s| - 1]] + Reverse(s[..|s| - 1])
  }

  /** The drawable layers of s, in the order of s. */
  function DrawableOnly(s: seq<Layer>): (r: seq<Layer>)
    ensures |r| <= |s|
    ensures forall l :: l in r ==> Drawable(l) && l in s
    decreases |s|
  {
    if s == [] then []
    else (if Drawable(s[0]) then [s[0]] else []) + DrawableOnly(s[1..])
  }

  /** A layer is painted if and only if it is in the stack and drawable. */
  lemma {:induction false} DrawableOnlyMembers(s: seq<Layer>, l: Layer)
    ensures l in DrawableOnly(s) <==> l in s && Drawable(l)
    decreases |s|
  {
    if s != [] {
      DrawableOnlyMembers(s[1..], l);
      assert s == [s[0]] + s[1..];
    }
  }

  lemma {:induction false} DrawableOnlyAppend(a: seq<Layer>, b: seq<Layer>)
    ensures DrawableOnly(a + b) == DrawableOnly(a) + DrawableOnly(b)
    decreases |a|
  {
    if a == [] {
      assert a + b == b;
    } else {
      var head := if Drawable(a[0]) then [a[0]] else [];
      assert (a + b)[0] == a[0];
      assert (a + b)[1..] == a[1..] + b;
      assert DrawableOnly(a + b) == head + DrawableOnly(a[1..] + b);
      DrawableOnlyAppend(a[1..], b);
      assert DrawableOnly(a) == head + DrawableOnly(a[1..]);
      assert head + (DrawableOnly(a[1..]) + DrawableOnly(b)) == (head + DrawableOnly(a[1..])) + DrawableOnly(b);
    }
  }

  /** One more layer scanned adds that layer to the painted ones when it is drawable. */
  lemma DrawableOnlyStep(s: seq<Layer>, k: nat)
    requires k < |s|
    ensures DrawableOnly(s[..k + 1]) == DrawableOnly(s[..k]) + (if Drawable(s[k]) then [s[k]] else [])
  {
    assert s[..k + 1] == s[..k] + [s[k]];
    DrawableOnlyAppend(s[..k], [s[k]]);
    assert DrawableOnly([s[k]]) == (if Drawable(s[k]) then [s[k]] else []) + DrawableOnly([]);
  }

  lemma ReverseAppend(a: seq<Layer>, b: seq<Layer>)
    ensures Reverse(a + b) == Reverse(b) + Reverse(a)
  {
  }

  /** Painting order: every layer stored after another (lower in the panel)
      is painted before it, so the topmost layer, at index 0, ends up on top. */
  lemma PaintOrderSplits(a: seq<Layer>, b: seq<Layer>)
    ensures DrawableOnly(Reverse(a + b)) == DrawableOnly(Reverse(b)) + DrawableOnly(Reverse(a))
  {
    ReverseAppend(a, b);
    DrawableOnlyAppend(Reverse(b), Reverse(a));
  }

  /** The last stored layer, when drawable, is the first one painted. */
  lemma LastStoredPaintedFirst(s: seq<Layer>)
    requires |s| > 0 && Drawable(s[|s| - 1])
    ensures var painted := DrawableOnly(Reverse(s));
      |painted| > 0 && painted[0] == s[|s| - 1]
  {
    var r := Reverse(s);
    assert r == [s[|s| - 1]] + r[1..];
    DrawableOnlyAppend([s[|s| - 1]], r[1..]);
  }

  /** `getCompositeOperation`: the canvas composite operation of a blend mode. */
  function GetCompositeOperation(blendMode: string): (op: string)
    ensures op in ["multiply", "screen", "overlay", "source-over"]
    ensures blendMode in ["multiply", "screen", "overlay"] ==> op == blendMode
    ensures blendMode !in ["multiply", "screen", "overlay"] ==> op == "source-over"
  {
    match blendMode
    case "multiply" => "multiply"
    case "screen" => "screen"
    case "overlay" => "overlay"
    case _ => "source-over"
  }

  /** What `renderLayer` puts on the canvas for one layer. */
  datatype Content = FittedImage(url: string) | FilledRect(color: string) | NoContent

  datatype DrawCall = DrawCall(globalAlpha: real, operation: string, content: Content)

  /** `renderLayer`: opacity as a fraction, the blend mode's composite
      operation, and an image or a full-canvas fill depending on the kind. */
  function RenderLayer(l: Layer): (d: DrawCall)
    requires Drawable(l)
    ensures d.globalAlpha * 100.0 == l.opacity as real
    ensures d.operation == GetCompositeOperation(l.blendMode)
    ensures d.content.NoContent? <==> l.kind == EmptyKind
    ensures d.content.FittedImage? ==> d.content.url == l.data.value
    ensures d.content.FilledRect? ==> d.content.color == l.data.value
  {
    var content := match l.kind
      case ImageKind => FittedImage(l.data.value)
      case ColorKind => FilledRect(l.data.value)
      case EmptyKind => NoContent;
    DrawCall(l.opacity as real / 100.0, GetCompositeOperation(l.blendMode), content)
  }

  datatype Rect = Rect(x: real, y: real, width: real, height: real)

  /** The rectangle `renderImageLayer` draws an image into: scaled by
      `min(cw / iw, ch / ih)` and centred. */
  function FitRect(canvasWidth: real, canvasHeight: real, imageWidth: real, imageHeight: real): (r: Rect)
    requires canvasWidth >= 0.0 && canvasHeight >= 0.0 && imageWidth > 0.0 && imageHeight > 0.0
    ensures 0.0 <= r.width <= canvasWidth && 0.0 <= r.height <= canvasHeight
    ensures r.width == canvasWidth || r.height == canvasHeight
    ensures r.width * imageHeight == r.height * imageWidth
    ensures r.x >= 0.0 && r.y >= 0.0 && r.x + r.width / 2.0 == canvasWidth / 2.0 && r.y + r.height / 2.0 == canvasHeight / 2.0
  {
    var scale := MinReal(canvasWidth / imageWidth, canvasHeight / imageHeight);
    FitBounds(canvasWidth, canvasHeight, imageWidth, imageHeight, scale);
    var width := imageWidth * scale;
    var height := imageHeight * scale;
    Rect((canvasWidth - width) / 2.0, (canvasHeight - height) / 2.0, width, height)
  }

  lemma FitBounds(cw: real, ch: real, iw: real, ih: real, scale: real)
    requires cw >= 0.0 && ch >= 0.0 && iw > 0.0 && ih > 0.0
    requires scale == MinReal(cw / iw, ch / ih)
    ensures 0.0 <= iw * scale <= cw && 0.0 <= ih * scale <= ch
    ensures iw * scale == cw || ih * scale == ch
    ensures (iw * scale) * ih == (ih * scale) * iw
  {
    assert iw * (cw / iw) == cw;
    assert ih * (ch / ih) == ch;
    MulLeReal(scale, cw / iw, iw);
    MulLeReal(scale, ch / ih, ih);
    MulNonNegReal(iw, scale);
    MulNonNegReal(ih, scale);
  }

  // ---------------------------------------------------------------- getLayersInfo

  function CountVisible(s: seq<Layer>): (n: nat)
    ensures n <= |s|
    decreases |s|
  {
    if s == [] then 0 else (if s[0].visible then 1 else 0) + CountVisible(s[1..])
  }

  /** Every layer is counted as visible exactly when all layers are visible. */
  lemma {:induction false} CountVisibleAll(s: seq<Layer>)
    ensures CountVisible(s) == |s| <==> forall i :: 0 <= i < |s| ==> s[i].visible
    decreases |s|
  {
    if s != [] {
      CountVisibleAll(s[1..]);
      assert forall i :: 1 <= i < |s| ==> s[i] == s[1..][i - 1];
    }
  }

  datatype LayersInfo = LayersInfo(totalLayers: nat, visibleLayers: nat, activeLayer: Option<Layer>,
                                   hasAlphaChannels: bool)

  /** `getLayersInfo`. */
  function GetLayersInfo(layers: seq<Layer>, activeLayerId: Option<string>): (info: LayersInfo)
    ensures info.totalLayers == |layers| && info.visibleLayers <= info.totalLayers
    ensures info.hasAlphaChannels <==> exists i :: 0 <= i < |layers| && layers[i].alphaChannel.Some?
    ensures info.activeLayer == FindLayer(layers, activeLayerId)
  {
    LayersInfo(|layers|, CountVisible(layers), FindLayer(layers, activeLayerId),
               exists i :: 0 <= i < |layers| && layers[i].alphaChannel.Some?)
  }

  // ---------------------------------------------------------------- the hook's state

  /** The state `useLayers` keeps with `useState`. */
  class LayerStore {
    var layers: seq<Layer>
    var activeLayerId: Option<string>

    /** `useState([])` and `useState(null)`. */
    constructor ()
      ensures layers == [] && activeLayerId.None?
    {
      layers := [];
      activeLayerId := None;
    }

    /** `initializeWithImage`, once the image has loaded and its preview is drawn. */
    method InitializeWithImage(imageUrl: string, preview: string)
      modifies this
      ensures layers == [BaseLayer(imageUrl, preview)]
      ensures activeLayerId == Some(BASE_LAYER_ID)
      ensures GetActiveLayer() == Some(layers[0])
    {
      layers := [BaseLayer(imageUrl, preview)];
      activeLayerId := Some(BASE_LAYER_ID);
    }

    /** `addLayer`: the new layer goes on top and becomes active. */
    method AddLayer(newLayer: Layer)
      modifies this
      ensures layers == [newLayer] + old(layers)
      ensures activeLayerId == Some(newLayer.id)
      ensures GetActiveLayer() == Some(newLayer)
    {
      layers := [newLayer] + layers;
      activeLayerId := Some(newLayer.id);
    }

    /** `updateLayers`. */
    method UpdateLayers(newLayers: seq<Layer>)
      modifies this
      ensures layers == newLayers && activeLayerId == old(activeLayerId)
    {
      layers := newLayers;
    }

    /** `setActiveLayer`. */
    method SetActiveLayer(layerId: Option<string>)
      modifies this
      ensures activeLayerId == layerId && layers == old(layers)
    {
      activeLayerId := layerId;
    }

    /** `getActiveLayer`: the first layer of the stack with the active id, as `find` returns it. */
    function GetActiveLayer(): (r: Option<Layer>)
      reads this
      ensures r.Some? ==> r.value in layers && Some(r.value.id) == activeLayerId
      ensures r.Some? ==> exists k :: 0 <= k < |layers| && layers[k] == r.value && Some(layers[k].id) == activeLayerId &&
                                      forall j :: 0 <= j < k ==> Some(layers[j].id) != activeLayerId
      ensures r.None? <==> forall i :: 0 <= i < |layers| ==> Some(layers[i].id) != activeLayerId
    {
      FindLayer(layers, activeLayerId)
    }

    /** The painting loop of `renderLayers`: walks the reversed stack, skips
        layers that are hidden or have no data, and draws the rest. */
    method RenderLayers() returns (calls: seq<DrawCall>, painted: seq<Layer>)
      ensures painted == DrawableOnly(Reverse(layers))
      ensures |calls| == |painted| && forall i :: 0 <= i < |painted| ==> calls[i] == RenderLayer(painted[i])
    {
      var order := Reverse(layers);
      calls, painted := [], [];
      var k := 0;
      while k < |order|
        invariant 0 <= k <= |order|
        invariant painted == DrawableOnly(order[..k])
        invariant |calls| == |painted| && forall i :: 0 <= i < |painted| ==> Drawable(painted[i]) && calls[i] == RenderLayer(painted[i])
      {
        DrawableOnlyStep(order, k);
        if Drawable(order[k]) {
          calls := calls + [RenderLayer(order[k])];
          painted := painted + [order[k]];
        }
        k := k + 1;
      }
      assert order[..k] == order;
    }
  }
}
