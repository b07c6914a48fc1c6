/** The layer-stack operations of the layers panel (LayersPanel.jsx): adding a
    layer under a cap, deleting any layer but the last, the per-layer property
    setters, colour fill and reset, loading an image into a layer,
    drag-and-drop reordering, and the alpha mask extracted from an image's
    pixels. Every operation except the drop produces a new stack with `map`
    or `filter`; the drop copies the stack and splices the copy in place. */
module LayersPanel {
  import opened Common
  import opened Layers

  /** The panel's default `maxLayers`. */
  const DEFAULT_MAX_LAYERS: int := 2

  /** The word every default layer name starts with. */
  const LAYER_WORD: string := "Слой"

  // ---------------------------------------------------------------- add and delete

  /** `handleAddLayer`: the layer it hands to `onAddLayer`, or None when the
      cap is reached (the source shows an alert and adds nothing). The id is
      the caller's clock reading. */
  function HandleAddLayer(layers: seq<Layer>, maxLayers: int, id: string): (r: Option<Layer>)
    ensures r.None? <==> |layers| >= maxLayers
    ensures r.Some? ==> r.value.id == id && r.value.name == LAYER_WORD + " " + NatToString(|layers| + 1)
    ensures r.Some? ==> r.value.visible && r.value.opacity == 100 && r.value.blendMode == "normal"
    ensures r.Some? ==> r.value.kind == EmptyKind && r.value.data.None? && r.value.preview.None? &&
                        r.value.alphaChannel.None? && r.value.originalState.None?
  {
    if |layers| >= maxLayers then None
    else Some(Layer(id, LAYER_WORD + " " + NatToString(|layers| + 1), true, 100, "normal",
                    EmptyKind, None, None, None, None))
  }

  /** Adding through the panel and then the hook never takes the stack past the cap. */
  lemma AddKeepsCap(layers: seq<Layer>, maxLayers: int, id: string)
    requires |layers| <= maxLayers
    ensures var r := HandleAddLayer(layers, maxLayers, id);
      |if r.Some? then [r.value] + layers else layers| <= maxLayers
  {
  }

  /** `layers.filter(layer => layer.id !== layerId)`. */
  function WithoutId(layers: seq<Layer>, layerId: string): (r: seq<Layer>)
    ensures |r| <= |layers|
    ensures forall l :: l in r <==> l in layers && l.id != layerId
    decreases |layers|
  {
    if layers == [] then []
    else (if layers[0].id != layerId then [layers[0]] else []) + WithoutId(layers[1..], layerId)
  }

  predicate UniqueIds(layers: seq<Layer>)
  {
    forall i, j :: 0 <= i < j < |layers| ==> layers[i].id != layers[j].id
  }

  /** With distinct ids, filtering out the id of layer k removes that layer and
      keeps the others in order. */
  lemma {:induction false} WithoutIdRemovesOne(layers: seq<Layer>, k: nat)
    requires k < |layers| && UniqueIds(layers)
    ensures WithoutId(layers, layers[k].id) == layers[..k] + layers[k + 1..]
    decreases |layers|
  {
    var id := layers[k].id;
    var tail := layers[1..];
    UniqueTail(layers);
    if k == 0 {
      HeadIdFresh(layers);
      WithoutIdKeepsAll(tail, id);
    } else {
      assert layers[0].id != id;
      assert WithoutId(layers, id) == [layers[0]] + WithoutId(tail, id);
      assert tail[k - 1] == layers[k];
      WithoutIdRemovesOne(tail, k - 1);
      RemovedAfterHead(layers, k);
    }
  }

  /** Removing entry k > 0 keeps the head and removes entry k - 1 of the tail. */
  lemma RemovedAfterHead(layers: seq<Layer>, k: nat)
    requires 0 < k < |layers|
    ensures layers[..k] + layers[k + 1..] == [layers[0]] + (layers[1..][..k - 1] + layers[1..][k..])
  {
    var tail := layers[1..];
    assert layers[..k] == [layers[0]] + tail[..k - 1];
    assert layers[k + 1..] == tail[k..];
  }

  /** The layers after the first of a stack with distinct ids have distinct ids. */
  lemma UniqueTail(layers: seq<Layer>)
    requires |layers| > 0 && UniqueIds(layers)
    ensures UniqueIds(layers[1..])
  {
    var tail := layers[1..];
    forall i, j | 0 <= i < j < |tail| ensures tail[i].id != tail[j].id {
      assert tail[i] == layers[i + 1] && tail[j] == layers[j + 1];
    }
  }

  /** No later layer of a stack with distinct ids shares the first layer's id. */
  lemma HeadIdFresh(layers: seq<Layer>)
    requires |layers| > 0 && UniqueIds(layers)
    ensures forall j :: 0 <= j < |layers| - 1 ==> layers[1..][j].id != layers[0].id
  {
    forall j | 0 <= j < |layers| - 1 ensures layers[1..][j].id != layers[0].id {
      assert layers[1..][j] == layers[j + 1];
    }
  }

  /** Filtering out an id no layer has changes nothing. */
  lemma {:induction false} WithoutIdKeepsAll(layers: seq<Layer>, layerId: string)
    requires forall j :: 0 <= j < |layers| ==> layers[j].id != layerId
    ensures WithoutId(layers, layerId) == layers
    decreases |layers|
  {
    if layers != [] {
      WithoutIdKeepsAll(layers[1..], layerId);
      assert layers == [layers[0]] + layers[1..];
    }
  }

  /** `handleDeleteLayer`: the new stack and the new active id. A stack of one
      layer (or none) is kept as it is; otherwise the layers with that id are
      removed, and when the active layer was the one removed the first
      remaining layer becomes active. */
  function HandleDeleteLayer(layers: seq<Layer>, activeLayerId: Option<string>, layerId: string)
    : (r: (seq<Layer>, Option<string>))
    ensures |layers| <= 1 ==> r == (layers, activeLayerId)
    ensures |layers| > 1 ==> r.0 == WithoutId(layers, layerId)
    ensures |layers| > 1 && activeLayerId == Some(layerId) && |r.0| > 0 ==> r.1 == Some(r.0[0].id)
    ensures activeLayerId != Some(layerId) || |r.0| == 0 ==> r.1 == activeLayerId
  {
    if |layers| <= 1 then (layers, activeLayerId)
    else
      var updated := WithoutId(layers, layerId);
      if activeLayerId == Some(layerId) && |updated| > 0 then (updated, Some(updated[0].id))
      else (updated, activeLayerId)
  }

  /** With distinct ids, deleting a layer of a stack of two or more removes
      exactly that layer, leaves at least one, and moves the active mark to a
      remaining layer when the active one went away. */
  lemma DeleteKeepsOne(layers: seq<Layer>, activeLayerId: Option<string>, k: nat)
    requires k < |layers| && |layers| >= 2 && UniqueIds(layers)
    ensures var r := HandleDeleteLayer(layers, activeLayerId, layers[k].id);
      r.0 == layers[..k] + layers[k + 1..] && |r.0| == |layers| - 1 >= 1 &&
      (activeLayerId == Some(layers[k].id) ==> r.1 == Some(r.0[0].id))
  {
    WithoutIdRemovesOne(layers, k);
  }

  // ---------------------------------------------------------------- property setters

  /** `layers.map(layer => layer.id === layerId ? f(layer) : layer)`. */
  function MapWhere(layers: seq<Layer>, layerId: string, f: Layer -> Layer): (r: seq<Layer>)
    ensures |r| == |layers|
    ensures forall i :: 0 <= i < |layers| ==> r[i] == if layers[i].id == layerId then f(layers[i]) else layers[i]
  {
    seq(|layers|, i requires 0 <= i < |layers| => if layers[i].id == layerId then f(layers[i]) else layers[i])
  }

  /** `handleToggleVisibility`. */
  function ToggleVisibility(layers: seq<Layer>, layerId: string): (r: seq<Layer>)
    ensures |r| == |layers|
    ensures forall i :: 0 <= i < |layers| && layers[i].id != layerId ==> r[i] == layers[i]
    ensures forall i :: 0 <= i < |layers| && layers[i].id == layerId ==>
      r[i].visible != layers[i].visible && r[i].(visible := layers[i].visible) == layers[i]
  {
    MapWhere(layers, layerId, (l: Layer) => l.(visible := !l.visible))
  }

  /** Toggling the visibility of a layer twice gives back the stack. */
  lemma ToggleVisibilityTwice(layers: seq<Layer>, layerId: string)
    ensures ToggleVisibility(ToggleVisibility(layers, layerId), layerId) == layers
  {
    var once := ToggleVisibility(layers, layerId);
    var twice := ToggleVisibility(once, layerId);
    assert forall i :: 0 <= i < |layers| ==> once[i].id == layers[i].id;
    assert forall i :: 0 <= i < |layers| ==> twice[i] == layers[i];
  }

  /** `handleOpacityChange` (the slider value is already a number). */
  function SetOpacity(layers: seq<Layer>, layerId: string, opacity: int): (r: seq<Layer>)
    ensures |r| == |layers|
    ensures forall i :: 0 <= i < |layers| && layers[i].id != layerId ==> r[i] == layers[i]
    ensures forall i :: 0 <= i < |layers| && layers[i].id == layerId ==>
      r[i].opacity == opacity && r[i].(opacity := layers[i].opacity) == layers[i]
  {
    MapWhere(layers, layerId, (l: Layer) => l.(opacity := opacity))
  }

  /** `handleBlendModeChange`. */
  function SetBlendMode(layers: seq<Layer>, layerId: string, blendMode: string): (r: seq<Layer>)
    ensures |r| == |layers|
    ensures forall i :: 0 <= i < |layers| && layers[i].id != layerId ==> r[i] == layers[i]
    ensures forall i :: 0 <= i < |layers| && layers[i].id == layerId ==>
      r[i].blendMode == blendMode && r[i].(blendMode := layers[i].blendMode) == layers[i]
  {
    MapWhere(layers, layerId, (l: Layer) => l.(blendMode := blendMode))
  }

  /** The fresh alpha-channel record `handleToggleAlphaChannel` creates. */
  const NEW_ALPHA_CHANNEL: AlphaChannel := AlphaChannel(true, None, None)

  /** `handleToggleAlphaChannel`: a layer with an alpha channel loses it, one
      without gets an empty visible one. */
  function ToggleAlphaChannel(layers: seq<Layer>, layerId: string): (r: seq<Layer>)
    ensures |r| == |layers|
    ensures forall i :: 0 <= i < |layers| && layers[i].id != layerId ==> r[i] == layers[i]
    ensures forall i :: 0 <= i < |layers| && layers[i].id == layerId ==>
      r[i].alphaChannel.Some? != layers[i].alphaChannel.Some? &&
      (r[i].alphaChannel.Some? ==> r[i].alphaChannel == Some(NEW_ALPHA_CHANNEL)) &&
      r[i].(alphaChannel := layers[i].alphaChannel) == layers[i]
  {
    MapWhere(layers, layerId, (l: Layer) => l.(alphaChannel := if l.alphaChannel.Some? then None else Some(NEW_ALPHA_CHANNEL)))
  }

  /** `handleToggleAlphaVisibility`: only a target layer that has an alpha
      channel changes, and only in that channel's `visible` flag. */
  function ToggleAlphaVisibility(layers: seq<Layer>, layerId: string): (r: seq<Layer>)
    ensures |r| == |layers|
    ensures forall i :: 0 <= i < |layers| && (layers[i].id != layerId || layers[i].alphaChannel.None?) ==>
      r[i] == layers[i]
    ensures forall i :: 0 <= i < |layers| && layers[i].id == layerId && layers[i].alphaChannel.Some? ==>
      r[i].alphaChannel.Some? && r[i].alphaChannel.value.visible != layers[i].alphaChannel.value.visible &&
      r[i].(alphaChannel := layers[i].alphaChannel) == layers[i] &&
      r[i].alphaChannel.value.(visible := layers[i].alphaChannel.value.visible) == layers[i].alphaChannel.value
  {
    seq(|layers|, i requires 0 <= i < |layers| =>
      var l := layers[i];
      if l.id == layerId && l.alphaChannel.Some?
      then l.(alphaChannel := Some(l.alphaChannel.value.(visible := !l.alphaChannel.value.visible)))
      else l)
  }

  /** Toggling the alpha visibility twice gives back the stack. */
  lemma ToggleAlphaVisibilityTwice(layers: seq<Layer>, layerId: string)
    ensures ToggleAlphaVisibility(ToggleAlphaVisibility(layers, layerId), layerId) == layers
  {
    var once := ToggleAlphaVisibility(layers, layerId);
    var twice := ToggleAlphaVisibility(once, layerId);
    assert forall i :: 0 <= i < |layers| ==> once[i].id == layers[i].id && once[i].alphaChannel.Some? == layers[i].alphaChannel.Some?;
    assert forall i :: 0 <= i < |layers| ==> twice[i] == layers[i];
  }

  /** `handleDeleteAlphaChannel`. */
  function DeleteAlphaChannel(layers: seq<Layer>, layerId: string): (r: seq<Layer>)
    ensures |r| == |layers|
    ensures forall i :: 0 <= i < |layers| && layers[i].id != layerId ==> r[i] == layers[i]
    ensures forall i :: 0 <= i < |layers| && layers[i].id == layerId ==>
      r[i].alphaChannel.None? && r[i].(alphaChannel := layers[i].alphaChannel) == layers[i]
  {
    MapWhere(layers, layerId, (l: Layer) => l.(alphaChannel := None))
  }

  /** `handleLoadImage`, once the file is read and the preview and alpha
      channel computed: the layer becomes an image layer named after the file
      (or keeps its name when the file name is empty). */
  function LoadImage(layers: seq<Layer>, layerId: string, dataUrl: string, preview: string,
                     fileName: string, alphaChannel: Option<AlphaChannel>): (r: seq<Layer>)
    ensures |r| == |layers|
    ensures forall i :: 0 <= i < |layers| && layers[i].id != layerId ==> r[i] == layers[i]
    ensures forall i :: 0 <= i < |layers| && layers[i].id == layerId ==>
      r[i].kind == ImageKind && r[i].data == Some(dataUrl) && r[i].preview == Some(preview) &&
      r[i].alphaChannel == alphaChannel && r[i].name == (if fileName != "" then fileName else layers[i].name) &&
      r[i].(kind := layers[i].kind, data := layers[i].data, preview := layers[i].preview,
            alphaChannel := layers[i].alphaChannel, name := layers[i].name) == layers[i]
  {
    MapWhere(layers, layerId, (l: Layer) => l.(kind := ImageKind, data := Some(dataUrl), preview := Some(preview),
                                     name := if fileName != "" then fileName else l.name, alphaChannel := alphaChannel))
  }

  // ---------------------------------------------------------------- fill and reset

  /** The five fields a fill saves and a reset restores. */
  function Saved(l: Layer): SavedState
  {
    SavedState(l.kind, l.data, l.preview, l.name, l.alphaChannel)
  }

  /** The fill applied to one layer: the state before the first fill is
      saved, then the layer becomes a colour layer named after the colour. */
  function FillLayer(l: Layer, color: string, preview: string): (r: Layer)
    ensures r.kind == ColorKind && r.data == Some(color) && r.preview == Some(preview)
    ensures r.name == "Цвет " + color
    ensures r.originalState == if l.kind != ColorKind then Some(Saved(l)) else l.originalState
    ensures r.id == l.id && r.visible == l.visible && r.opacity == l.opacity &&
            r.blendMode == l.blendMode && r.alphaChannel == l.alphaChannel
  {
    l.(originalState := if l.kind != ColorKind then Some(Saved(l)) else l.originalState,
       kind := ColorKind, data := Some(color), preview := Some(preview), name := "Цвет " + color)
  }

  /** `handleFillColor`. */
  function FillColor(layers: seq<Layer>, layerId: string, color: string, preview: string): (r: seq<Layer>)
    ensures |r| == |layers|
    ensures forall i :: 0 <= i < |layers| ==>
      r[i] == if layers[i].id == layerId then FillLayer(layers[i], color, preview) else layers[i]
  {
    MapWhere(layers, layerId, (l: Layer) => FillLayer(l, color, preview))
  }

  /** `s.includes(sub)`. */
  predicate Contains(s: string, sub: string)
  {
    exists i :: 0 <= i <= |s| - |sub| && OccursAt(s, sub, i)
  }

  predicate OccursAt(s: string, sub: string, i: nat)
  {
    i + |sub| <= |s| && s[i..i + |sub|] == sub
  }

  /** The reset applied to one layer: the saved fields come back when there
      are any, otherwise the layer is emptied (keeping a name that mentions
      "Слой" and otherwise naming it after its id); the saved state is cleared. */
  function ResetLayer(l: Layer): (r: Layer)
    ensures r.originalState.None?
    ensures l.originalState.Some? ==> Saved(r) == l.originalState.value
    ensures l.originalState.None? ==> r.kind == EmptyKind && r.data.None? && r.preview.None? && r.alphaChannel.None?
    ensures l.originalState.None? ==> r.name == if Contains(l.name, LAYER_WORD) then l.name else LAYER_WORD + " " + l.id
    ensures r.id == l.id && r.visible == l.visible && r.opacity == l.opacity && r.blendMode == l.blendMode
  {
    var s := if l.originalState.Some? then l.originalState.value
             else SavedState(EmptyKind, None, None,
                             if Contains(l.name, LAYER_WORD) then l.name else LAYER_WORD + " " + l.id, None);
    l.(kind := s.kind, data := s.data, preview := s.preview, name := s.name, alphaChannel := s.alphaChannel,
       originalState := None)
  }

  /** `handleResetLayer`. */
  function ResetLayers(layers: seq<Layer>, layerId: string): (r: seq<Layer>)
    ensures |r| == |layers|
    ensures forall i :: 0 <= i < |layers| ==>
      r[i] == if layers[i].id == layerId then ResetLayer(layers[i]) else layers[i]
  {
    MapWhere(layers, layerId, ResetLayer)
  }

  /** Filling a layer that is not a colour layer and then resetting it gives
      back the layer, except that a saved state it held is cleared. */
  lemma FillThenReset(l: Layer, color: string, preview: string)
    requires l.kind != ColorKind
    ensures ResetLayer(FillLayer(l, color, preview)) == l.(originalState := None)
  {
  }

  /** Filling a colour layer again keeps the state saved by the first fill, so
      a reset after any number of fills goes back to the layer before them. */
  lemma RefillThenReset(l: Layer, first: string, second: string, p1: string, p2: string)
    requires l.kind != ColorKind
    ensures ResetLayer(FillLayer(FillLayer(l, first, p1), second, p2)) == l.(originalState := None)
  {
  }

  // ---------------------------------------------------------------- drag and drop

  /** The stack after `splice(from, 1)` and then `splice(to, 0, moved)`. */
  function Moved(s: seq<Layer>, from: nat, to: nat): (r: seq<Layer>)
    requires from < |s| && to < |s|
  {
    var rest := s[..from] + s[from + 1..];
    rest[..to] + [s[from]] + rest[to..]
  }

  /** A move is a permutation that puts the dragged layer at the target index
      and keeps the other layers in their order. */
  lemma MovedPermutes(s: seq<Layer>, from: nat, to: nat)
    requires from < |s| && to < |s|
    ensures |Moved(s, from, to)| == |s|
    ensures multiset(Moved(s, from, to)) == multiset(s)
    ensures Moved(s, from, to)[to] == s[from]
    ensures var r := Moved(s, from, to); r[..to] + r[to + 1..] == s[..from] + s[from + 1..]
  {
    var rest := s[..from] + s[from + 1..];
    var r := Moved(s, from, to);
    assert rest[..to] + rest[to..] == rest;
    assert s == s[..from] + [s[from]] + s[from + 1..];
    calc {
      multiset(r);
      multiset(rest[..to]) + multiset{s[from]} + multiset(rest[to..]);
      multiset(rest) + multiset{s[from]};
      multiset(s[..from]) + multiset(s[from + 1..]) + multiset{s[from]};
      multiset(s);
    }
    assert r[..to] == rest[..to];
    assert r[to + 1..] == rest[to..];
  }

  /** The two splices of `handleDrop`, in place on the copy of the stack. */
  method SpliceMove(a: array<Layer>, from: nat, to: nat)
    requires from < a.Length && to < a.Length
    modifies a
    ensures a[..] == Moved(old(a[..]), from, to)
  {
    ghost var s := a[..];
    ghost var rest := s[..from] + s[from + 1..];
    var moved := a[from];
    RemoveAt(a, from);
    assert forall k :: 0 <= k < a.Length - 1 ==> a[k] == rest[k];
    InsertAt(a, to, moved, rest);
    var r := Moved(s, from, to);
    assert r == rest[..to] + [moved] + rest[to..];
    forall k | 0 <= k < a.Length
      ensures a[k] == r[k]
    {
      if k < to {
        assert r[k] == rest[..to][k];
      } else if to < k {
        assert r[k] == rest[to..][k - to - 1];
      }
    }
    assert a[..] == r;
  }

  /** `splice(from, 1)` in place: the layers after index `from` move up by
      one; the last slot keeps its old value. */
  method RemoveAt(a: array<Layer>, from: nat)
    requires from < a.Length
    modifies a
    ensures forall k :: 0 <= k < from ==> a[k] == old(a[k])
    ensures forall k :: from <= k < a.Length - 1 ==> a[k] == old(a[k + 1])
  {
    var i := from;
    while i < a.Length - 1
      invariant from <= i <= a.Length - 1
      invariant forall k :: 0 <= k < from ==> a[k] == old(a[k])
      invariant forall k :: from <= k < i ==> a[k] == old(a[k + 1])
      invariant forall k :: i < k < a.Length ==> a[k] == old(a[k])
    {
      a[i] := a[i + 1];
      i := i + 1;
    }
  }

  /** `splice(to, 0, moved)` in place on a stack whose first `a.Length - 1`
      slots hold `rest`: the layers from `to` on move down by one and `moved`
      goes into slot `to`. */
  method InsertAt(a: array<Layer>, to: nat, moved: Layer, ghost rest: seq<Layer>)
    requires to < a.Length && |rest| == a.Length - 1
    requires forall k :: 0 <= k < a.Length - 1 ==> a[k] == rest[k]
    modifies a
    ensures a[to] == moved
    ensures forall k :: 0 <= k < to ==> a[k] == rest[k]
    ensures forall k :: to < k < a.Length ==> a[k] == rest[k - 1]
  {
    var j := a.Length - 1;
    while j > to
      invariant to <= j <= a.Length - 1
      invariant forall k :: 0 <= k < j ==> a[k] == rest[k]
      invariant forall k :: j < k < a.Length ==> a[k] == rest[k - 1]
    {
      a[j] := a[j - 1];
      j := j - 1;
    }
    a[to] := moved;
  }

  /** `handleDrop`: nothing moves when there is no dragged layer (null or the
      empty id, both falsy), when it is dropped on itself, or when either id
      is missing; otherwise the dragged layer is moved to the target's index. */
  method HandleDrop(layers: seq<Layer>, draggedLayer: Option<string>, targetLayerId: string)
    returns (newLayers: seq<Layer>)
    ensures draggedLayer.None? || draggedLayer == Some("") || draggedLayer == Some(targetLayerId) ==> newLayers == layers
    ensures draggedLayer.Some? && (FindIndex(layers, draggedLayer.value) < 0 || FindIndex(layers, targetLayerId) < 0) ==>
      newLayers == layers
    ensures draggedLayer.Some? && draggedLayer.value != "" && draggedLayer != Some(targetLayerId) &&
            FindIndex(layers, draggedLayer.value) >= 0 && FindIndex(layers, targetLayerId) >= 0 ==>
      newLayers == Moved(layers, FindIndex(layers, draggedLayer.value), FindIndex(layers, targetLayerId))
    ensures multiset(newLayers) == multiset(layers)
  {
    if draggedLayer.None? || draggedLayer.value == "" || draggedLayer == Some(targetLayerId) {
      return layers;
    }
    var draggedIndex := FindIndex(layers, draggedLayer.value);
    var targetIndex := FindIndex(layers, targetLayerId);
    if draggedIndex == -1 || targetIndex == -1 {
      return layers;
    }
    var copy := new Layer[|layers|](i requires 0 <= i < |layers| => layers[i]);
    assert copy[..] == layers;
    SpliceMove(copy, draggedIndex, targetIndex);
    newLayers := copy[..];
    MovedPermutes(layers, draggedIndex, targetIndex);
  }

  // ---------------------------------------------------------------- alpha mask

  /** The byte the mask holds at index k for source pixels `data`: the
      source alpha in the colour channels, 255 in the alpha channel. */
  function MaskByte(data: seq<byte>, k: nat): byte
    requires k < |data| && |data| % 4 == 0
  {
    if k % 4 == 3 then 255 else data[k - k % 4 + 3]
  }

  /** The two pixel loops of `extractAlphaChannel`: None when every alpha byte
      is 255, otherwise the grey mask whose pixels repeat the source alpha
      in R, G and B and are opaque. */
  method ExtractAlphaChannel(data: seq<byte>) returns (mask: Option<seq<byte>>)
    requires |data| % 4 == 0
    ensures mask.None? <==> !SomeAlphaBelow255(data)
    ensures mask.Some? ==> |mask.value| == |data| && forall k :: 0 <= k < |data| ==> mask.value[k] == MaskByte(data, k)
  {
    var hasTransparency := false;
    var i := 3;
    while i < |data|
      invariant i % 4 == 3 && 3 <= i
      invariant !hasTransparency ==> forall j :: 0 <= j < i && j < |data| && j % 4 == 3 ==> data[j] == 255
      invariant hasTransparency ==> SomeAlphaBelow255(data)
      decreases |data| - i
    {
      if data[i] < 255 {
        hasTransparency := true;
        break;
      }
      i := i + 4;
    }
    if !hasTransparency {
      return None;
    }
    var alphaData := new byte[|data|];
    var p := 0;
    while p < |data|
      invariant 0 <= p <= |data| && p % 4 == 0
      invariant forall k :: 0 <= k < p ==> alphaData[k] == MaskByte(data, k)
      decreases |data| - p
    {
      FillMaskPixel(alphaData, data, p);
      p := p + 4;
    }
    mask := Some(alphaData[..]);
  }

  /** One pass of the mask loop: pixel p / 4 gets its four bytes. */
  method FillMaskPixel(alphaData: array<byte>, data: seq<byte>, p: nat)
    requires alphaData.Length == |data| && |data| % 4 == 0 && p % 4 == 0 && p < |data|
    modifies alphaData
    ensures forall k :: 0 <= k < alphaData.Length && !(p <= k < p + 4) ==> alphaData[k] == old(alphaData[k])
    ensures forall k :: p <= k < p + 4 ==> alphaData[k] == MaskByte(data, k)
  {
    var alpha := data[p + 3];
    alphaData[p] := alpha;
    alphaData[p + 1] := alpha;
    alphaData[p + 2] := alpha;
    alphaData[p + 3] := 255;
  }
}
