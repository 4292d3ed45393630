/** The part of Fabric.js the generator drives, as a scene description: the nodes a
    canvas holds and the canvas operations the handlers call. Pixels, layout and
    event handling stay with the library. */
module Fabric {

  datatype Option<T> = None | Some(value: T)

  /** A decoded raster image has at least one pixel in each direction. */
  type Pixels = n: int | 0 < n witness 1

  /** A decoded image: the data URL it was read from and its natural size. */
  datatype Image = Image(src: string, naturalWidth: Pixels, naturalHeight: Pixels)

  /** Width and height Fabric's text layout gives a new textbox. */
  datatype Size = Size(width: real, height: real)

  /** The objects of a scene. `type` is "image" for a `Background` and "textbox" for a
      `Textbox`; a textbox carries its text and the 14 geometry and style attributes the
      generator reads or copies. Editing-only decoration (borders, corner handles, ids)
      is not part of the scene. */
  datatype SceneNode =
    | Background(image: Image, left: real, top: real, originX: string, originY: string,
                 scaleX: real, scaleY: real, selectable: bool, locked: bool)
    | Textbox(text: string, left: real, top: real, fontSize: int, fill: string,
              fontFamily: string, textAlign: string, originX: string, originY: string,
              width: real, height: real, scaleX: real, scaleY: real, padding: int,
              backgroundColor: string)

  /** An assumption about Fabric, not a derived fact: the contract only spells out the
      definition, which is what the model takes `set("text", ...)` to do.
      `obj.set("text", t)`: a textbox takes the new text; on any other node the
      property has no effect on the scene. */
  function WithText(node: SceneNode, t: string): (r: SceneNode)
    ensures r.Textbox? <==> node.Textbox?
    ensures node.Textbox? ==> r.text == t && r.(text := node.text) == node
    ensures !node.Textbox? ==> r == node
  {
    if node.Textbox? then node.(text := t) else node
  }

  /** The option literal of the handlers, restated field by field in the contract.
      The background image as every handler creates it: at (0, 0) with origin
      left/top, unscaled, not selectable, with movement, rotation and scaling locked. */
  function LockedBackground(img: Image): (node: SceneNode)
    ensures node.Background? && node.image == img
    ensures node.left == 0.0 && node.top == 0.0 && node.originX == "left" && node.originY == "top"
    ensures node.scaleX == 1.0 && node.scaleY == 1.0
    ensures !node.selectable && node.locked
  {
    Background(img, 0.0, 0.0, "left", "top", 1.0, 1.0, false, true)
  }

  /** What `canvas.toJSON()` captures and `loadFromJSON` restores: the background
      image slot and the object list, in stacking order. */
  datatype CanvasJson = CanvasJson(backgroundImage: Option<SceneNode>, objects: seq<SceneNode>)

  /** A scene as a render surface holds it. */
  datatype Scene = Scene(width: nat, height: nat, backgroundImage: Option<SceneNode>,
                         objects: seq<SceneNode>)

  /** The PNG `toDataURL` produces, identified by the scene it rasterises and the
      resolution multiplier requested. */
  datatype Png = Png(scene: Scene, multiplier: nat)

  /** A Fabric `Canvas` or `StaticCanvas`: its size, its objects bottom to top, the
      index of the active (selected) object and the separate background-image slot. */
  class Canvas {
    var width: nat
    var height: nat
    var objects: seq<SceneNode>
    var active: Option<nat>
    var backgroundImage: Option<SceneNode>

    ghost predicate Valid()
      reads this
    {
      active.Some? ==> active.value < |objects|
    }

    constructor (w: nat, h: nat)
      ensures Valid()
      ensures width == w && height == h && objects == [] && active == None
      ensures backgroundImage == None
    {
      width, height := w, h;
      objects, active, backgroundImage := [], None, None;
    }

    /** `clear()`: drops every object, the selection and the background image. */
    method Clear()
      modifies this
      ensures Valid()
      ensures width == old(width) && height == old(height)
      ensures objects == [] && active == None && backgroundImage == None
    {
      objects, active, backgroundImage := [], None, None;
    }

    /** `setWidth(w)` and `setHeight(h)`. */
    method SetDimensions(w: nat, h: nat)
      requires Valid()
      modifies this
      ensures Valid()
      ensures width == w && height == h
      ensures objects == old(objects) && active == old(active)
      ensures backgroundImage == old(backgroundImage)
    {
      width, height := w, h;
    }

    /** `add(node)`: the node goes on top. */
    method Add(node: SceneNode)
      requires Valid()
      modifies this
      ensures Valid()
      ensures objects == old(objects) + [node]
      ensures width == old(width) && height == old(height) && active == old(active)
      ensures backgroundImage == old(backgroundImage)
    {
      objects := objects + [node];
    }

    /** `sendObjectToBack(objects[i])`: that object moves to index 0, the ones below it
      move up by one, and the selection follows its object. */
    method SendObjectToBack(i: nat)
      requires Valid() && i < |objects|
      modifies this
      ensures Valid()
      ensures objects == [old(objects)[i]] + old(objects)[..i] + old(objects)[i + 1..]
      ensures active == match old(active)
                        case None => None
                        case Some(a) => Some(if a == i then 0 else if a < i then a + 1 else a)
      ensures width == old(width) && height == old(height)
      ensures backgroundImage == old(backgroundImage)
    {
      objects := [objects[i]] + objects[..i] + objects[i + 1..];
      match active
      case None =>
      case Some(a) => active := Some(if a == i then 0 else if a < i then a + 1 else a);
    }

    /** `setActiveObject(objects[i])`. */
    method SetActiveObject(i: nat)
      requires Valid() && i < |objects|
      modifies this
      ensures Valid()
      ensures active == Some(i)
      ensures objects == old(objects) && width == old(width) && height == old(height)
      ensures backgroundImage == old(backgroundImage)
    {
      active := Some(i);
    }

    /** `setBackgroundImage(img, ...)`: fills the slot drawn beneath every object. */
    method SetBackgroundImage(node: SceneNode)
      requires Valid()
      modifies this
      ensures Valid()
      ensures backgroundImage == Some(node)
      ensures objects == old(objects) && active == old(active)
      ensures width == old(width) && height == old(height)
    {
      backgroundImage := Some(node);
    }

    /** `getObjects()[i].set("text", t)`. */
    method SetText(i: nat, t: string)
      requires Valid() && i < |objects|
      modifies this
      ensures Valid()
      ensures objects == old(objects)[i := WithText(old(objects)[i], t)]
      ensures width == old(width) && height == old(height) && active == old(active)
      ensures backgroundImage == old(backgroundImage)
    {
      objects := objects[i := WithText(objects[i], t)];
    }

    /** A drag, resize or in-place edit of the textbox at `i`: any new textbox. */
    method EditTextbox(i: nat, edited: SceneNode)
      requires Valid() && i < |objects| && objects[i].Textbox? && edited.Textbox?
      modifies this
      ensures Valid()
      ensures objects == old(objects)[i := edited]
      ensures width == old(width) && height == old(height) && active == old(active)
      ensures backgroundImage == old(backgroundImage)
    {
      objects := objects[i := edited];
    }

    /** `toJSON()`. The contract is the model's assumption about what Fabric captures. */
    function ToJson(): (json: CanvasJson)
      reads this
      ensures json.objects == objects && json.backgroundImage == backgroundImage
    {
      CanvasJson(backgroundImage, objects)
    }

    /** `loadFromJSON(json)`: the canvas holds a copy of the captured scene. */
    method LoadFromJson(json: CanvasJson)
      requires Valid()
      modifies this
      ensures Valid()
      ensures objects == json.objects && backgroundImage == json.backgroundImage
      ensures active == None && width == old(width) && height == old(height)
    {
      objects, backgroundImage, active := json.objects, json.backgroundImage, None;
    }

    /** `toDataURL({ multiplier })`: the PNG of the current scene. The contract is the
        model's assumption about what Fabric exports. */
    function ToDataUrl(multiplier: nat): (png: Png)
      reads this
      ensures png.multiplier == multiplier
      ensures png.scene.width == width && png.scene.height == height
      ensures png.scene.backgroundImage == backgroundImage && png.scene.objects == objects
    {
      Png(Scene(width, height, backgroundImage, objects), multiplier)
    }
  }
}
