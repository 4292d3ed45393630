/** The editing-canvas helpers of `utils/canvasUtils.js`: create the canvas, upload a
    background (clear, resize, background at the back) and add a name field. */
module CanvasUtils {
  import opened Fabric

  /** The shape the clear-on-upload policy keeps: every object above index 0 is a
      textbox, so `objects[0]` is the background once one is uploaded and `objects[1]`
      is the first name field. */
  predicate FieldsAboveBottom(objects: seq<SceneNode>) {
    forall i :: 0 < i < |objects| ==> objects[i].Textbox?
  }

  /** A name field as `addTextBox` creates it: text "Full Name" centred on the canvas
      (origin center/center), with the chosen size and colour, Arial, centred text. */
  predicate IsNewNameField(t: SceneNode, width: nat, height: nat, fontSize: int, fill: string) {
    && t.Textbox?
    && t.text == "Full Name"
    && t.left * 2.0 == width as real && t.top * 2.0 == height as real
    && t.originX == "center" && t.originY == "center"
    && t.fontSize == fontSize && t.fill == fill
    && t.fontFamily == "Arial" && t.textAlign == "center"
    && t.scaleX == 1.0 && t.scaleY == 1.0
  }

  /** The "Full Name" textbox of every page; `padding` and `backgroundColor` are the
      values a page passes (Fabric's defaults 0 and "" where it passes none) and
      `laidOut` the box size Fabric's text layout computes. The contract restates the
      `Textbox` option literal; what it means for the pages is `IsNewNameField`. */
  function NameField(width: nat, height: nat, fontSize: int, fill: string, padding: int,
                     backgroundColor: string, laidOut: Size): (t: SceneNode)
    ensures IsNewNameField(t, width, height, fontSize, fill)
    ensures t.padding == padding && t.backgroundColor == backgroundColor
  {
    Textbox("Full Name", width as real / 2.0, height as real / 2.0, fontSize, fill,
            "Arial", "center", "center", "center", laidOut.width, laidOut.height,
            1.0, 1.0, padding, backgroundColor)
  }

  const FieldPadding := 10
  const FieldBackground := "rgba(255,255,255,0.7)"

  /** `initCanvas`: an empty 800 x 500 canvas. */
  method InitCanvas() returns (canvas: Canvas)
    ensures fresh(canvas) && canvas.Valid()
    ensures canvas.width == 800 && canvas.height == 500
    ensures canvas.objects == [] && canvas.active == None && canvas.backgroundImage == None
    ensures FieldsAboveBottom(canvas.objects)
  {
    canvas := new Canvas(800, 500);
  }

  /** `addBackgroundImage` once the image has decoded: earlier fields are gone, the
      canvas takes the image's natural size and the locked image is the only object. */
  method AddBackgroundImage(img: Image, fabricCanvas: Canvas)
    requires fabricCanvas.Valid()
    modifies fabricCanvas
    ensures fabricCanvas.Valid()
    ensures fabricCanvas.objects == [LockedBackground(img)]
    ensures fabricCanvas.width == img.naturalWidth && fabricCanvas.height == img.naturalHeight
    ensures fabricCanvas.active == None && fabricCanvas.backgroundImage == None
    ensures FieldsAboveBottom(fabricCanvas.objects)
  {
    fabricCanvas.Clear();
    var image := LockedBackground(img);
    fabricCanvas.SetDimensions(img.naturalWidth, img.naturalHeight);
    fabricCanvas.Add(image);
    fabricCanvas.SendObjectToBack(|fabricCanvas.objects| - 1);
  }

  /** `addTextBox`: one default field appended on top and selected; nothing below it
      changes. */
  method AddTextBox(canvas: Canvas, fontSize: int, fontColor: string, laidOut: Size)
    requires canvas.Valid()
    modifies canvas
    ensures canvas.Valid()
    ensures |canvas.objects| == |old(canvas.objects)| + 1
    ensures canvas.objects[..|old(canvas.objects)|] == old(canvas.objects)
    ensures canvas.objects[|old(canvas.objects)|]
            == NameField(canvas.width, canvas.height, fontSize, fontColor, FieldPadding,
                         FieldBackground, laidOut)
    ensures canvas.active == Some(|old(canvas.objects)|)
    ensures canvas.width == old(canvas.width) && canvas.height == old(canvas.height)
    ensures canvas.backgroundImage == old(canvas.backgroundImage)
    ensures FieldsAboveBottom(old(canvas.objects)) ==> FieldsAboveBottom(canvas.objects)
  {
    var text := NameField(canvas.width, canvas.height, fontSize, fontColor, FieldPadding,
                          FieldBackground, laidOut);
    canvas.Add(text);
    canvas.SetActiveObject(|canvas.objects| - 1);
  }
}
