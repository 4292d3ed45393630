/** The first page version, `pages/version/v1.js`: the template image goes into the
    canvas's separate background slot, scaled to the canvas, so the object list only
    ever holds name fields; generation substitutes the name into every textbox of a
    snapshot, on temporary canvases the size of the editing canvas. */
module V1 {
  import opened Fabric
  import opened Text
  import opened NameList
  import opened Archive
  import CanvasUtils
  import TemplateJson

  /** The `width` and `height` attributes of the `<canvas>` element Fabric adopts. */
  const CanvasWidth := 800
  const CanvasHeight := 600

  /** The object list of this version: name fields only. */
  predicate AllTextboxes(objects: seq<SceneNode>) {
    forall p :: 0 <= p < |objects| ==> objects[p].Textbox?
  }

  /** The image `setBackgroundImage` receives: at Fabric's default place (0, 0), origin
      left/top, scaled by `canvas.width / img.width` and `canvas.height / img.height`,
      so that it covers the canvas exactly. */
  function ScaledBackground(img: Image, width: nat, height: nat): (node: SceneNode)
    ensures node.Background? && node.image == img
    ensures node.left == 0.0 && node.top == 0.0 && node.originX == "left" && node.originY == "top"
    ensures node.scaleX * (img.naturalWidth as real) == width as real
    ensures node.scaleY * (img.naturalHeight as real) == height as real
  {
    Background(img, 0.0, 0.0, "left", "top",
               width as real / img.naturalWidth as real, height as real / img.naturalHeight as real,
               true, false)
  }

  /** With only name fields on the canvas, the collected positions are all positions
      and every object of a snapshot scene shows the name. */
  lemma EveryObjectGetsTheName(objects: seq<SceneNode>, indices: seq<nat>, t: string)
    requires AllTextboxes(objects) && TemplateJson.IsTextPositions(objects, indices)
    ensures indices == seq(|objects|, p requires 0 <= p < |objects| => p)
    ensures TemplateJson.SubstituteAll(objects, t)
            == seq(|objects|, p requires 0 <= p < |objects| => objects[p].(text := t))
  {
    var all := seq(|objects|, p requires 0 <= p < |objects| => p);
    forall p | 0 <= p < |objects| ensures p in all {
      assert all[p] == p;
    }
    assert TemplateJson.IsTextPositions(objects, all);
    TemplateJson.TextPositionsUnique(objects, indices, all);
  }

  /** The component's state: its inputs, the `canvas` state and the archives offered
      for download. */
  class Page {
    var names: string
    var fontSize: int
    var fontColor: string
    var canvas: Canvas?
    var downloads: seq<Download>

    ghost predicate Valid()
      reads this, canvas
    {
      canvas != null ==> canvas.Valid() && AllTextboxes(canvas.objects)
    }

    constructor ()
      ensures Valid()
      ensures names == "" && fontSize == 48 && fontColor == "#000000"
      ensures canvas == null && downloads == []
    {
      names, fontSize, fontColor := "", 48, "#000000";
      canvas, downloads := null, [];
    }

    /** The mount effect: Fabric adopts the 800 x 600 element. */
    method Mount()
      modifies this
      ensures Valid() && fresh(canvas)
      ensures canvas.width == CanvasWidth && canvas.height == CanvasHeight
      ensures canvas.objects == [] && canvas.active == None && canvas.backgroundImage == None
      ensures names == old(names) && fontSize == old(fontSize) && fontColor == old(fontColor)
      ensures downloads == old(downloads)
    {
      var fabricCanvas := new Canvas(CanvasWidth, CanvasHeight);
      canvas := fabricCanvas;
    }

    method SetNames(value: string)
      modifies this
      ensures names == value && fontSize == old(fontSize) && fontColor == old(fontColor)
      ensures canvas == old(canvas) && downloads == old(downloads)
    {
      names := value;
    }

    /** `handleImageUpload` once the image is loaded: nothing without a file or a
      canvas; otherwise the scaled image fills the background slot and the objects,
      the selection and the canvas size are left as they were. */
    method HandleImageUpload(file: Option<Image>)
      requires Valid()
      modifies canvas
      ensures Valid()
      ensures file.None? && canvas != null ==> unchanged(canvas)
      ensures file.Some? && canvas != null ==>
                && canvas.backgroundImage == Some(ScaledBackground(file.value, canvas.width, canvas.height))
                && canvas.objects == old(canvas.objects) && canvas.active == old(canvas.active)
                && canvas.width == old(canvas.width) && canvas.height == old(canvas.height)
    {
      if file.None? || canvas == null {
        return;
      }
      canvas.SetBackgroundImage(ScaledBackground(file.value, canvas.width, canvas.height));
    }

    /** `addNameField`: nothing without a canvas; otherwise a "Full Name" field with the
      current size and colour, Fabric's default padding 0 and no background colour, is
      appended and selected. */
    method AddNameField(laidOut: Size)
      requires Valid()
      modifies canvas
      ensures Valid()
      ensures canvas != null ==>
                && canvas.objects == old(canvas.objects)
                     + [CanvasUtils.NameField(canvas.width, canvas.height, fontSize, fontColor,
                                              0, "", laidOut)]
                && canvas.active == Some(|old(canvas.objects)|)
                && canvas.width == old(canvas.width) && canvas.height == old(canvas.height)
                && canvas.backgroundImage == old(canvas.backgroundImage)
    {
      if canvas == null {
        return;
      }
      var text := CanvasUtils.NameField(canvas.width, canvas.height, fontSize, fontColor, 0, "",
                                        laidOut);
      canvas.Add(text);
      canvas.SetActiveObject(|canvas.objects| - 1);
    }

    /** A drag, resize or text edit of a name field. */
    method EditNameField(i: nat, edited: SceneNode)
      requires Valid() && canvas != null
      requires i < |canvas.objects| && edited.Textbox?
      modifies canvas
      ensures Valid()
      ensures canvas.objects == old(canvas.objects)[i := edited]
      ensures canvas.width == old(canvas.width) && canvas.height == old(canvas.height)
      ensures canvas.backgroundImage == old(canvas.backgroundImage)
    {
      canvas.EditTextbox(i, edited);
    }

    /** `generateCertificates`: nothing without a canvas or with blank names; otherwise
      the archive of the snapshot scenes of the kept lines, at the editing canvas's
      size and with its scaled background slot, is offered. */
    method GenerateCertificates()
      requires Valid()
      modifies this
      ensures Valid()
      ensures names == old(names) && canvas == old(canvas)
      ensures fontSize == old(fontSize) && fontColor == old(fontColor)
      ensures canvas == null || Trim(names) == [] ==> downloads == old(downloads)
      ensures canvas != null && Trim(names) != [] ==>
                downloads == old(downloads)
                  + [Download(ArchiveName, ArchiveOf(TemplateJson.SnapshotEntries(KeptLines(names),
                       canvas.width, canvas.height, canvas.ToJson())))]
    {
      var fabricCanvas := canvas;
      if fabricCanvas == null || Trim(names) == [] {
        return;
      }
      var nameList := KeptLines(names);
      var templateJson := fabricCanvas.ToJson();
      var textObjectIndices := TemplateJson.TextObjectIndices(fabricCanvas.objects);
      var zip := TemplateJson.RenderSnapshot(nameList, fabricCanvas.width, fabricCanvas.height,
                                             templateJson, textObjectIndices);
      downloads := downloads + [Download(ArchiveName, zip)];
    }
  }
}
