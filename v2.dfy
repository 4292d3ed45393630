/** The second page version, `pages/version/v2.js`: upload adds the image beneath the
    existing objects without clearing, name fields carry Fabric's default padding and
    background, and generation substitutes the name into every textbox of a snapshot
    taken once. There is no loading flag. */
module V2 {
  import opened Fabric
  import opened Text
  import opened NameList
  import opened Archive
  import CanvasUtils
  import TemplateJson

  /** The state of the component: its inputs, the `fabricCanvas` ref and the archives
      offered for download. `tempWidth` and `tempHeight` are the size Fabric gives a
      `StaticCanvas` built without options: the handler assigns the canvas size to the
      `setWidth` and `setHeight` properties instead of calling them, so the temporary
      canvas never takes the editing canvas's size. */
  class Page {
    var names: string
    var fontSize: int
    var fontColor: string
    var fabricCanvas: Canvas?
    var downloads: seq<Download>
    const tempWidth: nat
    const tempHeight: nat

    ghost predicate Valid()
      reads this, fabricCanvas
    {
      fabricCanvas != null ==> fabricCanvas.Valid()
    }

    constructor (tempWidth: nat, tempHeight: nat)
      ensures Valid()
      ensures names == "" && fontSize == 48 && fontColor == "#000000"
      ensures fabricCanvas == null && downloads == []
      ensures this.tempWidth == tempWidth && this.tempHeight == tempHeight
    {
      names, fontSize, fontColor := "", 48, "#000000";
      fabricCanvas, downloads := null, [];
      this.tempWidth, this.tempHeight := tempWidth, tempHeight;
    }

    /** The mount effect: an empty 800 x 500 editing canvas. */
    method Mount()
      modifies this
      ensures Valid() && fresh(fabricCanvas)
      ensures fabricCanvas.width == 800 && fabricCanvas.height == 500
      ensures fabricCanvas.objects == [] && fabricCanvas.active == None
      ensures fabricCanvas.backgroundImage == None
      ensures names == old(names) && fontSize == old(fontSize) && fontColor == old(fontColor)
      ensures downloads == old(downloads)
    {
      var canvas := new Canvas(800, 500);
      fabricCanvas := canvas;
    }

    method SetNames(value: string)
      modifies this
      ensures names == value && fontSize == old(fontSize) && fontColor == old(fontColor)
      ensures fabricCanvas == old(fabricCanvas) && downloads == old(downloads)
    {
      names := value;
    }

    /** `handleFileChange` once the image is decoded: the canvas takes the image's size,
      the locked image goes to index 0 and every earlier object is kept, in order, one
      place higher, the selection following its object. Before mounting, `setWidth` of
      the missing canvas throws and nothing changes. */
    method HandleFileChange(file: Option<Image>)
      requires Valid()
      modifies fabricCanvas
      ensures Valid()
      ensures file.None? && fabricCanvas != null ==> unchanged(fabricCanvas)
      ensures file.Some? && fabricCanvas != null ==>
                && fabricCanvas.objects == [LockedBackground(file.value)] + old(fabricCanvas.objects)
                && fabricCanvas.width == file.value.naturalWidth
                && fabricCanvas.height == file.value.naturalHeight
                && fabricCanvas.backgroundImage == old(fabricCanvas.backgroundImage)
                && fabricCanvas.active == match old(fabricCanvas.active)
                                          case None => None
                                          case Some(a) => Some(a + 1)
    {
      if file.None? || fabricCanvas == null {
        return;
      }
      var image := LockedBackground(file.value);
      fabricCanvas.SetDimensions(file.value.naturalWidth, file.value.naturalHeight);
      fabricCanvas.Add(image);
      var last := |fabricCanvas.objects| - 1;
      fabricCanvas.SendObjectToBack(last);
      assert fabricCanvas.objects[1..] == old(fabricCanvas.objects);
    }

    /** `addNameField`: nothing without a canvas; otherwise a "Full Name" field with the
      current size and colour, Fabric's default padding 0 and no background colour, is
      appended and selected. */
    method AddNameField(laidOut: Size)
      requires Valid()
      modifies fabricCanvas
      ensures Valid()
      ensures fabricCanvas != null ==>
                && fabricCanvas.objects == old(fabricCanvas.objects)
                     + [CanvasUtils.NameField(fabricCanvas.width, fabricCanvas.height, fontSize,
                          fontColor, 0, "", laidOut)]
                && fabricCanvas.active == Some(|old(fabricCanvas.objects)|)
                && fabricCanvas.width == old(fabricCanvas.width)
                && fabricCanvas.height == old(fabricCanvas.height)
                && fabricCanvas.backgroundImage == old(fabricCanvas.backgroundImage)
    {
      if fabricCanvas == null {
        return;
      }
      var text := CanvasUtils.NameField(fabricCanvas.width, fabricCanvas.height, fontSize,
                                        fontColor, 0, "", laidOut);
      fabricCanvas.Add(text);
      fabricCanvas.SetActiveObject(|fabricCanvas.objects| - 1);
    }

    /** A drag, resize or text edit of a name field on the editing canvas. */
    method EditNameField(i: nat, edited: SceneNode)
      requires Valid() && fabricCanvas != null
      requires i < |fabricCanvas.objects| && fabricCanvas.objects[i].Textbox? && edited.Textbox?
      modifies fabricCanvas
      ensures Valid()
      ensures fabricCanvas.objects == old(fabricCanvas.objects)[i := edited]
      ensures fabricCanvas.width == old(fabricCanvas.width)
      ensures fabricCanvas.height == old(fabricCanvas.height)
      ensures fabricCanvas.backgroundImage == old(fabricCanvas.backgroundImage)
    {
      fabricCanvas.EditTextbox(i, edited);
    }

    /** `generateCertificates`: nothing without a canvas or with blank names; otherwise
      one snapshot is taken, its textbox positions collected, and the archive of the
      snapshot scenes of the kept lines, at the temporary canvas's size, is offered. The
      editing canvas is not changed. */
    method GenerateCertificates()
      requires Valid()
      modifies this
      ensures Valid()
      ensures names == old(names) && fabricCanvas == old(fabricCanvas)
      ensures fontSize == old(fontSize) && fontColor == old(fontColor)
      ensures fabricCanvas == null || Trim(names) == [] ==> downloads == old(downloads)
      ensures fabricCanvas != null && Trim(names) != [] ==>
                downloads == old(downloads)
                  + [Download(ArchiveName, ArchiveOf(TemplateJson.SnapshotEntries(KeptLines(names),
                       tempWidth, tempHeight, fabricCanvas.ToJson())))]
    {
      var canvas := fabricCanvas;
      if canvas == null || Trim(names) == [] {
        return;
      }
      var nameList := KeptLines(names);
      var templateJson := canvas.ToJson();
      var textObjectIndices := TemplateJson.TextObjectIndices(canvas.objects);
      var zip := TemplateJson.RenderSnapshot(nameList, tempWidth, tempHeight, templateJson,
                                             textObjectIndices);
      downloads := downloads + [Download(ArchiveName, zip)];
    }
  }
}
