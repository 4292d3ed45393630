/** The third page version, `pages/version/v3.js`: the canvas-utils pipeline written
    inline in a React component. The clear-on-upload policy, the default name field and
    the per-name loop over `objects[0]` and `objects[1]` are those of the utilities;
    what differs is the order of the generation guards and the font-size fallback. */
module V3 {
  import opened Fabric
  import opened Text
  import opened NameList
  import opened Archive
  import CanvasUtils
  import CertificateUtils

  const DefaultFontSize := 48

  /** `parseInt(e.target.value) || 48`: `None` is the NaN of an unparsable input; NaN and
      0 are falsy, so both fall back to 48 and no font size of 0 is ever stored. */
  function FontSizeFromInput(parsed: Option<int>): (size: int)
    ensures size != 0
    ensures parsed.Some? && parsed.value != 0 ==> size == parsed.value
    ensures parsed.None? || parsed.value == 0 ==> size == DefaultFontSize
  {
    match parsed
    case None => DefaultFontSize
    case Some(n) => if n == 0 then DefaultFontSize else n
  }

  /** How `generateCertificates` ends on a mounted canvas. */
  datatype Exit =
    | Thrown                                  // a `TypeError` outside the `try`
    | EarlyReturn                             // the blank-input guard
    | Finished(result: CertificateUtils.Result<Zip>)  // the `try` ran to its end or its `catch`

  /** `objects[0]._element.currentSrc` is read before the guard and outside the `try`,
      so a canvas without a background at index 0 throws before anything else; then
      blank input returns early; otherwise the loop of the utilities runs. */
  function GenerateExit(names: string, width: nat, height: nat, objects: seq<SceneNode>): (exit: Exit)
    requires CanvasUtils.FieldsAboveBottom(objects)
    ensures exit.Thrown? <==> |objects| == 0 || !objects[0].Background?
    ensures exit.EarlyReturn? <==> |objects| > 0 && objects[0].Background? && KeptLines(names) == []
  {
    NoKeptLinesIffBlankInput(names);
    if |objects| == 0 || !objects[0].Background? then Thrown
    else if Trim(names) == [] then EarlyReturn
    else Finished(CertificateUtils.Batch(KeptLines(names), width, height, objects))
  }

  /** The loading values set during a run: `true` first, then `false` unless an error
      escaped before the `try`. */
  function LoadingSteps(exit: Exit): (steps: seq<bool>)
    ensures steps != [] && steps[0]
    ensures |steps| <= 2
    ensures steps[|steps| - 1] <==> exit.Thrown?
  {
    if exit.Thrown? then [true] else [true, false]
  }

  /** The archives offered for download: one exactly when the `try` completed. */
  function SavedBy(exit: Exit): (downloads: seq<Download>)
    ensures |downloads| <= 1
    ensures downloads != [] <==> exit.Finished? && exit.result.Ok?
    ensures downloads != [] ==> downloads[0] == Download(ArchiveName, exit.result.value)
  {
    if exit.Finished? then CertificateUtils.Saved(exit.result) else []
  }

  /** With a background in place and blank names, the page offers nothing, where the
      utilities function saves an empty archive. */
  lemma BlankNamesContrast(names: string, width: nat, height: nat, objects: seq<SceneNode>)
    requires CanvasUtils.FieldsAboveBottom(objects)
    requires |objects| > 0 && objects[0].Background? && Trim(names) == []
    ensures SavedBy(GenerateExit(names, width, height, objects)) == []
    ensures LoadingSteps(GenerateExit(names, width, height, objects)) == [true, false]
    ensures CertificateUtils.Saved(CertificateUtils.Generate(names, width, height, objects))
            == [Download(ArchiveName, map[])]
  {
    CertificateUtils.BlankNamesStillSaveArchive(names, width, height, objects);
  }

  /** With a background in place and some name, the page saves what the utilities
      function saves. */
  lemma NonBlankNamesAgree(names: string, width: nat, height: nat, objects: seq<SceneNode>)
    requires CanvasUtils.FieldsAboveBottom(objects)
    requires |objects| > 0 && objects[0].Background? && Trim(names) != []
    ensures SavedBy(GenerateExit(names, width, height, objects))
            == CertificateUtils.Saved(CertificateUtils.Generate(names, width, height, objects))
    ensures LoadingSteps(GenerateExit(names, width, height, objects)) == [true, false]
  {
  }

  /** The component's state: the three inputs, the `fabricCanvas` ref, the loading flag
      with the values it has been set to, and the archives offered for download. */
  class Page {
    var names: string
    var fontSize: int
    var fontColor: string
    var fabricCanvas: Canvas?
    var loading: bool
    var loadingHistory: seq<bool>
    var downloads: seq<Download>

    /** A mounted canvas keeps its selection in range and textboxes above index 0. */
    ghost predicate Valid()
      reads this, fabricCanvas
    {
      fabricCanvas != null ==>
        fabricCanvas.Valid() && CanvasUtils.FieldsAboveBottom(fabricCanvas.objects)
    }

    /** The initial state of the hooks: no names, size 48, black, no canvas yet. */
    constructor ()
      ensures Valid()
      ensures names == "" && fontSize == DefaultFontSize && fontColor == "#000000"
      ensures fabricCanvas == null && !loading && loadingHistory == [] && downloads == []
    {
      names, fontSize, fontColor := "", DefaultFontSize, "#000000";
      fabricCanvas := null;
      loading, loadingHistory, downloads := false, [], [];
    }

    /** The mount effect: an empty 800 x 500 editing canvas. */
    method Mount()
      modifies this
      ensures Valid() && fresh(fabricCanvas)
      ensures fabricCanvas.width == 800 && fabricCanvas.height == 500
      ensures fabricCanvas.objects == [] && fabricCanvas.active == None
      ensures fabricCanvas.backgroundImage == None
      ensures names == old(names) && fontSize == old(fontSize) && fontColor == old(fontColor)
      ensures loading == old(loading) && loadingHistory == old(loadingHistory)
      ensures downloads == old(downloads)
    {
      var canvas := CanvasUtils.InitCanvas();
      fabricCanvas := canvas;
    }

    /** The textarea's `onChange`. */
    method SetNames(value: string)
      modifies this
      ensures names == value && fontSize == old(fontSize) && fontColor == old(fontColor)
      ensures fabricCanvas == old(fabricCanvas) && loading == old(loading)
      ensures loadingHistory == old(loadingHistory) && downloads == old(downloads)
    {
      names := value;
    }

    /** The font-size input's `onChange`, given what `parseInt` made of the text. */
    method SetFontSize(parsed: Option<int>)
      modifies this
      ensures fontSize == FontSizeFromInput(parsed) && fontSize != 0
      ensures names == old(names) && fontColor == old(fontColor)
      ensures fabricCanvas == old(fabricCanvas) && loading == old(loading)
      ensures loadingHistory == old(loadingHistory) && downloads == old(downloads)
    {
      fontSize := FontSizeFromInput(parsed);
    }

    /** `handleFileChange` once the file is read and decoded: no file changes nothing;
      otherwise the canvas is cleared, resized to the image and holds only the locked
      background. Before mounting, `canvas.clear()` throws and nothing changes. */
    method HandleFileChange(file: Option<Image>)
      requires Valid()
      modifies fabricCanvas
      ensures Valid()
      ensures file.None? && fabricCanvas != null ==> unchanged(fabricCanvas)
      ensures file.Some? && fabricCanvas != null ==>
                && fabricCanvas.objects == [LockedBackground(file.value)]
                && fabricCanvas.width == file.value.naturalWidth
                && fabricCanvas.height == file.value.naturalHeight
                && fabricCanvas.active == None && fabricCanvas.backgroundImage == None
    {
      if file.None? || fabricCanvas == null {
        return;
      }
      CanvasUtils.AddBackgroundImage(file.value, fabricCanvas);
    }

    /** `addNameField`: nothing without a canvas; otherwise the default field of the
      utilities (padding 10, translucent white) with the current size and colour is
      appended and selected. */
    method AddNameField(laidOut: Size)
      requires Valid()
      modifies fabricCanvas
      ensures Valid()
      ensures fabricCanvas != null ==>
                && fabricCanvas.objects == old(fabricCanvas.objects)
                     + [CanvasUtils.NameField(fabricCanvas.width, fabricCanvas.height, fontSize,
                          fontColor, CanvasUtils.FieldPadding, CanvasUtils.FieldBackground, laidOut)]
                && fabricCanvas.active == Some(|old(fabricCanvas.objects)|)
                && fabricCanvas.width == old(fabricCanvas.width)
                && fabricCanvas.height == old(fabricCanvas.height)
                && fabricCanvas.backgroundImage == old(fabricCanvas.backgroundImage)
    {
      if fabricCanvas == null {
        return;
      }
      CanvasUtils.AddTextBox(fabricCanvas, fontSize, fontColor, laidOut);
      assert fabricCanvas.objects
          == fabricCanvas.objects[..|old(fabricCanvas.objects)|]
             + [fabricCanvas.objects[|old(fabricCanvas.objects)|]];
    }

    /** A drag, resize or text edit of a name field on the editing canvas. */
    method EditNameField(i: nat, edited: SceneNode)
      requires Valid() && fabricCanvas != null
      requires i < |fabricCanvas.objects| && fabricCanvas.objects[i].Textbox? && edited.Textbox?
      modifies fabricCanvas
      ensures Valid()
      ensures fabricCanvas.objects == old(fabricCanvas.objects)[i := edited]
      ensures fabricCanvas.width == old(fabricCanvas.width)
      ensures fabricCanvas.height == old(fabricCanvas.height)
      ensures fabricCanvas.backgroundImage == old(fabricCanvas.backgroundImage)
    {
      fabricCanvas.EditTextbox(i, edited);
    }

    /** `generateCertificates`. Loading is raised first; an error before the `try`
      (no canvas, or no background at index 0) leaves it raised; otherwise it is lowered
      on every way out, and the archive is offered when the loop completes. The loop is
      `CertificateUtils.RenderNames`: the extra `sendObjectToBack` of the only object on
      the temporary canvas leaves it at index 0. */
    method GenerateCertificates()
      requires Valid()
      modifies this
      ensures Valid()
      ensures names == old(names) && fontSize == old(fontSize) && fontColor == old(fontColor)
      ensures fabricCanvas == old(fabricCanvas)
      ensures fabricCanvas == null ==>
                loading && loadingHistory == old(loadingHistory) + [true]
                && downloads == old(downloads)
      ensures fabricCanvas != null ==>
                var exit := GenerateExit(names, fabricCanvas.width, fabricCanvas.height,
                                         fabricCanvas.objects);
                && loading == exit.Thrown?
                && loadingHistory == old(loadingHistory) + LoadingSteps(exit)
                && downloads == old(downloads) + SavedBy(exit)
    {
      loading, loadingHistory := true, loadingHistory + [true];
      var canvas := fabricCanvas;
      if canvas == null {
        return;
      }
      if |canvas.objects| == 0 || !canvas.objects[0].Background? {
        return;
      }
      if Trim(names) == [] {
        loading, loadingHistory := false, loadingHistory + [false];
        return;
      }
      var nameList := KeptLines(names);
      var r := CertificateUtils.RenderNames(nameList, canvas);
      if r.Ok? {
        downloads := downloads + [Download(ArchiveName, r.value)];
      }
      loading, loadingHistory := false, loadingHistory + [false];
    }
  }
}
