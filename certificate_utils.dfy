/** `generateCertificates` of `utils/certificateUtils.js`: one certificate per kept
    name line, each a fresh two-node scene (the background, then a copy of the name
    field `objects[1]` showing the trimmed name), exported at twice the canvas size
    into `certificates.zip`, with the loading flag raised for the duration. */
module CertificateUtils {
  import opened Fabric
  import opened Text
  import opened NameList
  import opened Archive
  import CanvasUtils

  /** The `TypeError`s the `try` block catches: no image object at index 0 (no
      `_element` to read), or no object at index 1 while a name is left to render. */
  datatype Failure = NoBackgroundObject | NoTextObject

  datatype Result<T> = Ok(value: T) | Err(failure: Failure)

  const ExportMultiplier := 2

  /** The field attributes the clone copies from the template field: everything but the text. */
  predicate SameStyle(t: SceneNode, field: SceneNode)
    requires t.Textbox? && field.Textbox?
  {
    && t.left == field.left && t.top == field.top
    && t.fontSize == field.fontSize && t.fill == field.fill
    && t.fontFamily == field.fontFamily && t.textAlign == field.textAlign
    && t.originX == field.originX && t.originY == field.originY
    && t.width == field.width && t.height == field.height
    && t.scaleX == field.scaleX && t.scaleY == field.scaleY
    && t.padding == field.padding && t.backgroundColor == field.backgroundColor
  }

  /** The temporary canvas of one name: sized like the editing canvas, holding the
      locked background and a new textbox with the trimmed name in the template
      field's style. */
  function NameScene(width: nat, height: nat, img: Image, field: SceneNode, line: string)
    : (scene: Scene)
    requires field.Textbox?
    ensures scene.width == width && scene.height == height && scene.backgroundImage == None
    ensures |scene.objects| == 2 && scene.objects[0] == LockedBackground(img)
    ensures scene.objects[1].Textbox? && SameStyle(scene.objects[1], field)
    ensures scene.objects[1].text == Trim(line)
  {
    Scene(width, height, None, [LockedBackground(img), field.(text := Trim(line))])
  }

  /** What every per-name scene is, whatever the template field holds. */
  lemma NameSceneShape(width: nat, height: nat, img: Image, field: SceneNode, line: string)
    requires field.Textbox?
    ensures var scene := NameScene(width, height, img, field, line);
            && scene.width == width && scene.height == height
            && scene.backgroundImage == None && |scene.objects| == 2
            && scene.objects[0] == Background(img, 0.0, 0.0, "left", "top", 1.0, 1.0, false, true)
            && scene.objects[1].Textbox? && SameStyle(scene.objects[1], field)
            && scene.objects[1].text == Trim(line)
            && (NonBlank(line) ==> scene.objects[1].text != []
                                   && !IsWs(scene.objects[1].text[0]))
  {
    TrimmedIffNonBlank(line);
  }

  /** One archive entry per line, in order: the slugged untrimmed line, and the PNG of
      that line's scene at `ExportMultiplier`. */
  function Entries(lines: seq<string>, width: nat, height: nat, img: Image, field: SceneNode)
    : (entries: seq<(string, Png)>)
    requires field.Textbox?
    ensures |entries| == |lines|
  {
    seq(|lines|, k requires 0 <= k < |lines| =>
      (FileName(lines[k]), Png(NameScene(width, height, img, field, lines[k]), ExportMultiplier)))
  }

  /** When `objects` holds a name field, the paths the entries write are the lines'
      file names. */
  lemma EntryPaths(lines: seq<string>, width: nat, height: nat, objects: seq<SceneNode>)
    requires |objects| > 0 && objects[0].Background? && CanvasUtils.FieldsAboveBottom(objects)
    ensures |objects| >= 2 ==>
              ArchiveOf(Entries(lines, width, height, objects[0].image, objects[1])).Keys
              == set k | 0 <= k < |lines| :: FileName(lines[k])
  {
    if |objects| >= 2 {
      var entries := Entries(lines, width, height, objects[0].image, objects[1]);
      assert forall k :: 0 <= k < |lines| ==> entries[k].0 == FileName(lines[k]);
      assert (set k | 0 <= k < |entries| :: entries[k].0)
          == (set k | 0 <= k < |lines| :: FileName(lines[k]));
    }
  }

  /** The outcome of the name loop over `lines` once the background is known to be in
      place: an empty archive for no lines, otherwise the failure of a missing name
      field or the archive of all entries. */
  function Batch(lines: seq<string>, width: nat, height: nat, objects: seq<SceneNode>)
    : (r: Result<Zip>)
    requires |objects| > 0 && objects[0].Background? && CanvasUtils.FieldsAboveBottom(objects)
    ensures r.Err? <==> lines != [] && |objects| < 2
    ensures r.Err? ==> r.failure == NoTextObject
    ensures r.Ok? ==> r.value.Keys == set k | 0 <= k < |lines| :: FileName(lines[k])
  {
    EntryPaths(lines, width, height, objects);
    if lines == [] then Ok(map[])
    else if |objects| < 2 then Err(NoTextObject)
    else Ok(ArchiveOf(Entries(lines, width, height, objects[0].image, objects[1])))
  }

  /** The archive the function saves, or the failure that stops it, for a canvas of the
      given size and objects. Blank input is not refused: it yields an empty archive. */
  function Generate(names: string, width: nat, height: nat, objects: seq<SceneNode>)
    : (r: Result<Zip>)
    requires CanvasUtils.FieldsAboveBottom(objects)
    ensures (r.Err? && r.failure == NoBackgroundObject) <==> |objects| == 0 || !objects[0].Background?
    ensures (r.Err? && r.failure == NoTextObject)
            <==> |objects| == 1 && objects[0].Background? && KeptLines(names) != []
  {
    if |objects| == 0 || !objects[0].Background? then Err(NoBackgroundObject)
    else Batch(KeptLines(names), width, height, objects)
  }

  /** What `saveAs` receives. */
  function Saved(r: Result<Zip>): (downloads: seq<Download>)
    ensures |downloads| <= 1
    ensures downloads != [] <==> r.Ok?
    ensures r.Ok? ==> downloads[0] == Download(ArchiveName, r.value)
  {
    match r
    case Ok(zip) => [Download(ArchiveName, zip)]
    case Err(_) => []
  }

  /** There is no blank-input guard: with a background in place and no usable name the
      archive is still built, empty, and saved. */
  lemma BlankNamesStillSaveArchive(names: string, width: nat, height: nat, objects: seq<SceneNode>)
    requires CanvasUtils.FieldsAboveBottom(objects)
    requires |objects| > 0 && objects[0].Background? && Trim(names) == []
    ensures Saved(Generate(names, width, height, objects)) == [Download(ArchiveName, map[])]
  {
    NoKeptLinesIffBlankInput(names);
  }

  /** The archive's paths are exactly the file names of the kept lines. */
  lemma ArchivePaths(names: string, width: nat, height: nat, objects: seq<SceneNode>)
    requires CanvasUtils.FieldsAboveBottom(objects)
    requires Generate(names, width, height, objects).Ok?
    ensures Generate(names, width, height, objects).value.Keys
            == set k | 0 <= k < |KeptLines(names)| :: FileName(KeptLines(names)[k])
  {
    var lines := KeptLines(names);
    if lines != [] {
      var entries := Entries(lines, width, height, objects[0].image, objects[1]);
      assert forall k :: 0 <= k < |lines| ==> entries[k].0 == FileName(lines[k]);
      assert (set k | 0 <= k < |entries| :: entries[k].0)
          == (set k | 0 <= k < |lines| :: FileName(lines[k]));
    }
  }

  /** The entry of a kept line whose file name no later line reuses is that line's
      certificate: the two-node scene with its trimmed text, exported at twice the size. */
  lemma ArchiveEntryOfLine(names: string, width: nat, height: nat, objects: seq<SceneNode>, k: nat)
    requires CanvasUtils.FieldsAboveBottom(objects)
    requires Generate(names, width, height, objects).Ok?
    requires k < |KeptLines(names)|
    requires forall j :: k < j < |KeptLines(names)| ==>
               FileName(KeptLines(names)[j]) != FileName(KeptLines(names)[k])
    ensures |objects| >= 2 && objects[1].Textbox?
    ensures var zip, line := Generate(names, width, height, objects).value, KeptLines(names)[k];
            && FileName(line) in zip
            && zip[FileName(line)]
               == Png(NameScene(width, height, objects[0].image, objects[1], line), 2)
  {
    var lines := KeptLines(names);
    LastWriterWins(Entries(lines, width, height, objects[0].image, objects[1]), k);
  }

  /** When no two kept lines slug alike, the archive holds one certificate per kept line;
      otherwise a later line replaces the earlier entry of the same name. */
  lemma OneEntryPerDistinctName(names: string, width: nat, height: nat, objects: seq<SceneNode>)
    requires CanvasUtils.FieldsAboveBottom(objects)
    requires Generate(names, width, height, objects).Ok?
    requires forall i, j :: 0 <= i < j < |KeptLines(names)| ==>
               FileName(KeptLines(names)[i]) != FileName(KeptLines(names)[j])
    ensures |Generate(names, width, height, objects).value| == |KeptLines(names)|
  {
    var lines := KeptLines(names);
    if lines != [] {
      DistinctPathsKeepAll(Entries(lines, width, height, objects[0].image, objects[1]));
    }
  }

  /** The React component behind `setLoading`, and the browser behind `saveAs`. */
  class Host {
    var loading: bool
    var loadingHistory: seq<bool>
    var downloads: seq<Download>

    constructor ()
      ensures !loading && loadingHistory == [] && downloads == []
    {
      loading, loadingHistory, downloads := false, [], [];
    }

    method SetLoading(value: bool)
      modifies this
      ensures loading == value && loadingHistory == old(loadingHistory) + [value]
      ensures downloads == old(downloads)
    {
      loading := value;
      loadingHistory := loadingHistory + [value];
    }

    method SaveAs(zip: Zip, fileName: string)
      modifies this
      ensures downloads == old(downloads) + [Download(fileName, zip)]
      ensures loading == old(loading) && loadingHistory == old(loadingHistory)
    {
      downloads := downloads + [Download(fileName, zip)];
    }
  }

  /** The `for (const name of nameList)` loop: a fresh temporary canvas per name
      holding the locked background and a clone of `objects[1]` with the trimmed name,
      exported at `ExportMultiplier` under the name's file name. */
  method RenderNames(nameList: seq<string>, fabricCanvas: Canvas) returns (r: Result<Zip>)
    requires |fabricCanvas.objects| > 0 && fabricCanvas.objects[0].Background?
    requires CanvasUtils.FieldsAboveBottom(fabricCanvas.objects)
    ensures r == Batch(nameList, fabricCanvas.width, fabricCanvas.height, fabricCanvas.objects)
  {
    var objects := fabricCanvas.objects;
    var backgroundObject := objects[0];
    var zip: Zip := map[];
    var i := 0;
    while i < |nameList|
      invariant 0 <= i <= |nameList|
      invariant i > 0 ==> |objects| >= 2
      invariant |objects| >= 2 ==> zip == ArchiveOf(Entries(nameList, fabricCanvas.width,
                  fabricCanvas.height, backgroundObject.image, objects[1])[..i])
      invariant |objects| < 2 ==> zip == map[]
    {
      var name := nameList[i];
      var tempCanvas := new Canvas(fabricCanvas.width, fabricCanvas.height);
      tempCanvas.Add(LockedBackground(backgroundObject.image));
      if |objects| < 2 {
        // `textObject.left` of the missing name field throws
        return Err(NoTextObject);
      }
      var textObject := objects[1];
      tempCanvas.Add(textObject.(text := Trim(name)));
      var png := tempCanvas.ToDataUrl(ExportMultiplier);
      ghost var entries := Entries(nameList, fabricCanvas.width, fabricCanvas.height,
                                   backgroundObject.image, textObject);
      ArchiveOfPrefixStep(entries, i);
      assert png == entries[i].1;
      zip := zip[FileName(name) := png];
      i := i + 1;
    }
    if nameList != [] {
      assert Entries(nameList, fabricCanvas.width, fabricCanvas.height, backgroundObject.image,
                     objects[1])[..i]
          == Entries(nameList, fabricCanvas.width, fabricCanvas.height, backgroundObject.image,
                     objects[1]);
    }
    return Ok(zip);
  }

  /** `generateCertificates(names, fabricCanvas, setLoading)`: loading goes true first
      and false on every way out; the archive of `Generate` is saved when it succeeds. */
  method GenerateCertificates(names: string, fabricCanvas: Canvas, host: Host)
    requires fabricCanvas.Valid() && CanvasUtils.FieldsAboveBottom(fabricCanvas.objects)
    modifies host
    ensures !host.loading
    ensures host.loadingHistory == old(host.loadingHistory) + [true, false]
    ensures host.downloads == old(host.downloads)
              + Saved(Generate(names, fabricCanvas.width, fabricCanvas.height, fabricCanvas.objects))
  {
    host.SetLoading(true);
    var objects := fabricCanvas.objects;
    if |objects| == 0 || !objects[0].Background? {
      // reading `_element.src` of a missing or non-image object throws; the catch only logs
      host.SetLoading(false);
      return;
    }
    var nameList := KeptLines(names);
    var r := RenderNames(nameList, fabricCanvas);
    if r.Ok? {
      host.SaveAs(r.value, ArchiveName);
    }
    host.SetLoading(false);
  }
}
