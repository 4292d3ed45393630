# Certificate generator: the template-to-batch pipeline

This project models the core of a browser certificate generator built on Fabric.js.
A user uploads a template image and places one or more "Full Name" text fields on an
editing canvas. The user then types names, one per line. For every line that is not
blank, the generator renders the template with that name into a PNG. It packs all the
PNGs into `certificates.zip` and offers that archive for download.

The model works at the level of the scene description handed to Fabric, not pixels:

- **`Fabric`** (`fabric.dfy`): the canvas as a class. Its fields are the size, the
  ordered object list, the selection and the separate background-image slot. Its
  methods are the Fabric calls the handlers make. A scene node is a `Background`
  image or a `Textbox` with its text and its 14 copied attributes. A PNG is
  represented by the scene it rasterises and the requested multiplier.
- **`Text`** and **`NameList`** (`text.dfy`, `names.dfy`): the ECMAScript white-space
  set and `trim`, `split("\n")` with its inverse `join`, and the `filter` of blank
  lines. They also cover the file-name slug: every maximal white-space run of the
  *untrimmed* line becomes `_`, then `_certificate.png` is appended.
- **`Archive`** (`archive.dfy`): the zip as a map from path to PNG. Writing a path a
  second time replaces the earlier entry. The map holds the file entries only. For a
  path with a `/` (a line such as `AC/DC`), JSZip also adds folder entries, which the
  model leaves out, so "the archive's paths" means the file entries' paths.
- **`CanvasUtils`** and **`CertificateUtils`** (`canvas_utils.dfy`,
  `certificate_utils.dfy`): the shared utilities.
  - Upload clears the canvas, resizes it and puts the background at index 0.
  - Add-field appends a default field and selects it.
  - Generation builds one two-node scene per kept line: the background, then a clone
    of `objects[1]` showing the trimmed name. Each scene is exported at multiplier 2.
  - The loading flag is raised first and lowered on every way out.
- **`V3`** (`v3.dfy`): the inline page that uses the same policies. In this version
  `objects[0]` is read before the guards and outside the `try`. With no background at
  index 0, generation therefore throws with loading still raised. With blank names it
  returns early and saves nothing, where the utilities save an empty archive. A font
  size input that does not parse, or parses as 0, falls back to 48.
- **`V2`** (`v2.dfy`): a later upload never clears. The new image goes to index 0 and
  the earlier objects are kept, one place higher.
- **`V1`** (`v1.dfy`): the image goes to the background slot, scaled to fill the canvas.
- **`TemplateJson`** (`template_json.dfy`): the generation step V2 and V1 share. The
  canvas is captured once, its textbox positions are collected, and for each name
  every one of those textboxes shows the trimmed name.
- **`DataUrl`** (`data_url.dfy`): the v1/v2 byte copy. It takes the part of the data
  URL after the first comma (section 3 of RFC 2397) and copies char codes into an
  array. It then narrows them to bytes, losing nothing for a binary string.

Upload, add-field and generation are methods on the page or canvas classes and are
proved against specification functions: `Generate`, `Batch`, `Entries`,
`SnapshotEntries` and `ArchiveOf`. The properties the source promises are proved as
lemmas about those functions: kept lines in order, the archive's paths, each entry's
scene, and what blank input does.

## Model

| member | source | states |
|---|---|---|
| Text.Trim | utils/certificateUtils.js:44 | `trim` drops exactly the leading white-space run and a trailing all-white-space tail; the result neither starts nor ends with white space, and is empty exactly when the line is all white space |
| Text.TrimIdempotent | utils/certificateUtils.js:44 | trimming a trimmed name changes nothing |
| Text.Split | utils/certificateUtils.js:17 | `split("\n")` yields at least one piece and no piece contains the separator |
| Text.JoinSplit | utils/certificateUtils.js:17 | joining the pieces of a split with the separator restores the input |
| Text.SplitJoin | utils/certificateUtils.js:17 | splitting a join of separator-free pieces gives the pieces back |
| Text.AllWsJoin | utils/certificateUtils.js:17 | the joined text is all white space exactly when every piece is |
| NameList.TrimmedIffNonBlank | utils/certificateUtils.js:17 | the filter test `n.trim()` is truthy exactly for lines that are not all white space |
| NameList.Lines | utils/certificateUtils.js:17 | `split("\n")` gives at least one line, none holding a newline, and joining them with newlines restores the textarea |
| NameList.KeepNonBlank | utils/certificateUtils.js:17 | the filter keeps no more lines than it was given, and only non-blank ones |
| NameList.KeptSubsequence | utils/certificateUtils.js:17 | the filter adds nothing: every kept line is one of the lines given |
| NameList.KeptLines | utils/certificateUtils.js:17 | the rendered lines are no more than the textarea's lines, each non-blank and free of newlines |
| NameList.NonBlankPositions | utils/certificateUtils.js:17 | independent account of the kept lines: the ascending positions of all non-blank lines |
| NameList.KeptInOrder | utils/certificateUtils.js:17-20 | the kept lines are exactly the non-blank lines, in input order, each once |
| NameList.KeepNoneIffAllBlank | utils/certificateUtils.js:17 | nothing is kept exactly when every line is blank |
| NameList.NoKeptLinesIffBlankInput | pages/version/v3.js:118-133 | the guard `!names.trim()` holds exactly when the filter keeps no line |
| NameList.Slug | utils/certificateUtils.js:69 | `replace(/\s+/g, "_")` leaves no white space |
| NameList.SlugFixedIffNoWs | utils/certificateUtils.js:69 | the slug leaves a line unchanged exactly when it has no white space |
| NameList.SlugIdempotent | utils/certificateUtils.js:69 | slugging twice equals slugging once |
| NameList.SlugOfRun | utils/certificateUtils.js:69 | a maximal white-space run becomes a single `_` |
| NameList.SlugAtNonWs | utils/certificateUtils.js:69 | the slug splits at any non-white-space character (it works run by run) |
| NameList.SlugOfBlank | utils/certificateUtils.js:69 | a white-space-only line slugs to one `_` |
| NameList.SlugOfWordThenRun | utils/certificateUtils.js:69 | a word, a run, then the rest slugs to word + `_` + slug of the rest |
| NameList.FileName | utils/certificateUtils.js:69 | the archive path ends in `_certificate.png` and holds no white space |
| NameList.FileNameKeepsLeadingBlank | pages/version/v3.js:195 | the untrimmed line names the file: a line like `" Jane Doe"` gives `_Jane_Doe_certificate.png` |
| NameList.FileNamesCollide | utils/certificateUtils.js:69 | lines differing only in the length of an inner run (`"Jane  Smith"`, `"Jane Smith"`) share a path |
| Fabric.Canvas.constructor | utils/certificateUtils.js:21-24 | a new canvas has the given size, no objects, no selection, an empty background slot |
| Fabric.WithText | pages/version/v2.js:137 | `set("text", t)` gives a textbox the text `t` and keeps its other attributes; any other node is unchanged |
| Fabric.LockedBackground | utils/certificateUtils.js:26-41 | the background image at (0,0), origin left/top, unscaled, not selectable and locked (the same options as utils/canvasUtils.js:19-34) |
| Fabric.Canvas.ToJson | pages/version/v2.js:117 | `toJSON()` captures the object list and the background slot (also pages/version/v1.js:81) |
| Fabric.Canvas.ToDataUrl | utils/certificateUtils.js:63-67 | `toDataURL` exports the canvas's size, background slot and objects at the requested multiplier |
| Fabric.Canvas.Clear | utils/canvasUtils.js:18 | `clear()` drops every object, the selection and the background slot, keeping the size |
| Fabric.Canvas.SetDimensions | utils/canvasUtils.js:35-36 | `setWidth`/`setHeight` change the size and nothing else |
| Fabric.Canvas.Add | utils/canvasUtils.js:37 | `add` puts the node on top and changes nothing else |
| Fabric.Canvas.SendObjectToBack | utils/canvasUtils.js:38 | the object moves to index 0, those below it move up one, the selection follows its object |
| Fabric.Canvas.SetActiveObject | utils/canvasUtils.js:63 | the given object becomes the selection |
| Fabric.Canvas.SetBackgroundImage | pages/version/v1.js:42-45 | the background slot holds the image; objects and size unchanged |
| Fabric.Canvas.SetText | pages/version/v2.js:137 | `set("text", t)` changes the text of that one textbox and nothing else |
| Fabric.Canvas.EditTextbox | pages/version/v3.js:24-29 | an interactive edit replaces one textbox by another textbox |
| Fabric.Canvas.LoadFromJson | pages/version/v2.js:130-132 | the canvas holds the captured objects and background slot, with no selection, at its own size |
| CanvasUtils.NameField | utils/canvasUtils.js:46-61 | the new field is "Full Name" centred on the canvas (left·2 = width, top·2 = height, origin center/center) with the given size and colour, Arial, centred text, unscaled, with the given padding and background |
| CanvasUtils.InitCanvas | utils/canvasUtils.js:3-10 | a fresh empty 800 x 500 canvas |
| CanvasUtils.AddBackgroundImage | utils/canvasUtils.js:17-38 | after upload the objects are exactly `[background]`, at (0,0) origin left/top, unselectable and locked; the canvas has the image's natural size; no selection |
| CanvasUtils.AddTextBox | utils/canvasUtils.js:45-64 | exactly one node is appended, earlier objects unchanged; it is the default field with padding 10 and translucent white background; it becomes the selection; textboxes stay above index 0 |
| Archive.ArchiveOf | utils/certificateUtils.js:69 | the archive's paths are exactly the paths written |
| Archive.ArchiveOfPrefixStep | utils/certificateUtils.js:69 | each `zip.file` writes its entry over the archive so far |
| Archive.LastWriterWins | utils/certificateUtils.js:69 | an entry whose path no later entry reuses is kept |
| Archive.DistinctPathsKeepAll | utils/certificateUtils.js:69 | with distinct paths the archive has one entry per write |
| CertificateUtils.NameSceneShape | utils/certificateUtils.js:21-60 | each per-name scene is sized to the editing canvas, holds exactly the locked background at (0,0) then a textbox whose text is the trimmed line and whose 14 attributes are those of `objects[1]`; nothing else is carried over |
| CertificateUtils.NameScene | utils/certificateUtils.js:21-60 | one name's temporary canvas: the editing canvas's size, no background slot, the locked background then a textbox in the template field's style showing the trimmed line |
| CertificateUtils.Entries | utils/certificateUtils.js:20-69 | one archive entry per kept line, in order: slugged path, scene exported at multiplier 2 |
| CertificateUtils.Batch | utils/certificateUtils.js:20-71 | the name loop fails exactly when a name is left and there is no `objects[1]`, with `NoTextObject`; otherwise the archive's paths are exactly the lines' file names |
| CertificateUtils.Generate | utils/certificateUtils.js:8-71 | the `try` fails with `NoBackgroundObject` exactly when index 0 holds no background, and with `NoTextObject` exactly when the background is alone and some line is kept |
| CertificateUtils.Saved | utils/certificateUtils.js:73-74 | `saveAs` receives `certificates.zip` exactly when the batch succeeded, once, and nothing otherwise |
| CertificateUtils.BlankNamesStillSaveArchive | utils/certificateUtils.js:17-74 | with a background and blank names, an empty `certificates.zip` is still saved |
| CertificateUtils.ArchivePaths | utils/certificateUtils.js:17-69 | the saved archive's paths are exactly the file names of the kept lines |
| CertificateUtils.ArchiveEntryOfLine | utils/certificateUtils.js:20-69 | the entry of a kept line whose path no later line reuses is that line's two-node scene at multiplier 2; success implies a name field at index 1 |
| CertificateUtils.OneEntryPerDistinctName | utils/certificateUtils.js:69 | when no two kept lines share a path, the archive holds one certificate per kept line |
| CertificateUtils.Host.SetLoading | utils/certificateUtils.js:6 | the loading flag takes the value and the value is recorded |
| CertificateUtils.Host.SaveAs | utils/certificateUtils.js:74 | one download of the archive under the given name is recorded |
| CertificateUtils.RenderNames | utils/certificateUtils.js:20-71 | the loop yields the archive of all entries, an empty archive for no lines, or the failure of a missing `objects[1]` |
| CertificateUtils.GenerateCertificates | utils/certificateUtils.js:5-80 | loading is set true first and false on every exit, including caught errors; the archive of `Generate` is saved exactly when no error occurs |
| DataUrl.Base64Part | pages/version/v2.js:146 | `split(",")[1]` exists exactly when the data URL holds a comma (also pages/version/v1.js:111) |
| DataUrl.SplitInTwoIffSeparator | pages/version/v2.js:146 | a split has a second piece exactly when the separator occurs |
| DataUrl.PayloadOfDataUrl | pages/version/v2.js:145-146 | for a comma-free header and payload the part taken is the payload |
| DataUrl.CharCodes | pages/version/v2.js:150 | `charCodeAt(i)` gives the code of each character; all codes are below 256 exactly when the string is binary (also pages/version/v1.js:115) |
| DataUrl.Uint8Array | pages/version/v2.js:152 | `new Uint8Array` keeps each number modulo 256, and numbers already in byte range unchanged (also pages/version/v1.js:117) |
| DataUrl.ByteNumbers | pages/version/v2.js:148-151 | the array is fresh, as long as the decoded string, and element `i` is `charCodeAt(i)` (also pages/version/v1.js:113-116) |
| DataUrl.BytesOfBinaryString | pages/version/v2.js:147-152 | the bytes of a decoded binary string read back as that string: the blob holds exactly the decoded bytes |
| DataUrl.BinaryStringOfBytes | pages/version/v2.js:152 | bytes turned into a binary string and copied come back unchanged |
| TemplateJson.TextObjectIndices | pages/version/v2.js:118-123 | the collected indices are ascending and are exactly the positions whose object is a textbox (also pages/version/v1.js:82-87) |
| TemplateJson.TextPositionsUnique | pages/version/v2.js:118-123 | those positions are determined by the objects: any two such lists are equal |
| TemplateJson.SubstituteAll | pages/version/v2.js:134-139 | every textbox shows the name with its other attributes unchanged; every other node is unchanged |
| TemplateJson.SetAt | pages/version/v2.js:134-139 | setting the text at some positions changes only textboxes at those positions, each to the name, and leaves every other node as it was |
| TemplateJson.SetAtTextPositions | pages/version/v2.js:134-139 | setting the text at the collected positions is the substitution into every textbox |
| TemplateJson.SetTexts | pages/version/v2.js:134-139 | the loop sets the text at exactly the collected positions that exist; size, background slot and selection unchanged |
| TemplateJson.SnapshotEntries | pages/version/v2.js:125-155 | one archive entry per kept line, in order: slugged path, snapshot scene at the default multiplier |
| TemplateJson.SnapshotScene | pages/version/v2.js:126-139 | one name's temporary canvas: the given size, the captured background slot, and the captured objects with every textbox showing the trimmed line |
| TemplateJson.RenderSnapshot | pages/version/v2.js:125-157 | reloading the one snapshot per name and substituting yields the archive of the snapshot entries (also pages/version/v1.js:89-122) |
| TemplateJson.SnapshotEntryIsolated | pages/version/v2.js:125-155 | each name is rendered from the one capture and its own line alone: a line's entry is the same as in the batch of that line only, and a prefix of the lines gives a prefix of the entries (also pages/version/v1.js:89-120) |
| TemplateJson.SnapshotArchivePaths | pages/version/v2.js:155 | the archive's paths are exactly the file names of the kept lines |
| TemplateJson.SnapshotEntryOfLine | pages/version/v2.js:155 | the entry of a line whose path no later line reuses is that line's snapshot scene at multiplier 1 |
| V3.FontSizeFromInput | pages/version/v3.js:235 | NaN and 0 fall back to 48, any other parsed size is kept, and 0 is never stored |
| V3.GenerateExit | pages/version/v3.js:107-133 | the handler throws exactly when index 0 holds no background; it returns early exactly when the background is there and no line is kept |
| V3.BlankNamesContrast | pages/version/v3.js:118-121 | with a background and blank names, this page saves nothing and lowers loading, where the utilities save an empty archive |
| V3.NonBlankNamesAgree | pages/version/v3.js:132-210 | with a background and some name, this page saves what the utilities save and lowers loading |
| V3.LoadingSteps | pages/version/v3.js:108-209 | loading is first set true; it is last set false unless the handler threw before the `try` |
| V3.SavedBy | pages/version/v3.js:132-206 | at most one archive is offered, the batch's, exactly when the `try` ran and succeeded |
| V3.Page.constructor | pages/version/v3.js:13-21 | initial state: no names, size 48, black, no canvas, not loading |
| V3.Page.Mount | pages/version/v3.js:23-36 | the mount effect creates an empty 800 x 500 canvas with no selection and an empty background slot |
| V3.Page.SetNames | pages/version/v3.js:258 | the textarea sets the names and nothing else |
| V3.Page.SetFontSize | pages/version/v3.js:235 | the stored font size is the fallback of the parsed input, never 0 |
| V3.Page.HandleFileChange | pages/version/v3.js:38-78 | no file changes nothing; otherwise `clear()` empties the background slot and the selection, the objects are exactly `[background]` and the canvas takes the image's natural size |
| V3.Page.AddNameField | pages/version/v3.js:80-105 | nothing without a canvas; otherwise the default field with the current size and colour is appended and selected, with size and background slot unchanged |
| V3.Page.EditNameField | pages/version/v3.js:24-29 | an interactive edit of a name field keeps textboxes above index 0 |
| V3.Page.GenerateCertificates | pages/version/v3.js:107-211 | loading goes true first; it stays true if the handler throws before the `try`, and is otherwise false at the end; an archive is offered exactly when the `try` completes |
| V2.Page.constructor | pages/version/v2.js:13-18 | initial state: no names, size 48, black, no canvas |
| V2.Page.Mount | pages/version/v2.js:20-32 | the mount effect creates an empty 800 x 500 canvas |
| V2.Page.SetNames | pages/version/v2.js:203 | the textarea sets the names and nothing else |
| V2.Page.HandleFileChange | pages/version/v2.js:39-85 | upload does not clear: the objects become `[background] + earlier objects`, in order, the selection follows its object, and the canvas takes the image's natural size |
| V2.Page.AddNameField | pages/version/v2.js:87-109 | nothing without a canvas; otherwise a "Full Name" field at the centre with padding 0 and no background colour is appended and selected |
| V2.Page.EditNameField | pages/version/v2.js:21-25 | an interactive edit replaces one textbox by another |
| V2.Page.GenerateCertificates | pages/version/v2.js:111-162 | nothing with no canvas or blank names; otherwise exactly one archive is offered, that of the snapshot scenes of the kept lines; the editing canvas is unchanged |
| V1.ScaledBackground | pages/version/v1.js:40-46 | the background sits at (0,0) origin left/top and its scale times the image size equals the canvas size: it fills the canvas exactly |
| V1.EveryObjectGetsTheName | pages/version/v1.js:81-104 | with only name fields on the canvas, the collected positions are all positions and every object shows the name |
| V1.Page.constructor | pages/version/v1.js:14-18 | initial state: no names, size 48, black, no canvas |
| V1.Page.Mount | pages/version/v1.js:21-31 | Fabric adopts the 800 x 600 element, empty |
| V1.Page.SetNames | pages/version/v1.js:188 | the textarea sets the names and nothing else |
| V1.Page.HandleImageUpload | pages/version/v1.js:34-50 | nothing without a file or canvas; otherwise the background slot holds the scaled image and the objects, selection and size are unchanged |
| V1.Page.AddNameField | pages/version/v1.js:53-73 | nothing without a canvas; otherwise a "Full Name" field at the centre with padding 0 is appended and selected; the object list stays all textboxes |
| V1.Page.EditNameField | pages/version/v1.js:24-27 | an interactive edit replaces one textbox by another |
| V1.Page.GenerateCertificates | pages/version/v1.js:76-127 | nothing with no canvas or blank names; otherwise exactly one archive is offered, that of the snapshot scenes of the kept lines at the editing canvas's size with its scaled background slot |

## Left out

- React wiring is not modelled: the components under `components/`, `pages/index.js`, JSX, and the disabled state of the generate button. It is glue with no logic of its own.
- Fabric rendering is not modelled: `requestRenderAll`, `renderAll`, rasterisation, PNG encoding, and the pixel size a multiplier produces. A PNG is represented by its scene and multiplier.
- `dispose` on temporary and editing canvases is not modelled. The temporary canvases are fresh objects that nothing else refers to.
- Asynchrony is not modelled: `FileReader`, `Image.onload`, the awaited image loads and the promises. Each handler is modelled from the point the image is decoded, with its natural size given. A batch is taken to run with the editing canvas unchanged. The utilities re-read the live `textObject` and `fabricCanvas.width`/`height` on every pass, after each awaited `fetch` (utils/certificateUtils.js:21-23, :44-59, :68). So an edit made while a batch is running would change the later certificates; the model reads the objects once.
- `atob`, `fetch(...).blob()`, `Blob`, JSZip compression (`generateAsync`) and `saveAs` are foreign I/O and not modelled. The v1/v2 byte-copy loop is modelled on its own and is not wired into the archive, which maps paths to PNG scenes.
- Colours, the colour picker, `Date.now()` ids, `console.log`/`console.error` and the v2 `imageInfo` effect are not modelled. Colours are opaque strings.
- Editing-only decoration (`hasControls`, borders, corners, `evented`, `hoverCursor`, the individual lock flags) is summarised as `selectable` and `locked` on the background.
- Fabric's text layout is not modelled. The width and height a new textbox gets from it are passed in as `laidOut`.
- V2.Page.GenerateCertificates: the awaited `loadFromJSON(templateJSON, resolve)` (pages/version/v2.js:130-132) is taken to have loaded the whole snapshot before the names are set. That is the completion-callback contract of Fabric 5. In Fabric 6, whose `FabricImage` v2 imports, the second argument is a per-object reviver. `resolve` can then fire before the objects are on the canvas, so certificates would be zipped unsubstituted, and a snapshot with no objects would never resolve. The same applies to V1.Page.GenerateCertificates (pages/version/v1.js:95-97). `Fabric.Canvas.LoadFromJson` models only the completed load.
- V2.Page.GenerateCertificates: the temporary canvas size is the constructor's `tempWidth`/`tempHeight`. The handler assigns to `setWidth`/`setHeight` instead of calling them, so that size is Fabric's default, which is not part of this model.
- V1 and V2 font-size input: `parseInt` without a fallback can store NaN. Only the v3 fallback `|| 48` is modelled, with the parsed value as an optional integer and `parseInt`'s string rules left out.
- The `getRootProps`/`getInputProps` dropzone calls of v1 (pages/version/v1.js:137-140) are undefined in the component and belong to the UI; they are not modelled.
- Duplicate file names are not disambiguated. As in the code, a later line with the same path replaces the earlier archive entry.
- Canvas background colour (`#f0f0f0`) and `preserveObjectStacking` are not modelled, nor is what `clear()` does to the background colour.
- CertificateUtils.GenerateCertificates: the canvas parameter is never null. The `try` also catches the `TypeError` of a missing canvas (utils/certificateUtils.js:8), which lowers loading and saves nothing, but the only caller passes the mounted editing canvas (components/CertificateGenerator/CertificateGenerator.jsx:28, :64).
