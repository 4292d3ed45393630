/** The batch of the v1 and v2 pages: the editing canvas is captured once with
    `toJSON`, the positions of its textboxes are collected, and every name reloads
    the capture into a temporary canvas, sets the text of each collected position to
    the trimmed name and exports the result into the archive. */
module TemplateJson {
  import opened Fabric
  import opened Text
  import opened NameList
  import opened Archive

  /** `toDataURL({ format: "png" })` leaves the multiplier at its default. */
  const DefaultMultiplier := 1

  /** `textObjectIndices` as the `forEach` leaves it: ascending, and holding exactly the
      positions whose object has type "textbox". */
  predicate IsTextPositions(objects: seq<SceneNode>, indices: seq<nat>) {
    && (forall k :: 0 <= k < |indices| ==> indices[k] < |objects| && objects[indices[k]].Textbox?)
    && (forall k, l :: 0 <= k < l < |indices| ==> indices[k] < indices[l])
    && (forall p :: 0 <= p < |objects| && objects[p].Textbox? ==> p in indices)
  }

  /** `getObjects().forEach((obj, index) => { if (obj.type === "textbox") push(index) })`. */
  method TextObjectIndices(objects: seq<SceneNode>) returns (indices: seq<nat>)
    ensures IsTextPositions(objects, indices)
  {
    indices := [];
    var index := 0;
    while index < |objects|
      invariant 0 <= index <= |objects|
      invariant forall k :: 0 <= k < |indices| ==> indices[k] < index && objects[indices[k]].Textbox?
      invariant forall k, l :: 0 <= k < l < |indices| ==> indices[k] < indices[l]
      invariant forall p :: 0 <= p < index && objects[p].Textbox? ==> p in indices
    {
      if objects[index].Textbox? {
        indices := indices + [index];
      }
      index := index + 1;
    }
  }

  /** The textbox positions are determined by the objects: any two lists meeting
      `IsTextPositions` are equal. */
  lemma {:induction false} TextPositionsUnique(objects: seq<SceneNode>, a: seq<nat>, b: seq<nat>)
    requires IsTextPositions(objects, a) && IsTextPositions(objects, b)
    ensures a == b
    decreases |objects|
  {
    if objects == [] {
      if a != [] { FirstPositionInRange(objects, a); assert false; }
      if b != [] { FirstPositionInRange(objects, b); assert false; }
    } else {
      var n := |objects| - 1;
      if objects[n].Textbox? {
        TopIsLast(objects, a);
        TopIsLast(objects, b);
        PositionsBelowTop(objects, a);
        PositionsBelowTop(objects, b);
        TextPositionsUnique(objects[..n], a[..|a| - 1], b[..|b| - 1]);
        assert a == a[..|a| - 1] + [n] && b == b[..|b| - 1] + [n];
      } else {
        PositionsWithoutTop(objects, a);
        PositionsWithoutTop(objects, b);
        TextPositionsUnique(objects[..n], a, b);
      }
    }
  }

  /** A position list that is not empty starts inside the objects. */
  lemma FirstPositionInRange(objects: seq<SceneNode>, indices: seq<nat>)
    requires IsTextPositions(objects, indices) && indices != []
    ensures indices[0] < |objects|
  {
  }

  /** A textbox on top is the last position. */
  lemma TopIsLast(objects: seq<SceneNode>, indices: seq<nat>)
    requires IsTextPositions(objects, indices)
    requires objects != [] && objects[|objects| - 1].Textbox?
    ensures indices != [] && indices[|indices| - 1] == |objects| - 1
  {
    var n := |objects| - 1;
    assert n in indices;
    var j :| 0 <= j < |indices| && indices[j] == n;
    var m := |indices| - 1;
    assert indices[m] < |objects|;
    assert indices[j] <= indices[m];
  }

  /** Dropping that last position leaves the positions of the objects below the top. */
  lemma PositionsBelowTop(objects: seq<SceneNode>, indices: seq<nat>)
    requires IsTextPositions(objects, indices)
    requires objects != [] && indices != [] && indices[|indices| - 1] == |objects| - 1
    ensures IsTextPositions(objects[..|objects| - 1], indices[..|indices| - 1])
  {
    var n, m := |objects| - 1, |indices| - 1;
    var front := indices[..m];
    forall k | 0 <= k < m ensures front[k] < n && objects[..n][front[k]].Textbox? {
      assert indices[k] < indices[m];
    }
    forall p | 0 <= p < n && objects[..n][p].Textbox? ensures p in front {
      assert objects[p].Textbox?;
      var j :| 0 <= j < |indices| && indices[j] == p;
      assert j != m;
      assert front[j] == p;
    }
  }

  /** Without a textbox on top, the same positions are those of the objects below it. */
  lemma PositionsWithoutTop(objects: seq<SceneNode>, indices: seq<nat>)
    requires IsTextPositions(objects, indices)
    requires objects != [] && !objects[|objects| - 1].Textbox?
    ensures IsTextPositions(objects[..|objects| - 1], indices)
  {
    var n := |objects| - 1;
    forall k | 0 <= k < |indices| ensures indices[k] < n && objects[..n][indices[k]].Textbox? {
      assert indices[k] != n;
    }
  }

  /** Every textbox of `objects` showing `t`; every other node as it was. */
  function SubstituteAll(objects: seq<SceneNode>, t: string): (r: seq<SceneNode>)
    ensures |r| == |objects|
    ensures forall p :: 0 <= p < |objects| ==>
              (objects[p].Textbox? ==> r[p] == objects[p].(text := t))
              && (!objects[p].Textbox? ==> r[p] == objects[p])
  {
    seq(|objects|, p requires 0 <= p < |objects| => WithText(objects[p], t))
  }

  /** `objects` after `set("text", t)` on those of `indices` that exist. */
  function SetAt(objects: seq<SceneNode>, indices: seq<nat>, t: string): (r: seq<SceneNode>)
    ensures |r| == |objects|
    ensures forall p :: 0 <= p < |objects| && p !in indices ==> r[p] == objects[p]
    ensures forall p :: 0 <= p < |objects| && p in indices && objects[p].Textbox?
              ==> r[p] == objects[p].(text := t)
    ensures forall p :: 0 <= p < |objects| && !objects[p].Textbox? ==> r[p] == objects[p]
  {
    seq(|objects|, p requires 0 <= p < |objects| =>
      if p in indices then WithText(objects[p], t) else objects[p])
  }

  /** Setting the text at the textbox positions is `SubstituteAll`. */
  lemma SetAtTextPositions(objects: seq<SceneNode>, indices: seq<nat>, t: string)
    requires IsTextPositions(objects, indices)
    ensures SetAt(objects, indices, t) == SubstituteAll(objects, t)
  {
  }

  /** `textObjectIndices.forEach((index) => { const textObj = getObjects()[index];
      if (textObj) textObj.set("text", t) })` on a temporary canvas. */
  method SetTexts(tempCanvas: Canvas, indices: seq<nat>, t: string)
    requires tempCanvas.Valid()
    modifies tempCanvas
    ensures tempCanvas.Valid()
    ensures tempCanvas.objects == SetAt(old(tempCanvas.objects), indices, t)
    ensures tempCanvas.width == old(tempCanvas.width) && tempCanvas.height == old(tempCanvas.height)
    ensures tempCanvas.backgroundImage == old(tempCanvas.backgroundImage)
    ensures tempCanvas.active == old(tempCanvas.active)
  {
    ghost var objects := tempCanvas.objects;
    for k := 0 to |indices|
      invariant tempCanvas.Valid()
      invariant tempCanvas.objects == SetAt(objects, indices[..k], t)
      invariant tempCanvas.width == old(tempCanvas.width) && tempCanvas.height == old(tempCanvas.height)
      invariant tempCanvas.backgroundImage == old(tempCanvas.backgroundImage)
      invariant tempCanvas.active == old(tempCanvas.active)
    {
      var index := indices[k];
      assert forall p :: p in indices[..k + 1] <==> p in indices[..k] || p == index by {
        assert indices[..k + 1] == indices[..k] + [index];
      }
      if index < |tempCanvas.objects| {
        tempCanvas.SetText(index, t);
      }
    }
    assert indices[..|indices|] == indices;
  }

  /** The temporary canvas of one line: the captured background slot, and the captured
      objects with every textbox showing the trimmed line. */
  function SnapshotScene(width: nat, height: nat, templateJson: CanvasJson, line: string)
    : (scene: Scene)
    ensures scene.width == width && scene.height == height
    ensures scene.backgroundImage == templateJson.backgroundImage
    ensures |scene.objects| == |templateJson.objects|
    ensures forall p :: 0 <= p < |scene.objects| ==>
              (templateJson.objects[p].Textbox? ==> scene.objects[p] == templateJson.objects[p].(text := Trim(line)))
              && (!templateJson.objects[p].Textbox? ==> scene.objects[p] == templateJson.objects[p])
  {
    Scene(width, height, templateJson.backgroundImage, SubstituteAll(templateJson.objects, Trim(line)))
  }

  /** One archive entry per line, in order. */
  function SnapshotEntries(lines: seq<string>, width: nat, height: nat, templateJson: CanvasJson)
    : (entries: seq<(string, Png)>)
    ensures |entries| == |lines|
  {
    seq(|lines|, k requires 0 <= k < |lines| =>
      (FileName(lines[k]), Png(SnapshotScene(width, height, templateJson, lines[k]), DefaultMultiplier)))
  }

  /** The `for (const name of nameList)` loop: one temporary canvas per name, reloaded
      from the capture, its textboxes set to the trimmed name, exported into the zip. */
  method RenderSnapshot(nameList: seq<string>, width: nat, height: nat, templateJson: CanvasJson,
                        textObjectIndices: seq<nat>) returns (zip: Zip)
    requires IsTextPositions(templateJson.objects, textObjectIndices)
    ensures zip == ArchiveOf(SnapshotEntries(nameList, width, height, templateJson))
  {
    ghost var entries := SnapshotEntries(nameList, width, height, templateJson);
    zip := map[];
    for i := 0 to |nameList|
      invariant zip == ArchiveOf(entries[..i])
    {
      var name := nameList[i];
      var tempCanvas := new Canvas(width, height);
      tempCanvas.LoadFromJson(templateJson);
      SetTexts(tempCanvas, textObjectIndices, Trim(name));
      SetAtTextPositions(templateJson.objects, textObjectIndices, Trim(name));
      var png := tempCanvas.ToDataUrl(DefaultMultiplier);
      assert png == entries[i].1;
      ArchiveOfPrefixStep(entries, i);
      zip := zip[FileName(name) := png];
    }
    assert entries[..|nameList|] == entries;
  }

  /** Every certificate is rendered from the capture and its own line alone: the entry
      of a line is the same in any batch, in particular the batch of that line alone, and
      the entries of a prefix of the lines are the prefix of the entries. */
  lemma SnapshotEntryIsolated(lines: seq<string>, width: nat, height: nat,
                              templateJson: CanvasJson, k: nat, i: nat)
    requires k < |lines| && i <= |lines|
    ensures SnapshotEntries(lines, width, height, templateJson)[k]
            == SnapshotEntries([lines[k]], width, height, templateJson)[0]
    ensures SnapshotEntries(lines[..i], width, height, templateJson)
            == SnapshotEntries(lines, width, height, templateJson)[..i]
  {
  }

  /** The archive's paths are exactly the file names of the lines. */
  lemma SnapshotArchivePaths(lines: seq<string>, width: nat, height: nat, templateJson: CanvasJson)
    ensures ArchiveOf(SnapshotEntries(lines, width, height, templateJson)).Keys
            == set k | 0 <= k < |lines| :: FileName(lines[k])
  {
    var entries := SnapshotEntries(lines, width, height, templateJson);
    assert forall k :: 0 <= k < |lines| ==> entries[k].0 == FileName(lines[k]);
  }

  /** The entry of a line whose file name no later line reuses is that line's scene. */
  lemma SnapshotEntryOfLine(lines: seq<string>, width: nat, height: nat, templateJson: CanvasJson,
                            k: nat)
    requires k < |lines|
    requires forall j :: k < j < |lines| ==> FileName(lines[j]) != FileName(lines[k])
    ensures var zip := ArchiveOf(SnapshotEntries(lines, width, height, templateJson));
            && FileName(lines[k]) in zip
            && zip[FileName(lines[k])] == Png(SnapshotScene(width, height, templateJson, lines[k]), 1)
  {
    LastWriterWins(SnapshotEntries(lines, width, height, templateJson), k);
  }
}
