/** The certificate archive. JSZip stores one entry per path and `zip.file(path, blob)`
    on a path already present replaces that entry, so the archive is a map from path
    to PNG built by inserting entries in order. The folder entries JSZip adds for a
    `/` inside a path are not part of this map: its keys are the file entries' paths. */
module Archive {
  import opened Fabric

  type Zip = map<string, Png>

  /** A file offered to the user by `saveAs(blob, fileName)`. */
  datatype Download = Download(fileName: string, zip: Zip)

  const ArchiveName := "certificates.zip"

  /** The archive after `zip.file(path, png)` for each entry in turn, starting empty. */
  function ArchiveOf(entries: seq<(string, Png)>): (zip: Zip)
    ensures zip.Keys == set k | 0 <= k < |entries| :: entries[k].0
  {
    if entries == [] then map[]
    else
      var n := |entries| - 1;
      var front := ArchiveOf(entries[..n]);
      assert (set k | 0 <= k < n :: entries[..n][k].0) == (set k | 0 <= k < n :: entries[k].0) by {
        forall k | 0 <= k < n ensures entries[..n][k] == entries[k] { }
      }
      assert (set k | 0 <= k < |entries| :: entries[k].0)
          == (set k | 0 <= k < n :: entries[k].0) + {entries[n].0};
      front[entries[n].0 := entries[n].1]
  }

  /** One more `zip.file` call: the archive of a longer prefix is the shorter one's
      archive with that entry written over it. */
  lemma ArchiveOfPrefixStep(entries: seq<(string, Png)>, i: nat)
    requires i < |entries|
    ensures ArchiveOf(entries[..i + 1]) == ArchiveOf(entries[..i])[entries[i].0 := entries[i].1]
  {
    assert entries[..i + 1][..i] == entries[..i];
  }

  /** An entry whose path no later entry reuses is the one the archive keeps. */
  lemma {:induction false} LastWriterWins(entries: seq<(string, Png)>, k: nat)
    requires k < |entries|
    requires forall j :: k < j < |entries| ==> entries[j].0 != entries[k].0
    ensures entries[k].0 in ArchiveOf(entries)
    ensures ArchiveOf(entries)[entries[k].0] == entries[k].1
  {
    var n := |entries| - 1;
    if k < n {
      LastWriterWins(entries[..n], k);
      assert entries[..n][k] == entries[k];
    }
  }

  /** With pairwise distinct paths nothing is replaced: one archive entry per input entry. */
  lemma {:induction false} DistinctPathsKeepAll(entries: seq<(string, Png)>)
    requires forall i, j :: 0 <= i < j < |entries| ==> entries[i].0 != entries[j].0
    ensures |ArchiveOf(entries)| == |entries|
  {
    if entries != [] {
      var n := |entries| - 1;
      var front := entries[..n];
      DistinctPathsKeepAll(front);
      assert entries[n].0 !in ArchiveOf(front);
    }
  }
}
