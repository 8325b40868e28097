/**
 * Sorting the entries of a directory walk into images, videos and audio by
 * extension: main.go's three lookup tables and the body of walk's callback.
 */
module Classify {
  import opened Text
  import opened Paths

  /** picTypes. */
  const PicTypes: map<string, bool> :=
    map["jpg" := true, "jpeg" := true, "png" := true, "gif" := true, "bmp" := true]

  /** AudioTypes: flac and wav are listed, but with false. */
  const AudioTypes: map<string, bool> := map["mp3" := true, "flac" := false, "wav" := false]

  /** videoTypes. */
  const VideoTypes: map<string, bool> :=
    map["mp4" := true, "mov" := true, "avi" := true, "wmv" := true, "mkv" := true,
        "rm" := true, "f4v" := true, "flv" := true, "swf" := true]

  /** Indexing a Go map[string]bool: a missing key reads as false. */
  function Lookup(table: map<string, bool>, key: string): (b: bool)
    ensures b <==> key in table && table[key]
  {
    if key in table then table[key] else false
  }

  /** Exactly the extensions each table admits. */
  lemma TablesAdmit(ext: string)
    ensures Lookup(PicTypes, ext) <==> ext in {"jpg", "jpeg", "png", "gif", "bmp"}
    ensures Lookup(VideoTypes, ext) <==> ext in {"mp4", "mov", "avi", "wmv", "mkv", "rm", "f4v", "flv", "swf"}
    ensures Lookup(AudioTypes, ext) <==> ext == "mp3"
  {
  }

  /** No extension is admitted by two tables. */
  lemma TablesDisjoint(ext: string)
    ensures !(Lookup(PicTypes, ext) && Lookup(VideoTypes, ext))
    ensures !(Lookup(PicTypes, ext) && Lookup(AudioTypes, ext))
    ensures !(Lookup(VideoTypes, ext) && Lookup(AudioTypes, ext))
  {
    TablesAdmit(ext);
  }

  /** flac and wav files, whatever the case of their extension, are never audio. */
  lemma FlacAndWavAreNotAudio(name: string)
    requires FileExtension(name) == "flac" || FileExtension(name) == "wav"
    ensures !Lookup(AudioTypes, FileExtension(name))
  {
  }

  /** One entry handed to walk's callback: its path, its name, and whether it is a directory. */
  datatype DirEntry = DirEntry(path: string, name: string, isDir: bool)

  /** Whether walk puts this entry's path in the list kept by `table`. */
  predicate Keeps(table: map<string, bool>, e: DirEntry)
  {
    !e.isDir && Lookup(table, FileExtension(e.name))
  }

  predicate IsImage(e: DirEntry) { Keeps(PicTypes, e) }

  predicate IsVideo(e: DirEntry) { Keeps(VideoTypes, e) }

  predicate IsAudio(e: DirEntry) { Keeps(AudioTypes, e) }

  /** The paths of the entries `keep` accepts, in walk order. */
  function Selected(entries: seq<DirEntry>, keep: DirEntry -> bool): (paths: seq<string>)
    ensures |paths| <= |entries|
  {
    if entries == [] then []
    else
      var last := entries[|entries| - 1];
      Selected(entries[..|entries| - 1], keep) + (if keep(last) then [last.path] else [])
  }

  /** A path is selected exactly when some entry with that path is accepted. */
  lemma {:induction false} SelectedMembers(entries: seq<DirEntry>, keep: DirEntry -> bool, p: string)
    ensures p in Selected(entries, keep) <==>
      exists i :: 0 <= i < |entries| && entries[i].path == p && keep(entries[i])
    decreases |entries|
  {
    if entries != [] {
      var init, last := entries[..|entries| - 1], entries[|entries| - 1];
      SelectedMembers(init, keep, p);
      if exists i :: 0 <= i < |init| && init[i].path == p && keep(init[i]) {
        var i :| 0 <= i < |init| && init[i].path == p && keep(init[i]);
        assert entries[i] == init[i];
      }
      if exists i :: 0 <= i < |entries| && entries[i].path == p && keep(entries[i]) {
        var i :| 0 <= i < |entries| && entries[i].path == p && keep(entries[i]);
        if i < |init| {
          assert init[i] == entries[i];
        }
      }
    }
  }

  /** With each path yielded once, two filters no entry passes both of select no common path. */
  lemma DisjointSelections(entries: seq<DirEntry>, keep1: DirEntry -> bool, keep2: DirEntry -> bool, p: string)
    requires forall i, j :: 0 <= i < j < |entries| ==> entries[i].path != entries[j].path
    requires forall i :: 0 <= i < |entries| ==> !(keep1(entries[i]) && keep2(entries[i]))
    ensures !(p in Selected(entries, keep1) && p in Selected(entries, keep2))
  {
    SelectedMembers(entries, keep1, p);
    SelectedMembers(entries, keep2, p);
    assert forall i, j :: 0 <= i < |entries| && 0 <= j < |entries| && entries[i].path == p && entries[j].path == p ==> i == j;
  }

  /**
   * When the walk yields each path once, no path lands in two of the three
   * lists.
   */
  lemma ListsDisjoint(entries: seq<DirEntry>, p: string)
    requires forall i, j :: 0 <= i < j < |entries| ==> entries[i].path != entries[j].path
    ensures !(p in Selected(entries, IsImage) && p in Selected(entries, IsVideo))
    ensures !(p in Selected(entries, IsImage) && p in Selected(entries, IsAudio))
    ensures !(p in Selected(entries, IsVideo) && p in Selected(entries, IsAudio))
  {
    forall i | 0 <= i < |entries|
      ensures !(IsImage(entries[i]) && IsVideo(entries[i]))
      ensures !(IsImage(entries[i]) && IsAudio(entries[i]))
      ensures !(IsVideo(entries[i]) && IsAudio(entries[i]))
    {
      EntryInOneList(entries[i]);
    }
    DisjointSelections(entries, IsImage, IsVideo, p);
    DisjointSelections(entries, IsImage, IsAudio, p);
    DisjointSelections(entries, IsVideo, IsAudio, p);
  }

  /** An entry is kept by at most one of the three lists. */
  lemma EntryInOneList(e: DirEntry)
    ensures !(IsImage(e) && IsVideo(e)) && !(IsImage(e) && IsAudio(e)) && !(IsVideo(e) && IsAudio(e))
  {
    TablesDisjoint(FileExtension(e.name));
  }

  lemma SelectedStep(entries: seq<DirEntry>, n: nat, keep: DirEntry -> bool)
    requires n < |entries|
    ensures Selected(entries[..n + 1], keep)
      == Selected(entries[..n], keep) + (if keep(entries[n]) then [entries[n].path] else [])
  {
    assert entries[..n + 1][..n] == entries[..n];
  }

  /**
   * walk's callback over every entry: directories are passed over, and each
   * file's path is appended to the list of every table that admits its
   * extension.
   */
  method Walk(entries: seq<DirEntry>) returns (images: seq<string>, videos: seq<string>, audios: seq<string>)
    ensures images == Selected(entries, IsImage)
    ensures videos == Selected(entries, IsVideo)
    ensures audios == Selected(entries, IsAudio)
  {
    images, videos, audios := [], [], [];
    var n := 0;
    while n < |entries|
      invariant n <= |entries|
      invariant images == Selected(entries[..n], IsImage)
      invariant videos == Selected(entries[..n], IsVideo)
      invariant audios == Selected(entries[..n], IsAudio)
    {
      var entry := entries[n];
      SelectedStep(entries, n, IsImage);
      SelectedStep(entries, n, IsVideo);
      SelectedStep(entries, n, IsAudio);
      if !entry.isDir {
        var ext := FileExtension(entry.name);
        if Lookup(PicTypes, ext) {
          images := images + [entry.path];
        }
        if Lookup(VideoTypes, ext) {
          videos := videos + [entry.path];
        }
        if Lookup(AudioTypes, ext) {
          audios := audios + [entry.path];
        }
      }
      n := n + 1;
    }
    assert entries[..n] == entries;
  }
}
