/** What `src/drive_access.rs` promises, proved about the functions of
    `DriveAccess`: the relative-path display round-trips, the listing is the
    order-preserving selection of readable visible entries and agrees with
    the tree, the search hides only by the final name, and saving uploads
    reports every named upload once while only adding files. */
module DriveAccessLemmas {
  import opened Common
  import opened Paths
  import opened Platform
  import opened DriveAccess

  // ---------------------------------------------------------------------
  // relative_path and the parent display

  lemma SuffixWellFormed(p: Path, k: nat)
    requires WellFormed(p) && k <= |p|
    ensures WellFormed(p[k..])
  {
    var s := p[k..];
    forall i | 0 <= i < |s|
      ensures (s[i] == RootDir ==> i == 0) && (s[i] == CurDir ==> i == 0) && (s[i].Normal? ==> ValidName(s[i].name))
    {
      assert s[i] == p[k + i];
    }
  }

  lemma RenderEmpty(p: Path)
    requires WellFormed(p)
    ensures Render(p) == "" <==> p == []
  {
    if p != [] && !IsAbsolute(p) {
      assert Texts(p)[0] == ComponentText(p[0]);
      GlueFirst(Texts(p));
    }
  }

  /** The relative path shown for `p` gives `p` back when appended to the
      base, and it is empty exactly at the base itself. */
  lemma RelativePathRoundTrip(p: Path, base: Path, s: string)
    requires WellFormed(p)
    requires RelativePath(p, base) == Ok(s)
    ensures p == base + Parse(if s == "" then "" else s[1..])
    ensures s == "" <==> p == base
  {
    var rest := p[|base|..];
    SuffixWellFormed(p, |base|);
    RenderEmpty(rest);
    ParseRender(rest);
    assert p == base + rest;
    if s != "" {
      assert s[1..] == Render(rest);
    }
  }

  /** At the base there is no parent to show. */
  lemma ParentDisplayAtBase(base: Path)
    ensures ParentDisplay(base, base) == None
  {
  }

  /** One level below the base, the parent shows as the empty path. */
  lemma ParentDisplayOneBelow(base: Path, n: string)
    ensures ParentDisplay(base + [Normal(n)], base) == Some("")
  {
    assert (base + [Normal(n)])[..|base|] == base;
  }

  /** Deeper down, the parent shows as its own relative path. */
  lemma ParentDisplayBelow(dir: Path, base: Path)
    requires WellFormed(dir) && |base| > 0
    requires StartsWith(dir, base) && |dir| > |base|
    ensures ParentDisplay(dir, base) == Some(RelativePath(dir[..|dir| - 1], base).value)
  {
    assert dir[|dir| - 1] != RootDir;
    assert dir[..|dir| - 1][..|base|] == dir[..|base|];
  }

  /** With the base at `/data`, `/data/x/y` is shown as `/x/y` with parent
      `/x`, and `/data` itself as `""` with no parent. */
  lemma DisplayExample()
    ensures RelativePath([RootDir, Normal("data"), Normal("x"), Normal("y")], [RootDir, Normal("data")]) == Ok("/x/y")
    ensures ParentDisplay([RootDir, Normal("data"), Normal("x"), Normal("y")], [RootDir, Normal("data")]) == Some("/x")
    ensures RelativePath([RootDir, Normal("data")], [RootDir, Normal("data")]) == Ok("")
    ensures ParentDisplay([RootDir, Normal("data")], [RootDir, Normal("data")]) == None
  {
    var base := [RootDir, Normal("data")];
    var dir := [RootDir, Normal("data"), Normal("x"), Normal("y")];
    assert dir[..|base|] == base;
    var rest: Path := [Normal("x"), Normal("y")];
    assert dir[|base|..] == rest;
    assert Texts(rest[1..]) == ["y"];
    assert Texts(rest) == ["x", "y"];
    assert Glue(["x", "y"]) == "x" + "/" + Glue(["y"]);
    assert Render(rest) == "x/y";
    assert "/" + "x/y" == "/x/y";
    var up: Path := [RootDir, Normal("data"), Normal("x")];
    assert dir[..|dir| - 1] == up;
    assert Parent(dir) == Some(up);
    assert up[..|base|] == base;
    assert up[|base|..] == [Normal("x")];
    assert Texts([Normal("x")]) == ["x"];
    assert Render([Normal("x")]) == "x";
    assert "/" + "x" == "/x";
  }

  // ---------------------------------------------------------------------
  // list_files: an order-preserving selection

  /** The entries `list_files` keeps: those that were read, and whose name
      does not start with a dot. */
  predicate Keep(e: RawEntry)
  {
    e.Readable? && !IsHidden(e.name)
  }

  /** The positions of the kept entries, in increasing order. */
  function Kept(en: seq<RawEntry>): (idx: seq<nat>)
    ensures forall k :: 0 <= k < |idx| ==> idx[k] < |en|
    decreases |en|
  {
    if en == [] then []
    else Kept(en[..|en| - 1]) + (if Keep(en[|en| - 1]) then [|en| - 1] else [])
  }

  lemma VisibleSnoc(files: seq<FileInfo>, f: FileInfo)
    ensures Visible(files + [f]) == Visible(files) + (if IsHidden(f.name) then [] else [f])
  {
    assert (files + [f])[..|files|] == files;
  }

  /** Appending one enumeration item appends its `FileInfo` exactly when the
      item is kept. */
  lemma ListingSnoc(fs: FileSystem, dir: Path, en: seq<RawEntry>)
    requires en != []
    ensures Visible(EntryInfos(fs, dir, en)) ==
            Visible(EntryInfos(fs, dir, en[..|en| - 1])) +
            (if Keep(en[|en| - 1]) then [EntryInfo(fs, dir, en[|en| - 1])] else [])
  {
    var init := en[..|en| - 1];
    var last := en[|en| - 1];
    if last.Readable? {
      VisibleSnoc(EntryInfos(fs, dir, init), EntryInfo(fs, dir, last));
    } else {
      assert EntryInfos(fs, dir, en) == EntryInfos(fs, dir, init) + [];
      assert EntryInfos(fs, dir, init) + [] == EntryInfos(fs, dir, init);
    }
  }

  lemma KeptSnoc(en: seq<RawEntry>)
    requires en != []
    ensures Kept(en) == Kept(en[..|en| - 1]) + (if Keep(en[|en| - 1]) then [|en| - 1] else [])
  {
  }

  /** The kept positions increase. */
  lemma {:induction false} KeptIncreasing(en: seq<RawEntry>)
    ensures forall k, l :: 0 <= k < l < |Kept(en)| ==> Kept(en)[k] < Kept(en)[l]
    decreases |en|
  {
    if en != [] {
      var init := en[..|en| - 1];
      KeptIncreasing(init);
      KeptSnoc(en);
      var ia := Kept(init);
      var ib := Kept(en);
      forall k, l | 0 <= k < l < |ib|
        ensures ib[k] < ib[l]
      {
        if l < |ia| {
          assert ib[k] == ia[k] && ib[l] == ia[l];
        } else {
          assert ib[k] == ia[k] && ia[k] < |init|;
        }
      }
    }
  }

  /** Every kept entry's position is among the kept positions. */
  lemma {:induction false} KeptComplete(en: seq<RawEntry>)
    ensures forall i :: 0 <= i < |en| && Keep(en[i]) ==> i in Kept(en)
    decreases |en|
  {
    if en != [] {
      var n := |en|;
      var init := en[..n - 1];
      KeptComplete(init);
      KeptSnoc(en);
      var ia := Kept(init);
      var ib := Kept(en);
      forall i | 0 <= i < n && Keep(en[i])
        ensures i in ib
      {
        if i < n - 1 {
          assert en[i] == init[i];
          assert i in ia;
        } else {
          assert ib[|ib| - 1] == n - 1;
        }
      }
    }
  }

  /** The listing holds one `FileInfo` per kept position, in the same order. */
  lemma {:induction false} ListingPointwise(fs: FileSystem, dir: Path, en: seq<RawEntry>)
    ensures |Visible(EntryInfos(fs, dir, en))| == |Kept(en)|
    ensures forall k :: 0 <= k < |Kept(en)| ==>
              Keep(en[Kept(en)[k]]) && Visible(EntryInfos(fs, dir, en))[k] == EntryInfo(fs, dir, en[Kept(en)[k]])
    decreases |en|
  {
    if en != [] {
      var n := |en|;
      var init := en[..n - 1];
      var last := en[n - 1];
      ListingPointwise(fs, dir, init);
      ListingSnoc(fs, dir, en);
      KeptSnoc(en);
      var a := Visible(EntryInfos(fs, dir, init));
      var ia := Kept(init);
      var b := Visible(EntryInfos(fs, dir, en));
      var ib := Kept(en);
      forall k | 0 <= k < |ib|
        ensures Keep(en[ib[k]]) && b[k] == EntryInfo(fs, dir, en[ib[k]])
      {
        if k < |ia| {
          assert ib[k] == ia[k] && b[k] == a[k] && en[ia[k]] == init[ia[k]];
        }
      }
    }
  }

  /** The listing is exactly the kept entries, in enumeration order, each
      turned into its `FileInfo`: no sorting, no reordering, nothing else. */
  lemma ListingSelection(fs: FileSystem, dir: Path, en: seq<RawEntry>)
    ensures |Visible(EntryInfos(fs, dir, en))| == |Kept(en)|
    ensures forall k :: 0 <= k < |Kept(en)| ==>
              Keep(en[Kept(en)[k]]) && Visible(EntryInfos(fs, dir, en))[k] == EntryInfo(fs, dir, en[Kept(en)[k]])
    ensures forall k, l :: 0 <= k < l < |Kept(en)| ==> Kept(en)[k] < Kept(en)[l]
    ensures forall i :: 0 <= i < |en| && Keep(en[i]) ==> i in Kept(en)
  {
    ListingPointwise(fs, dir, en);
    KeptIncreasing(en);
    KeptComplete(en);
  }

  /** The files of a successful listing. */
  function Listed(fs: FileSystem, os: Os, dir: Path, base: Path): (files: seq<FileInfo>)
    requires ListFiles(fs, os, dir, base).Ok?
    ensures files == Visible(EntryInfos(fs, dir, os.order(fs, dir)))
  {
    ListFiles(fs, os, dir, base).value.files
  }

  /** With a faithful enumeration whose items all read, a name is listed
      exactly when it is a visible entry of the directory. */
  lemma ListingMatchesTree(fs: FileSystem, os: Os, dir: Path, base: Path, n: string)
    requires ListFiles(fs, os, dir, base).Ok?
    requires Enumerates(fs, dir, os.order(fs, dir)) && AllReadable(os.order(fs, dir))
    ensures (exists k :: 0 <= k < |ListFiles(fs, os, dir, base).value.files| &&
               ListFiles(fs, os, dir, base).value.files[k].name == n)
            <==> fs.HasChild(dir, n) && !IsHidden(n)
  {
    var en := os.order(fs, dir);
    var files := Listed(fs, os, dir, base);
    ListingPointwise(fs, dir, en);
    KeptComplete(en);
    var idx := Kept(en);
    if fs.HasChild(dir, n) && !IsHidden(n) {
      var i :| 0 <= i < |en| && en[i].name == n;
      assert Keep(en[i]);
      var k :| 0 <= k < |idx| && idx[k] == i;
      assert files[k].name == n;
    }
    if exists k :: 0 <= k < |files| && files[k].name == n {
      var k :| 0 <= k < |files| && files[k].name == n;
      assert files[k] == EntryInfo(fs, dir, en[idx[k]]);
      assert fs.HasChild(dir, en[idx[k]].name);
    }
  }

  /** Whatever the enumeration's failures, a listed directory is one, and a
      listed entry that is a file carries the classification of its bytes. */
  lemma ListingTruthful(fs: FileSystem, os: Os, dir: Path, base: Path)
    requires ListFiles(fs, os, dir, base).Ok?
    requires Enumerates(fs, dir, os.order(fs, dir))
    ensures forall k :: 0 <= k < |ListFiles(fs, os, dir, base).value.files| ==>
              var f := ListFiles(fs, os, dir, base).value.files[k];
              && (f.isDir ==> fs.IsDirAt(dir + [Normal(f.name)]))
              && (fs.IsFileAt(dir + [Normal(f.name)]) ==>
                    f == FileInfo(f.name, false, Some(Classify(fs.SniffAt(EntryPath(dir, f.name))))))
  {
    var en := os.order(fs, dir);
    var files := Listed(fs, os, dir, base);
    ListingPointwise(fs, dir, en);
    forall k | 0 <= k < |files|
      ensures files[k].isDir ==> fs.IsDirAt(dir + [Normal(files[k].name)])
      ensures fs.IsFileAt(dir + [Normal(files[k].name)]) ==>
                files[k] == FileInfo(files[k].name, false, Some(Classify(fs.SniffAt(EntryPath(dir, files[k].name)))))
    {
      assert files[k] == EntryInfo(fs, dir, en[Kept(en)[k]]);
    }
  }

  /** Whatever the enumeration, a name that is not an entry of the directory
      is never listed (entries that vanished are not invented). */
  lemma ListingOnlyChildren(fs: FileSystem, os: Os, dir: Path, base: Path)
    requires ListFiles(fs, os, dir, base).Ok?
    requires Enumerates(fs, dir, os.order(fs, dir))
    ensures forall k :: 0 <= k < |ListFiles(fs, os, dir, base).value.files| ==>
              fs.HasChild(dir, ListFiles(fs, os, dir, base).value.files[k].name)
  {
    var en := os.order(fs, dir);
    var files := Listed(fs, os, dir, base);
    ListingPointwise(fs, dir, en);
    forall k | 0 <= k < |files| ensures fs.HasChild(dir, files[k].name) {
      assert files[k] == EntryInfo(fs, dir, en[Kept(en)[k]]);
    }
  }

  /** An entry whose content cannot be sniffed is still listed, as the
      default file type. */
  lemma UnsniffableListedAsDefault(fs: FileSystem, dir: Path, e: RawEntry)
    requires e.Readable? && e.fileType != Some(true)
    requires fs.SniffAt(EntryPath(dir, e.name)).None?
    ensures EntryInfo(fs, dir, e).fileType == Some(DefaultFileType())
  {
  }

  // ---------------------------------------------------------------------
  // query_files

  predicate KeepMatch(p: Option<Path>)
  {
    p.Some? && FileName(p.value).Some? && !IsHidden(FileName(p.value).value)
  }

  function KeptMatches(paths: seq<Option<Path>>): (idx: seq<nat>)
    ensures forall k :: 0 <= k < |idx| ==> idx[k] < |paths|
    decreases |paths|
  {
    if paths == [] then []
    else KeptMatches(paths[..|paths| - 1]) + (if KeepMatch(paths[|paths| - 1]) then [|paths| - 1] else [])
  }

  lemma NamedMatchesPrefix(paths: seq<Option<Path>>, n: nat)
    requires NamedMatches(paths) && n <= |paths|
    ensures NamedMatches(paths[..n])
  {
    assert forall i :: 0 <= i < n ==> paths[..n][i] == paths[i];
  }

  /** Appending one yielded item appends its `FileInfo` exactly when the item
      is kept. */
  lemma SearchSnoc(fs: FileSystem, paths: seq<Option<Path>>)
    requires paths != [] && NamedMatches(paths)
    ensures NamedMatches(paths[..|paths| - 1])
    ensures Visible(MatchInfos(fs, paths)) ==
            Visible(MatchInfos(fs, paths[..|paths| - 1])) +
            (if KeepMatch(paths[|paths| - 1]) then [MatchInfo(fs, paths[|paths| - 1].value)] else [])
  {
    var init := paths[..|paths| - 1];
    var last := paths[|paths| - 1];
    NamedMatchesPrefix(paths, |paths| - 1);
    if last.Some? {
      VisibleSnoc(MatchInfos(fs, init), MatchInfo(fs, last.value));
    } else {
      assert MatchInfos(fs, paths) == MatchInfos(fs, init) + [];
      assert MatchInfos(fs, init) + [] == MatchInfos(fs, init);
    }
  }

  lemma KeptMatchesSnoc(paths: seq<Option<Path>>)
    requires paths != []
    ensures KeptMatches(paths) == KeptMatches(paths[..|paths| - 1]) + (if KeepMatch(paths[|paths| - 1]) then [|paths| - 1] else [])
  {
  }

  lemma {:induction false} KeptMatchesIncreasing(paths: seq<Option<Path>>)
    ensures forall k, l :: 0 <= k < l < |KeptMatches(paths)| ==> KeptMatches(paths)[k] < KeptMatches(paths)[l]
    decreases |paths|
  {
    if paths != [] {
      var init := paths[..|paths| - 1];
      KeptMatchesIncreasing(init);
      KeptMatchesSnoc(paths);
      var ia := KeptMatches(init);
      var ib := KeptMatches(paths);
      forall k, l | 0 <= k < l < |ib|
        ensures ib[k] < ib[l]
      {
        if l < |ia| {
          assert ib[k] == ia[k] && ib[l] == ia[l];
        } else {
          assert ib[k] == ia[k] && ia[k] < |init|;
        }
      }
    }
  }

  lemma {:induction false} KeptMatchesComplete(paths: seq<Option<Path>>)
    ensures forall i :: 0 <= i < |paths| && KeepMatch(paths[i]) ==> i in KeptMatches(paths)
    decreases |paths|
  {
    if paths != [] {
      var n := |paths|;
      var init := paths[..n - 1];
      KeptMatchesComplete(init);
      KeptMatchesSnoc(paths);
      var ia := KeptMatches(init);
      var ib := KeptMatches(paths);
      forall i | 0 <= i < n && KeepMatch(paths[i])
        ensures i in ib
      {
        if i < n - 1 {
          assert paths[i] == init[i];
          assert i in ia;
        } else {
          assert ib[|ib| - 1] == n - 1;
        }
      }
    }
  }

  /** `infos` are the `FileInfo`s of the matches at positions `idx`, each of
      them kept. */
  predicate PicksMatches(fs: FileSystem, paths: seq<Option<Path>>, infos: seq<FileInfo>, idx: seq<nat>)
  {
    && |infos| == |idx|
    && forall k :: 0 <= k < |idx| ==>
         idx[k] < |paths| && KeepMatch(paths[idx[k]]) && infos[k] == MatchInfo(fs, paths[idx[k]].value)
  }

  lemma PicksMatchesSnoc(fs: FileSystem, init: seq<Option<Path>>, last: Option<Path>,
                         infos: seq<FileInfo>, idx: seq<nat>)
    requires PicksMatches(fs, init, infos, idx)
    ensures PicksMatches(fs, init + [last],
                         infos + (if KeepMatch(last) then [MatchInfo(fs, last.value)] else []),
                         idx + (if KeepMatch(last) then [|init|] else []))
  {
    var paths := init + [last];
    var b := infos + (if KeepMatch(last) then [MatchInfo(fs, last.value)] else []);
    var ib := idx + (if KeepMatch(last) then [|init|] else []);
    forall k | 0 <= k < |ib|
      ensures ib[k] < |paths| && KeepMatch(paths[ib[k]]) && b[k] == MatchInfo(fs, paths[ib[k]].value)
    {
      if k < |idx| {
        assert ib[k] == idx[k] && b[k] == infos[k];
        assert paths[idx[k]] == init[idx[k]];
      } else {
        assert ib[k] == |init| && paths[|init|] == last;
      }
    }
  }

  lemma {:induction false} SearchPointwise(fs: FileSystem, paths: seq<Option<Path>>)
    requires NamedMatches(paths)
    ensures PicksMatches(fs, paths, Visible(MatchInfos(fs, paths)), KeptMatches(paths))
    decreases |paths|
  {
    if paths != [] {
      var n := |paths|;
      var init := paths[..n - 1];
      var last := paths[n - 1];
      SearchSnoc(fs, paths);
      KeptMatchesSnoc(paths);
      SearchPointwise(fs, init);
      PicksMatchesSnoc(fs, init, last, Visible(MatchInfos(fs, init)), KeptMatches(init));
      assert init + [last] == paths;
    }
  }

  /** The search result is exactly the yielded paths whose own last name is
      not hidden, in the order the walk yields them. */
  lemma SearchSelection(fs: FileSystem, paths: seq<Option<Path>>)
    requires NamedMatches(paths)
    ensures |Visible(MatchInfos(fs, paths))| == |KeptMatches(paths)|
    ensures forall k :: 0 <= k < |KeptMatches(paths)| ==>
              KeepMatch(paths[KeptMatches(paths)[k]]) &&
              Visible(MatchInfos(fs, paths))[k] == MatchInfo(fs, paths[KeptMatches(paths)[k]].value)
    ensures forall k, l :: 0 <= k < l < |KeptMatches(paths)| ==> KeptMatches(paths)[k] < KeptMatches(paths)[l]
    ensures forall i :: 0 <= i < |paths| && KeepMatch(paths[i]) ==> i in KeptMatches(paths)
  {
    SearchPointwise(fs, paths);
    KeptMatchesIncreasing(paths);
    KeptMatchesComplete(paths);
  }

  /** Only a match's own name is checked: a file inside a hidden directory
      is still found. */
  lemma HiddenDirectoryContentsFound(fs: FileSystem)
    ensures var p := [RootDir, Normal("data"), Normal(".git"), Normal("config")];
            Visible(MatchInfos(fs, [Some(p)])) == [MatchInfo(fs, p)]
  {
    var p := [RootDir, Normal("data"), Normal(".git"), Normal("config")];
    var f := MatchInfo(fs, p);
    assert FileName(p) == Some("config");
    assert f.name == "config" && !IsHidden(f.name);
    assert [Some(p)][..0] == [];
    assert MatchInfos(fs, []) == [];
    assert MatchInfos(fs, [Some(p)]) == MatchInfos(fs, []) + [f];
    assert MatchInfos(fs, [Some(p)]) == [] + [f];
    VisibleSnoc([], f);
    assert Visible([]) == [];
  }

  // ---------------------------------------------------------------------
  // save_files

  lemma SavedNamesSnoc(rs: seq<Saved>, s: Saved)
    ensures SavedNames(rs + [s]) == SavedNames(rs) + [s.name]
  {
  }

  /** One report per named upload, carrying its name, in upload order; a
      failure does not stop the uploads after it. */
  lemma {:induction false} SaveAllReportsEveryNamedUpload(fs: FileSystem, files: seq<TempFile>, dir: Path)
    ensures SavedNames(SaveAll(fs, files, dir).1) == UploadNames(files)
    decreases |files|
  {
    if files != [] {
      SaveAllReportsEveryNamedUpload(fs, files[..|files| - 1], dir);
      var f := files[|files| - 1];
      if f.fileName.Some? {
        var before := SaveAll(fs, files[..|files| - 1], dir);
        var step := PersistUpload(before.0, UploadTarget(dir, f.fileName.value), f.format);
        SavedNamesSnoc(before.1, Saved(f.fileName.value, step.1));
      }
    }
  }

  /** `b` keeps everything `a` had: the same denied paths, every node, and
      every directory as a directory. */
  predicate Grows(a: FileSystem, b: FileSystem)
  {
    a.denied == b.denied &&
    forall q :: q in a.nodes ==> q in b.nodes && (a.nodes[q].Dir? ==> b.nodes[q].Dir?)
  }

  /** Every upload reported saved is a file of `after`. */
  predicate SavedAreFiles(after: FileSystem, rs: seq<Saved>, dir: Path)
  {
    forall k :: 0 <= k < |rs| && rs[k].result.Ok? ==> after.IsFileAt(UploadTarget(dir, rs[k].name))
  }

  /** Every node of `after` that `before` lacked is where an upload reported
      saved went. */
  predicate NewNodesSaved(before: FileSystem, after: FileSystem, rs: seq<Saved>, dir: Path)
  {
    forall q :: q in after.nodes && q !in before.nodes ==>
      exists k :: 0 <= k < |rs| && rs[k].result.Ok? && Resolve(UploadTarget(dir, rs[k].name)) == q
  }

  /** Saving never removes a node, never turns a directory into a file and
      never changes what is denied. */
  lemma {:induction false} SaveAllGrows(fs: FileSystem, files: seq<TempFile>, dir: Path)
    ensures Grows(fs, SaveAll(fs, files, dir).0)
    decreases |files|
  {
    if files != [] {
      var init := files[..|files| - 1];
      SaveAllGrows(fs, init, dir);
      var before := SaveAll(fs, init, dir);
      var f := files[|files| - 1];
      if f.fileName.Some? {
        var step := PersistUpload(before.0, UploadTarget(dir, f.fileName.value), f.format);
        assert SaveAll(fs, files, dir).0 == step.0;
        assert Grows(before.0, step.0);
      }
    }
  }

  /** Every upload reported saved is a file once saving is over, even when a
      later upload went to the same place. */
  lemma {:induction false} SaveAllSavedAreFiles(fs: FileSystem, files: seq<TempFile>, dir: Path)
    ensures SavedAreFiles(SaveAll(fs, files, dir).0, SaveAll(fs, files, dir).1, dir)
    decreases |files|
  {
    if files != [] {
      var init := files[..|files| - 1];
      SaveAllSavedAreFiles(fs, init, dir);
      var before := SaveAll(fs, init, dir);
      var f := files[|files| - 1];
      if f.fileName.Some? {
        var t := UploadTarget(dir, f.fileName.value);
        var step := PersistUpload(before.0, t, f.format);
        var rs := before.1 + [Saved(f.fileName.value, step.1)];
        assert SaveAll(fs, files, dir) == (step.0, rs);
        forall k | 0 <= k < |rs| && rs[k].result.Ok?
          ensures step.0.IsFileAt(UploadTarget(dir, rs[k].name))
        {
          if k < |before.1| {
            assert rs[k] == before.1[k];
            assert before.0.IsFileAt(UploadTarget(dir, before.1[k].name));
          }
        }
      }
    }
  }

  /** A node a single persist adds is its target, and the persist succeeded. */
  lemma PersistAdds(fs: FileSystem, t: Path, format: Option<FileFormat>, q: Path)
    requires q in PersistUpload(fs, t, format).0.nodes && q !in fs.nodes
    ensures PersistUpload(fs, t, format).1.Ok? && q == Resolve(t)
  {
  }

  /** One more persist keeps every new node accounted for. */
  lemma NewNodesSavedStep(fs: FileSystem, mid: FileSystem, rs: seq<Saved>, dir: Path, name: string,
                          format: Option<FileFormat>)
    requires NewNodesSaved(fs, mid, rs, dir)
    ensures var step := PersistUpload(mid, UploadTarget(dir, name), format);
            NewNodesSaved(fs, step.0, rs + [Saved(name, step.1)], dir)
  {
    var t := UploadTarget(dir, name);
    var step := PersistUpload(mid, t, format);
    var rs' := rs + [Saved(name, step.1)];
    forall q | q in step.0.nodes && q !in fs.nodes
      ensures exists k :: 0 <= k < |rs'| && rs'[k].result.Ok? && Resolve(UploadTarget(dir, rs'[k].name)) == q
    {
      if q in mid.nodes {
        var k :| 0 <= k < |rs| && rs[k].result.Ok? && Resolve(UploadTarget(dir, rs[k].name)) == q;
        assert rs'[k] == rs[k];
      } else {
        PersistAdds(mid, t, format, q);
        assert rs'[|rs|] == Saved(name, step.1);
      }
    }
  }

  /** Every node saving adds is the target of an upload reported saved. */
  lemma {:induction false} SaveAllNewNodesSaved(fs: FileSystem, files: seq<TempFile>, dir: Path)
    ensures NewNodesSaved(fs, SaveAll(fs, files, dir).0, SaveAll(fs, files, dir).1, dir)
    decreases |files|
  {
    if files != [] {
      var init := files[..|files| - 1];
      SaveAllNewNodesSaved(fs, init, dir);
      var before := SaveAll(fs, init, dir);
      var f := files[|files| - 1];
      if f.fileName.Some? {
        NewNodesSavedStep(fs, before.0, before.1, dir, f.fileName.value, f.format);
      }
    }
  }
}
