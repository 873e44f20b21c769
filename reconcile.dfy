/**
 * Finding the file a download produced: the video files of the output folder
 * that are new or changed since a snapshot, newest first, and failing that
 * the paths the downloader reported.
 */
module Reconcile {
  import opened Common
  import opened Text
  import opened Formats
  import opened Files

  /** `snapshot_output_folder()`: resolved path to size, for the regular files of the output folder. */
  type Snapshot = map<string, nat>

  function SnapshotOf(disk: Disk): (s: Snapshot)
    ensures forall p :: p in s <==> p in disk.listing && IsFile(disk, p)
    ensures forall p :: p in s ==> p in disk.nodes && s[p] == disk.nodes[p].size
  {
    map p | p in disk.listing && IsFile(disk, p) :: disk.nodes[p].size
  }

  method SnapshotOutputFolder(disk: Disk) returns (snapshot: Snapshot)
    ensures snapshot == SnapshotOf(disk)
  {
    snapshot := map[];
    var k := 0;
    while k < |disk.listing|
      invariant 0 <= k <= |disk.listing|
      invariant forall p :: p in snapshot <==> p in disk.listing[..k] && IsFile(disk, p)
      invariant forall p :: p in snapshot ==> p in disk.nodes && snapshot[p] == disk.nodes[p].size
    {
      var path := disk.listing[k];
      assert disk.listing[..k + 1] == disk.listing[..k] + [path];
      if IsFile(disk, path) {
        snapshot := snapshot[path := disk.nodes[path].size];
      }
      k := k + 1;
    }
    assert disk.listing[..|disk.listing|] == disk.listing;
  }

  // ---------------------------------------------------------------------------
  // New or changed video files.

  /** The tests of the first loop of `find_new_video_files` for one listed path. */
  predicate IsNewVideo(before: Snapshot, disk: Disk, path: string) {
    IsFile(disk, path)
    && IsVideoPath(path)
    && Lower(PathSuffix(path)) !in {".part", ".ytdl"}
    && (path !in before || before[path] != disk.nodes[path].size)
  }

  function NewVideoTest(before: Snapshot, disk: Disk): string -> bool {
    path => IsNewVideo(before, disk, path)
  }

  /** The listed paths that pass, in listing order. */
  function Created(before: Snapshot, disk: Disk, ps: seq<string>): seq<string> {
    Filter(ps, NewVideoTest(before, disk))
  }

  /** `sort(key=mtime, reverse=True)`: stable, so paths with equal times keep their order. */
  function SortNewest(ps: seq<string>, disk: Disk): (r: seq<string>)
    ensures |r| == |ps|
  {
    if ps == [] then [] else InsertNewest(SortNewest(ps[..|ps| - 1], disk), ps[|ps| - 1], disk)
  }

  function InsertNewest(sorted: seq<string>, p: string, disk: Disk): (r: seq<string>)
    ensures |r| == |sorted| + 1
  {
    if sorted == [] then [p]
    else if MTime(disk, sorted[0]) < MTime(disk, p) then [p] + sorted
    else [sorted[0]] + InsertNewest(sorted[1..], p, disk)
  }

  /**
   * The head of the sort is the first listed path with the latest time: on a
   * tie the earlier path wins, so `created[0]` is well defined.
   */
  lemma {:induction false} SortNewestHead(ps: seq<string>, disk: Disk) returns (i: nat)
    requires ps != []
    ensures i < |ps| && SortNewest(ps, disk)[0] == ps[i]
    ensures forall j :: 0 <= j < |ps| ==> MTime(disk, ps[j]) <= MTime(disk, ps[i])
    ensures forall j :: 0 <= j < i ==> MTime(disk, ps[j]) < MTime(disk, ps[i])
  {
    var n := |ps|;
    if n == 1 {
      i := 0;
    } else {
      var init := ps[..n - 1];
      var k := SortNewestHead(init, disk);
      var sorted := SortNewest(init, disk);
      assert forall j :: 0 <= j < n - 1 ==> ps[j] == init[j];
      if MTime(disk, sorted[0]) < MTime(disk, ps[n - 1]) {
        i := n - 1;
      } else {
        i := k;
      }
    }
  }

  predicate NewestFirst(ps: seq<string>, disk: Disk) {
    forall i, j :: 0 <= i < j < |ps| ==> MTime(disk, ps[i]) >= MTime(disk, ps[j])
  }

  lemma {:induction false} InsertNewestPermutes(sorted: seq<string>, p: string, disk: Disk)
    ensures multiset(InsertNewest(sorted, p, disk)) == multiset(sorted) + multiset{p}
  {
    if sorted != [] {
      var head, rest := sorted[0], sorted[1..];
      assert sorted == [head] + rest;
      if MTime(disk, head) >= MTime(disk, p) {
        InsertNewestPermutes(rest, p, disk);
        assert InsertNewest(sorted, p, disk) == [head] + InsertNewest(rest, p, disk);
      }
    }
  }

  lemma {:induction false} InsertNewestElements(sorted: seq<string>, p: string, disk: Disk)
    ensures forall q :: q in InsertNewest(sorted, p, disk) <==> q in sorted || q == p
  {
    if sorted != [] && MTime(disk, sorted[0]) >= MTime(disk, p) {
      InsertNewestElements(sorted[1..], p, disk);
      assert sorted == [sorted[0]] + sorted[1..];
    }
  }

  lemma {:induction false} InsertNewestOrdered(sorted: seq<string>, p: string, disk: Disk)
    requires NewestFirst(sorted, disk)
    ensures NewestFirst(InsertNewest(sorted, p, disk), disk)
  {
    if sorted == [] {
    } else if MTime(disk, sorted[0]) < MTime(disk, p) {
      var whole := [p] + sorted;
      forall i, j | 0 <= i < j < |whole|
        ensures MTime(disk, whole[i]) >= MTime(disk, whole[j])
      {
        if i == 0 {
          assert whole[j] == sorted[j - 1];
          if j > 1 {
            assert MTime(disk, sorted[0]) >= MTime(disk, sorted[j - 1]);
          }
        } else {
          assert whole[i] == sorted[i - 1] && whole[j] == sorted[j - 1];
        }
      }
    } else {
      var head := sorted[0];
      var rest := sorted[1..];
      assert NewestFirst(rest, disk) by {
        forall i, j | 0 <= i < j < |rest|
          ensures MTime(disk, rest[i]) >= MTime(disk, rest[j])
        {
          assert rest[i] == sorted[i + 1] && rest[j] == sorted[j + 1];
        }
      }
      InsertNewestOrdered(rest, p, disk);
      InsertNewestElements(rest, p, disk);
      var r := InsertNewest(rest, p, disk);
      assert InsertNewest(sorted, p, disk) == [head] + r;
      forall q | q in r
        ensures MTime(disk, head) >= MTime(disk, q)
      {
        if q != p {
          var k :| 0 <= k < |rest| && rest[k] == q;
          assert sorted[k + 1] == q;
        }
      }
      var whole := [head] + r;
      forall i, j | 0 <= i < j < |whole|
        ensures MTime(disk, whole[i]) >= MTime(disk, whole[j])
      {
        if i == 0 {
          assert whole[j] == r[j - 1];
          assert r[j - 1] in r;
        } else {
          assert whole[i] == r[i - 1] && whole[j] == r[j - 1];
        }
      }
    }
  }

  /** The sort keeps every path and puts the newest first. */
  lemma {:induction false} SortNewestCorrect(ps: seq<string>, disk: Disk)
    ensures multiset(SortNewest(ps, disk)) == multiset(ps)
    ensures NewestFirst(SortNewest(ps, disk), disk)
  {
    if ps != [] {
      var init := ps[..|ps| - 1];
      SortNewestCorrect(init, disk);
      InsertNewestPermutes(SortNewest(init, disk), ps[|ps| - 1], disk);
      InsertNewestOrdered(SortNewest(init, disk), ps[|ps| - 1], disk);
      assert ps == init + [ps[|ps| - 1]];
    }
  }

  /** Sorting changes no membership. */
  lemma SortNewestElements(ps: seq<string>, disk: Disk)
    ensures forall p :: p in SortNewest(ps, disk) <==> p in ps
  {
    SortNewestCorrect(ps, disk);
    var r := SortNewest(ps, disk);
    forall p
      ensures p in r <==> p in ps
    {
      assert p in r <==> p in multiset(r);
      assert p in ps <==> p in multiset(ps);
    }
  }

  /** `find_new_video_files(before)`. */
  function NewVideoFiles(before: Snapshot, disk: Disk): (r: seq<string>)
    ensures multiset(r) == multiset(Created(before, disk, disk.listing))
    ensures NewestFirst(r, disk)
  {
    SortNewestCorrect(Created(before, disk, disk.listing), disk);
    SortNewest(Created(before, disk, disk.listing), disk)
  }

  /** A path with a video extension never has a partial-download suffix, so that test never skips a file. */
  lemma VideoPathNotPartial(path: string)
    ensures IsVideoPath(path) ==> Lower(PathSuffix(path)) !in {".part", ".ytdl"}
  {
    var x := Lower(PathSuffix(path));
    assert x in VideoExtensions ==> x != ".part" && x != ".ytdl";
  }

  lemma NewVideoFilesMembers(before: Snapshot, disk: Disk)
    ensures forall p :: p in NewVideoFiles(before, disk) <==>
      p in disk.listing && IsFile(disk, p) && IsVideoPath(p) && (p !in before || before[p] != disk.nodes[p].size)
  {
    var c := Created(before, disk, disk.listing);
    FilterElements(disk.listing, NewVideoTest(before, disk));
    SortNewestElements(c, disk);
    forall p
      ensures IsNewVideo(before, disk, p) <==> IsFile(disk, p) && IsVideoPath(p) && (p !in before || before[p] != disk.nodes[p].size)
    {
      VideoPathNotPartial(p);
    }
  }

  /**
   * Exactly the listed video files that are absent from the snapshot or have
   * another size now, each as often as it passes, newest first.
   */
  lemma NewVideoFilesExactly(before: Snapshot, disk: Disk)
    ensures forall p :: p in NewVideoFiles(before, disk) <==>
      p in disk.listing && IsFile(disk, p) && IsVideoPath(p) && (p !in before || before[p] != disk.nodes[p].size)
    ensures multiset(NewVideoFiles(before, disk)) == multiset(Created(before, disk, disk.listing))
    ensures NewestFirst(NewVideoFiles(before, disk), disk)
  {
    NewVideoFilesMembers(before, disk);
  }

  /** Against a snapshot of the same folder no file is new. */
  lemma NothingNewSinceSnapshot(disk: Disk)
    ensures NewVideoFiles(SnapshotOf(disk), disk) == []
  {
    FilterNone(disk.listing, NewVideoTest(SnapshotOf(disk), disk));
  }

  method FindNewVideoFiles(before: Snapshot, disk: Disk) returns (created: seq<string>)
    ensures created == NewVideoFiles(before, disk)
  {
    created := [];
    var k := 0;
    while k < |disk.listing|
      invariant 0 <= k <= |disk.listing|
      invariant created == Created(before, disk, disk.listing[..k])
    {
      var path := disk.listing[k];
      FilterSnoc(disk.listing, NewVideoTest(before, disk), k);
      k := k + 1;
      if !IsFile(disk, path) {
        continue;
      }
      var suffix := Lower(PathSuffix(path));
      if suffix !in VideoExtensions {
        continue;
      }
      if suffix in {".part", ".ytdl"} {
        continue;
      }
      var size := disk.nodes[path].size;
      if path !in before || before[path] != size {
        created := created + [path];
      }
    }
    assert disk.listing[..|disk.listing|] == disk.listing;
    created := SortNewest(created, disk);
  }

  // ---------------------------------------------------------------------------
  // The paths the downloader reported.

  /** A non-blank string value, as a path. */
  function PathValue(v: Value): seq<string> {
    if v.Str? && Strip(v.s, Whitespace) != "" then [v.s] else []
  }

  /** The `filepath` of each dictionary among `requested_downloads`. */
  function RequestedPaths(entries: seq<Value>): seq<string> {
    if entries == [] then []
    else
      var last := entries[|entries| - 1];
      RequestedPaths(entries[..|entries| - 1]) + (if last.Dict? then PathValue(Get(last.fields, "filepath")) else [])
  }

  /** One more entry of the loop over `requested_downloads`. */
  lemma RequestedPathsStep(entries: seq<Value>, k: nat)
    requires k < |entries|
    ensures RequestedPaths(entries[..k + 1]) == RequestedPaths(entries[..k])
      + (if entries[k].Dict? then PathValue(Get(entries[k].fields, "filepath")) else [])
  {
    assert entries[..k + 1][..k] == entries[..k];
  }

  /** `raw_candidates`: `filepath`, `_filename`, then the requested downloads. */
  function RawCandidates(info: Fields): seq<string> {
    var requested := Get(info, "requested_downloads");
    PathValue(Get(info, "filepath")) + PathValue(Get(info, "_filename"))
      + (if requested.List? then RequestedPaths(requested.items) else [])
  }

  /** The paths tried for one candidate: itself, its `.mp4` twin, the same name in the output folder. */
  function Variants(c: string, disk: Disk): seq<string> {
    [c] + (if Lower(PathSuffix(c)) != ".mp4" then [WithSuffix(c, ".mp4")] else []) + [Join(OutputDir(disk), Name(c))]
  }

  /** `checked`: the variants of every candidate, candidate by candidate. */
  function Checked(cs: seq<string>, disk: Disk): seq<string> {
    Concat(VariantsEach(cs, disk))
  }

  function VariantsEach(cs: seq<string>, disk: Disk): (vs: seq<seq<string>>)
    ensures |vs| == |cs|
  {
    seq(|cs|, i requires 0 <= i < |cs| => Variants(cs[i], disk))
  }

  /** The pieces one after another. */
  function Concat(vs: seq<seq<string>>): seq<string> {
    if vs == [] then [] else Concat(vs[..|vs| - 1]) + vs[|vs| - 1]
  }

  lemma {:induction false} ConcatIncludes(vs: seq<seq<string>>, k: nat)
    requires k < |vs|
    ensures forall v :: v in vs[k] ==> v in Concat(vs)
  {
    var init := vs[..|vs| - 1];
    if k < |vs| - 1 {
      ConcatIncludes(init, k);
      assert init[k] == vs[k];
    }
  }

  function VideoFileTest(disk: Disk): string -> bool {
    path => IsFile(disk, path) && IsVideoPath(path)
  }

  /** The first path that is an existing regular file with a video extension. */
  function FirstVideoFile(ps: seq<string>, disk: Disk): (r: Option<string>)
    ensures r.Some? ==> r.value in ps && IsFile(disk, r.value) && IsVideoPath(r.value)
    ensures r.None? <==> forall p :: p in ps ==> !(IsFile(disk, p) && IsVideoPath(p))
  {
    FirstWhere(ps, VideoFileTest(disk))
  }

  /** `resolve_output_from_info(info)`. */
  function ResolvedOutput(info: Value, disk: Disk): (r: Option<string>)
    ensures !info.Dict? ==> r.None?
    ensures r.Some? ==>
      info.Dict? && r.value in Checked(RawCandidates(info.fields), disk) && IsFile(disk, r.value) && IsVideoPath(r.value)
  {
    if !info.Dict? then None else FirstVideoFile(Checked(RawCandidates(info.fields), disk), disk)
  }

  /** What is found is the first acceptable path in checking order. */
  lemma FirstVideoFileIsFirst(ps: seq<string>, disk: Disk) returns (i: nat)
    requires FirstVideoFile(ps, disk).Some?
    ensures i < |ps| && ps[i] == FirstVideoFile(ps, disk).value
    ensures forall j :: 0 <= j < i ==> !(IsFile(disk, ps[j]) && IsVideoPath(ps[j]))
  {
    var test := VideoFileTest(disk);
    i := FirstWhereIsFirst(ps, test);
    forall j | 0 <= j < i
      ensures !(IsFile(disk, ps[j]) && IsVideoPath(ps[j]))
    {
      assert !test(ps[j]);
    }
  }

  lemma VariantsCover(c: string, disk: Disk)
    ensures c in Variants(c, disk) && Join(OutputDir(disk), Name(c)) in Variants(c, disk)
    ensures Lower(PathSuffix(c)) != ".mp4" ==> WithSuffix(c, ".mp4") in Variants(c, disk)
  {
    var v := Variants(c, disk);
    assert v[0] == c && v[|v| - 1] == Join(OutputDir(disk), Name(c));
    if Lower(PathSuffix(c)) != ".mp4" {
      assert v[1] == WithSuffix(c, ".mp4");
    }
  }

  lemma CheckedIncludes(cs: seq<string>, disk: Disk, c: string)
    requires c in cs
    ensures forall v :: v in Variants(c, disk) ==> v in Checked(cs, disk)
  {
    var k :| 0 <= k < |cs| && cs[k] == c;
    ConcatIncludes(VariantsEach(cs, disk), k);
  }

  /** Every candidate reported is tried as it is, as an `.mp4` and inside the output folder. */
  lemma CheckedCovers(cs: seq<string>, disk: Disk, c: string)
    requires c in cs
    ensures c in Checked(cs, disk) && Join(OutputDir(disk), Name(c)) in Checked(cs, disk)
    ensures Lower(PathSuffix(c)) != ".mp4" ==> WithSuffix(c, ".mp4") in Checked(cs, disk)
  {
    VariantsCover(c, disk);
    CheckedIncludes(cs, disk, c);
  }

  /** The first two loops of `resolve_output_from_info`: the reported paths. */
  method ReportedPaths(fields: Fields) returns (raw: seq<string>)
    ensures raw == RawCandidates(fields)
  {
    raw := PathValue(Get(fields, "filepath")) + PathValue(Get(fields, "_filename"));
    var requested := Get(fields, "requested_downloads");
    if requested.List? {
      var k := 0;
      ghost var start := raw;
      while k < |requested.items|
        invariant 0 <= k <= |requested.items|
        invariant raw == start + RequestedPaths(requested.items[..k])
      {
        var entry := requested.items[k];
        RequestedPathsStep(requested.items, k);
        if entry.Dict? {
          raw := raw + PathValue(Get(entry.fields, "filepath"));
        }
        k := k + 1;
      }
      assert requested.items[..|requested.items|] == requested.items;
    }
  }

  /** The paths tried for one candidate. */
  method CandidateVariants(candidate: string, disk: Disk) returns (v: seq<string>)
    ensures v == Variants(candidate, disk)
  {
    v := [candidate];
    if Lower(PathSuffix(candidate)) != ".mp4" {
      v := v + [WithSuffix(candidate, ".mp4")];
    }
    v := v + [Join(OutputDir(disk), Name(candidate))];
  }

  /** The third loop: every candidate's variants, in order. */
  method ExpandCandidates(raw: seq<string>, disk: Disk) returns (checked: seq<string>)
    ensures checked == Checked(raw, disk)
  {
    checked := [];
    var k := 0;
    while k < |raw|
      invariant 0 <= k <= |raw|
      invariant checked == Concat(VariantsEach(raw, disk)[..k])
    {
      ghost var vs := VariantsEach(raw, disk);
      assert vs[..k + 1][..k] == vs[..k];
      var v := CandidateVariants(raw[k], disk);
      checked := checked + v;
      k := k + 1;
    }
    assert VariantsEach(raw, disk)[..|raw|] == VariantsEach(raw, disk);
  }

  /** The last loop: the first existing video file. */
  method FirstExisting(checked: seq<string>, disk: Disk) returns (output: Option<string>)
    ensures output == FirstVideoFile(checked, disk)
  {
    var k := 0;
    while k < |checked|
      invariant 0 <= k <= |checked|
      invariant FirstVideoFile(checked[k..], disk) == FirstVideoFile(checked, disk)
    {
      var candidate := checked[k];
      if IsFile(disk, candidate) && IsVideoPath(candidate) {
        return Some(candidate);
      }
      assert checked[k..][1..] == checked[k + 1..];
      k := k + 1;
    }
    return None;
  }

  method ResolveOutputFromInfo(info: Value, disk: Disk) returns (output: Option<string>)
    ensures output == ResolvedOutput(info, disk)
  {
    if !info.Dict? {
      return None;
    }
    var raw := ReportedPaths(info.fields);
    var checked := ExpandCandidates(raw, disk);
    output := FirstExisting(checked, disk);
  }
}
