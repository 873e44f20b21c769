/**
 * The file system as the downloader sees it: a map from resolved path
 * strings to entries, the folder the program lives in, and the order in
 * which the output folder is listed.
 */
module Files {
  import opened Text

  /** An entry on disk: a regular file or not, its size in bytes and its modification time. */
  datatype Node = Node(isFile: bool, size: nat, mtime: int)

  /**
   * `nodes` holds every entry by its resolved path; `base` is the folder of
   * the program; `listing` is `OUTPUT_DIR.glob("*")`, the paths of the
   * output folder's entries in the order the listing yields them.
   */
  datatype Disk = Disk(nodes: map<string, Node>, base: string, listing: seq<string>)

  /** `BASE_DIR / "output"` and `BASE_DIR / "system"`. */
  function OutputDir(disk: Disk): string { Join(disk.base, "output") }
  function SystemDir(disk: Disk): string { Join(disk.base, "system") }

  /** `dir / name`. */
  function Join(dir: string, name: string): string { dir + "/" + name }

  /** `path.exists()`. */
  predicate Exists(disk: Disk, path: string) { path in disk.nodes }

  /** `path.is_file()`. */
  predicate IsFile(disk: Disk, path: string) { path in disk.nodes && disk.nodes[path].isFile }

  function Size(disk: Disk, path: string): nat {
    if path in disk.nodes then disk.nodes[path].size else 0
  }

  function MTime(disk: Disk, path: string): int {
    if path in disk.nodes then disk.nodes[path].mtime else 0
  }

  /** `path.unlink(missing_ok=True)`: the entry is gone from the map and from the listing. */
  function Unlink(disk: Disk, path: string): (r: Disk)
    ensures r.nodes == disk.nodes - {path} && r.base == disk.base
    ensures forall p :: p in r.listing <==> p in disk.listing && p != path
  {
    Disk(disk.nodes - {path}, disk.base, Without(disk.listing, path))
  }

  function Without(ps: seq<string>, path: string): (r: seq<string>)
    ensures forall p :: p in r <==> p in ps && p != path
  {
    if ps == [] then []
    else (if ps[0] == path then [] else [ps[0]]) + Without(ps[1..], path)
  }

  /** `Path(p).name`: the final component. */
  function Name(path: string): (r: string)
    ensures '/' !in r
  {
    path[LastIndexOf(path, '/') + 1..]
  }

  /** `name.suffix`: from the last dot, when that dot is neither the first nor the last character. */
  function Suffix(name: string): (r: string)
    ensures r == [] || (r[0] == '.' && |r| >= 2)
    ensures |r| <= |name| && r == name[|name| - |r|..]
  {
    var i := LastIndexOf(name, '.');
    if 0 < i < |name| - 1 then name[i..] else ""
  }

  /** `path.suffix`. */
  function PathSuffix(path: string): string { Suffix(Name(path)) }

  /** `path.stem`: the final component without its suffix. */
  function Stem(path: string): string {
    var name := Name(path);
    name[..|name| - |Suffix(name)|]
  }

  /** `path.with_suffix(suffix)`: the suffix of the final component replaced. */
  function WithSuffix(path: string, suffix: string): string {
    path[..|path| - |PathSuffix(path)|] + suffix
  }

  const VideoExtensions: set<string> := {".mp4", ".mkv", ".webm", ".mov"}

  /** `path.suffix.lower() in VALID_VIDEO_EXTENSIONS`. */
  predicate IsVideoPath(path: string) {
    Lower(PathSuffix(path)) in VideoExtensions
  }

  /** A suffix written with the Kelvin sign lowers to `.mkv`, so such a file counts as a video. */
  lemma KelvinSuffixIsVideo(stem: string)
    requires stem != "" && '/' !in stem && '.' !in stem
    ensures IsVideoPath(stem + ".m" + [KelvinSign] + "v")
  {
    var path := stem + ".m" + [KelvinSign] + "v";
    assert path[|stem|] == '.' && path[|path| - 3..] == "m" + [KelvinSign] + "v";
    assert Name(path) == path;
    assert PathSuffix(path) == ".m" + [KelvinSign] + "v";
    assert Lower(PathSuffix(path)) == ".mkv";
  }

  lemma StemAndSuffix(path: string)
    ensures Stem(path) + PathSuffix(path) == Name(path)
  {
  }
}
