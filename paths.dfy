/**
 * File paths as strings on a Unix file system: java.io.File's getParent and
 * getName, and Apache Commons IO's FilenameUtils.getExtension.
 */
module Paths {
  import opened Wrappers
  import opened Text

  type Path = string

  /** File.separatorChar on Unix. */
  const Separator: char := '/'

  /** The path `directory + File.separator + name`. */
  function Join(directory: Path, name: string): Path {
    directory + [Separator] + name
  }

  /** Length of the root prefix of a Unix path: 1 for an absolute path, else 0. */
  function PrefixLength(p: Path): nat {
    if |p| > 0 && p[0] == Separator then 1 else 0
  }

  /** File.getParent: None stands for Java's null. */
  function Parent(p: Path): (r: Option<Path>)
    ensures r.Some? ==> 0 < |r.value| < |p| && r.value == p[..|r.value|]
    ensures r.None? <==> Separator !in p || p == [Separator]
  {
    LastIndexOfAbsent(p, Separator);
    var index := LastIndexOf(p, Separator);
    if index < PrefixLength(p) then
      if PrefixLength(p) > 0 && |p| > PrefixLength(p) then Some(p[..PrefixLength(p)]) else None
    else Some(p[..index])
  }

  /** File.getName: what follows the last separator. */
  function Name(p: Path): (r: string)
    ensures Separator !in r
    ensures |r| <= |p| && r == p[|p| - |r|..]
  {
    p[LastIndexOf(p, Separator) + 1..]
  }

  function Max(a: int, b: int): int {
    if a < b then b else a
  }

  /** FilenameUtils.indexOfExtension: the last dot, unless a separator (of
      either kind) follows it; -1 when there is none. */
  function IndexOfExtension(p: Path): int {
    var dot := LastIndexOf(p, '.');
    if Max(LastIndexOf(p, '/'), LastIndexOf(p, '\\')) > dot then -1 else dot
  }

  /** FilenameUtils.getExtension: the text after the dot that starts the
      extension of the last name in the path, or "" when there is none. */
  function Extension(p: Path): (e: string)
    ensures '.' !in e && '/' !in e && '\\' !in e
    ensures |e| <= |p| && e == p[|p| - |e|..]
    ensures e != "" ==> |e| < |p| && p[|p| - |e| - 1] == '.'
  {
    var i := IndexOfExtension(p);
    if i == -1 then "" else p[i + 1..]
  }

  /** A name appended after a dot, holding neither dot nor separator, is read back as the extension. */
  lemma ExtensionAfterDot(stem: string, ext: string)
    requires '.' !in ext && '/' !in ext && '\\' !in ext
    ensures Extension(stem + ['.'] + ext) == ext
  {
    var s := stem + ['.'] + ext;
    assert forall j :: |stem| < j < |s| ==> s[j] == ext[j - |stem| - 1];
    LastIndexOfAt(s, '.', |stem|);
    LastIndexOfBefore(s, '/', |stem|);
    LastIndexOfBefore(s, '\\', |stem|);
    assert s[|stem| + 1..] == ext;
  }

  /** Joining a non-empty directory with a separator-free name: the directory is
      the parent and the name is the name. */
  lemma ParentOfJoin(directory: Path, name: string)
    requires |directory| > 0 && Separator !in name
    ensures Parent(Join(directory, name)) == Some(directory)
    ensures Name(Join(directory, name)) == name
  {
    var s := Join(directory, name);
    assert forall j :: |directory| < j < |s| ==> s[j] == name[j - |directory| - 1];
    LastIndexOfAt(s, Separator, |directory|);
    assert s[..|directory|] == directory;
    assert s[|directory| + 1..] == name;
  }
}
