/** Paths as the file system takes them, and as `os.path.normpath` writes them; symbolic
    links aside. */
module Paths {
  import opened Splitting

  /** A place in the file system, by its components from the root. */
  type Place = seq<string>

  predicate IsAbsolute(path: string) {
    path != "" && path[0] == '/'
  }

  /** Going from a place along these components. */
  function Walk(from: Place, parts: seq<string>): Place
    decreases |parts|
  {
    if parts == [] then from
    else if parts[0] in {"", "."} then Walk(from, parts[1..])
    else if parts[0] == ".." then Walk(if from == [] then [] else from[..|from| - 1], parts[1..])
    else Walk(from + [parts[0]], parts[1..])
  }

  /** The place of a path, seen from a directory. */
  function Locate(cwd: Place, path: string): Place {
    Walk(if IsAbsolute(path) then [] else cwd, Split(path, '/'))
  }

  /** The name of a single file or directory. */
  predicate IsPlainName(name: string) {
    Lacks(name, '/') && name !in {"", ".", ".."}
  }

  lemma WalkOne(from: Place, name: string)
    ensures Walk(from, [name]) ==
      if name in {"", "."} then from
      else if name == ".." then if from == [] then [] else from[..|from| - 1]
      else from + [name]
  {
    assert [name][1..] == [];
  }

  lemma PlainNameIsInside(cwd: Place, name: string)
    requires IsPlainName(name)
    ensures Locate(cwd, name) == cwd + [name]
  {
    assert name[0] != '/';
    SplitLast(name, '/');
    WalkOne(cwd, name);
  }

  /** Any other name without a slash stands for the directory, or for the one it is in. */
  lemma OddNamesGoUp(cwd: Place, name: string)
    requires Lacks(name, '/') && !IsPlainName(name)
    ensures Locate(cwd, name) <= cwd
  {
    assert name != "" ==> name[0] != '/';
    SplitLast(name, '/');
    WalkOne(cwd, name);
  }

  lemma DotSlashParts(name: string)
    requires Lacks(name, '/')
    ensures Split("./" + name, '/') == [".", name] && Split(name, '/') == [name]
  {
    SplitFirst(".", '/', name);
    assert "./" + name == "." + ['/'] + name;
    SplitLast(name, '/');
  }

  lemma DotSlashIsTheSame(cwd: Place, name: string)
    requires IsPlainName(name)
    ensures Locate(cwd, "./" + name) == Locate(cwd, name)
  {
    DotSlashParts(name);
    assert [".", name][1..] == [name];
    assert name[0] != '/';
  }

  /** A name without a slash stands for a file of the directory, or for no file at all. */
  lemma NamesWithoutSlash(cwd: Place, name: string, other: string)
    requires Lacks(name, '/') && IsPlainName(other) && Locate(cwd, name) == Locate(cwd, other)
    ensures name == other
  {
    PlainNameIsInside(cwd, other);
    assert name != "" ==> name[0] != '/';
    SplitLast(name, '/');
    WalkOne(cwd, name);
    assert (cwd + [other])[|cwd|] == other;
  }

  /** The last component of a path as it is written. */
  function LastPart(path: string): string {
    var parts := Split(path, '/');
    parts[|parts| - 1]
  }

  lemma DotSlashLastPart(name: string)
    requires Lacks(name, '/')
    ensures LastPart("./" + name) == LastPart(name)
  {
    DotSlashParts(name);
  }

  // ---------------------------------------------------------------------------
  // normpath
  // ---------------------------------------------------------------------------

  /** A path that `normpath` returns: the slashes it begins with, and its components. */
  datatype Normal = Normal(slashes: nat, parts: seq<string>)

  /** Two slashes at the beginning are kept, three or more become one. */
  function LeadingSlashes(path: string): nat {
    if !IsAbsolute(path) then 0
    else if "//" <= path && !("///" <= path) then 2
    else 1
  }

  /** A ".." goes back, unless a relative path has nothing left to go back from. */
  function Kept(absolute: bool, kept: seq<string>, parts: seq<string>): seq<string>
    decreases |parts|
  {
    if parts == [] then kept
    else if parts[0] in {"", "."} then Kept(absolute, kept, parts[1..])
    else if parts[0] != ".." || (!absolute && kept == []) || (kept != [] && kept[|kept| - 1] == "..")
    then Kept(absolute, kept + [parts[0]], parts[1..])
    else Kept(absolute, if kept == [] then [] else kept[..|kept| - 1], parts[1..])
  }

  function Normalized(path: string): Normal {
    Normal(LeadingSlashes(path), Kept(LeadingSlashes(path) > 0, [], Split(path, '/')))
  }

  lemma {:induction false} KeptIsWalk(from: Place, parts: seq<string>)
    requires ".." !in from
    ensures Kept(true, from, parts) == Walk(from, parts)
    decreases |parts|
  {
    if parts != [] {
      var rest := parts[1..];
      if parts[0] in {"", "."} {
        KeptIsWalk(from, rest);
      } else if parts[0] == ".." {
        KeptIsWalk(if from == [] then [] else from[..|from| - 1], rest);
      } else {
        KeptIsWalk(from + [parts[0]], rest);
      }
    }
  }

  /** Normalising an absolute path finds its place. */
  lemma NormalizedIsPlace(cwd: Place, path: string)
    requires IsAbsolute(path)
    ensures Normalized(path).parts == Locate(cwd, path)
  {
    KeptIsWalk([], Split(path, '/'));
  }
}
