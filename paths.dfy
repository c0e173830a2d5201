/** `os.path.join` with two arguments, as POSIX defines it, and the
    element-wise joining both image loaders perform. */
module Paths {
  import opened Text

  const Sep: string := "/"

  /** `name` is an absolute path: it begins with the separator. */
  predicate IsAbsolute(name: string)
  {
    name != [] && name[0] == '/'
  }

  /** `folder` already ends in the separator. */
  predicate EndsInSep(folder: string)
  {
    folder != [] && folder[|folder| - 1] == '/'
  }

  /** Joins `folder` and `name`: an absolute `name` replaces the folder; a
      separator is inserted unless the folder is empty or already ends in one. */
  function Join(folder: string, name: string): string
  {
    if IsAbsolute(name) then name
    else if folder == [] || EndsInSep(folder) then folder + name
    else folder + Sep + name
  }

  /** The shape of a joined path: an absolute name stands alone; otherwise
      the path starts with the folder and ends with the name, and exactly one
      separator lies between them when the folder has none at its end. */
  lemma JoinShape(folder: string, name: string)
    ensures IsAbsolute(name) ==> Join(folder, name) == name
    ensures !IsAbsolute(name) ==>
              StartsWith(Join(folder, name), folder) && EndsWith(Join(folder, name), name)
    ensures !IsAbsolute(name) && folder != [] && !EndsInSep(folder) ==>
              Join(folder, name) == folder + Sep + name
  {
    var p := Join(folder, name);
    if !IsAbsolute(name) {
      assert p[..|folder|] == folder;
      assert p[|p| - |name|..] == name;
    }
  }

  /** Adding a trailing separator to a folder that has none does not
      change where a relative name lands (`checkHeads` joins `folder + "/"`). */
  lemma JoinTrailingSeparator(folder: string, name: string)
    requires folder != [] && !EndsInSep(folder)
    ensures Join(folder + Sep, name) == Join(folder, name)
  {
    assert EndsInSep(folder + Sep);
  }

  /** The path list of a loader: element k is `folder` joined with name k. */
  function JoinAll(folder: string, names: seq<string>): (paths: seq<string>)
    ensures |paths| == |names|
    ensures forall k :: 0 <= k < |names| ==> paths[k] == Join(folder, names[k])
  {
    seq(|names|, k requires 0 <= k < |names| => Join(folder, names[k]))
  }
}
