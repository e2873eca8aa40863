/** The part of pathlib the scripts use: `root / name` and `path.name`,
    on POSIX paths written as strings. */
module Paths {
  import opened Wrappers
  import Text

  /** `Path(root) / name`: an absolute name replaces the root, an empty
      name or an empty root adds nothing, and one separator joins the two,
      so the joined path is never longer than both and a separator. */
  function Join(root: string, name: string): (r: string)
    ensures |name| <= |r| <= |root| + 1 + |name|
    ensures name != "" && name[0] != '/' ==> |r| >= |root| + |name|
  {
    if |name| > 0 && name[0] == '/' then name
    else if name == "" then root
    else if root == "" then name
    else if root[|root| - 1] == '/' then root + name
    else root + "/" + name
  }

  /** `path.name`: the last component, the part after the last separator. */
  function BaseName(path: string): (r: string)
    ensures '/' !in r
    ensures |r| <= |path| && r == path[|path| - |r|..]
    ensures |r| < |path| ==> path[|path| - |r| - 1] == '/'
  {
    match Text.LastIndexOf(path, '/')
    case None => path
    case Some(i) => path[i + 1..]
  }

  /** The name always ends the joined path, and a relative name is joined
      under the root, by one separator when the root does not end in one. */
  lemma JoinParts(root: string, name: string)
    ensures |name| <= |Join(root, name)|
    ensures Join(root, name)[|Join(root, name)| - |name|..] == name
    ensures name != "" && name[0] != '/' ==> Join(root, name)[..|root|] == root
    ensures name != "" && name[0] != '/' && root != "" && root[|root| - 1] != '/' ==>
      Join(root, name) == root + "/" + name
  {
    var r := Join(root, name);
    if name != "" && name[0] != '/' && root != "" {
      if root[|root| - 1] == '/' {
        assert r == root + name;
      } else {
        assert r == root + "/" + name;
      }
    }
  }

  /** The file name the row gives is the file name of the joined path:
      this is the name under which the media is uploaded. */
  lemma BaseNameJoin(root: string, name: string)
    requires name != "" && '/' !in name
    ensures BaseName(Join(root, name)) == name
  {
    if root != "" {
      if root[|root| - 1] == '/' {
        var prefix := root[..|root| - 1];
        assert root + name == prefix + ['/'] + name;
        Text.LastSeparator(prefix, '/', name);
      } else {
        assert root + "/" + name == root + ['/'] + name;
        Text.LastSeparator(root, '/', name);
      }
    }
  }
}
