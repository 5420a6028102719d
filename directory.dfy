/**
 * A directory listing as the programs see it through
 * `std::filesystem::directory_iterator`: one entry per file, in listing
 * order, with its file name and whether it is a regular file.
 */
module Directory {

  datatype Entry = Entry(name: string, isRegular: bool)

  /** Index of the last '.' in `name`, or -1 when there is none. */
  function LastDot(name: string): (p: int)
    ensures -1 <= p < |name|
    ensures p >= 0 ==> name[p] == '.'
    ensures forall i :: p < i < |name| ==> name[i] != '.'
  {
    if name == [] then -1
    else if name[|name| - 1] == '.' then |name| - 1
    else LastDot(name[..|name| - 1])
  }

  /**
   * `path(name).extension()`: from the last '.' to the end, except for the
   * names "." and "..", and except when that '.' is the first character
   * (".profile" has no extension).
   */
  function Extension(name: string): (ext: string)
    ensures ext != [] ==> ext[0] == '.' && |ext| < |name| && ext == name[|name| - |ext|..]
    ensures forall i :: 0 < i < |ext| ==> ext[i] != '.'
    ensures ext == [] <==> name == "." || name == ".." || LastDot(name) <= 0
  {
    var p := LastDot(name);
    if name == "." || name == ".." || p <= 0 then "" else name[p..]
  }

  /** A name made of a non-empty stem and a one-dot extension has that extension. */
  lemma ExtensionOf(stem: string, ext: string)
    requires stem != [] && |ext| >= 2 && ext[0] == '.'
    requires forall i :: 0 < i < |ext| ==> ext[i] != '.'
    ensures Extension(stem + ext) == ext
  {
    var name := stem + ext;
    LastDotAt(name, |stem|);
    assert name[|stem|..] == ext;
  }

  /** ".", ".." and a hidden file such as ".jpg" have no extension, so none of them is ever collected. */
  lemma NoExtension()
    ensures Extension(".") == [] && Extension("..") == [] && Extension(".jpg") == []
  {
    LastDotAt(".jpg", 0);
  }

  lemma LastDotAt(name: string, p: nat)
    requires p < |name| && name[p] == '.'
    requires forall i :: p < i < |name| ==> name[i] != '.'
    ensures LastDot(name) == p
  {
  }
}
