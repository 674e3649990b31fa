/** The file-part checks the upload handlers run before anything is sent
    to storage: a part must be present, have a file name, and carry an
    extension (as POSIX `os.path.splitext` computes it) from an allow-list. */
module Uploads {
  import opened Domain

  /** `str.rfind` for one character: the last index of `c`, or -1. */
  function RFind(s: string, c: char): (i: int)
    ensures -1 <= i < |s|
    ensures 0 <= i ==> s[i] == c
    ensures forall j :: i < j < |s| ==> s[j] != c
    decreases |s|
  {
    if s == [] then -1
    else if s[|s| - 1] == c then |s| - 1
    else RFind(s[..|s| - 1], c)
  }

  /** `d` starts an extension of `name`: a dot with no dot or slash after
      it, preceded in the last path component by a character that is not
      a dot (so ".bashrc" and "..." have none). */
  ghost predicate ExtensionAt(name: string, d: int)
  {
    && 0 <= d < |name|
    && name[d] == '.'
    && (forall k :: d < k < |name| ==> name[k] != '.' && name[k] != '/')
    && (exists k :: 0 <= k < d && name[k] != '.' && forall m :: k <= m < d ==> name[m] != '/')
  }

  /** The extension part of `os.path.splitext(name)` (POSIX): from the
      last dot of the last path component, unless every character of that
      component before the dot is a dot; otherwise empty. */
  function Extension(name: string): (ext: string)
    ensures |ext| <= |name| && ext == name[|name| - |ext|..]
    ensures ext != "" ==> ExtensionAt(name, |name| - |ext|)
    ensures ext == "" ==> forall d :: !ExtensionAt(name, d)
  {
    var sep := RFind(name, '/');
    var dot := RFind(name, '.');
    if sep < dot && exists k :: sep < k < dot && name[k] != '.' then
      ExtensionFound(name, sep, dot);
      name[dot..]
    else
      NoExtension(name, sep, dot);
      ""
  }

  lemma ExtensionFound(name: string, sep: int, dot: int)
    requires sep == RFind(name, '/') && dot == RFind(name, '.')
    requires sep < dot && exists k :: sep < k < dot && name[k] != '.'
    ensures ExtensionAt(name, dot)
  {
    var k :| sep < k < dot && name[k] != '.';
    assert forall m :: k <= m < dot ==> name[m] != '/';
  }

  lemma NoExtension(name: string, sep: int, dot: int)
    requires sep == RFind(name, '/') && dot == RFind(name, '.')
    requires !(sep < dot && exists k :: sep < k < dot && name[k] != '.')
    ensures forall d :: !ExtensionAt(name, d)
  {
  }

  /** A file part is acceptable: present, named, and of an allowed type. */
  predicate Accepted(part: Option<FilePart>, allowed: set<string>)
  {
    part.Some? && part.value.filename != "" && Extension(part.value.filename) in allowed
  }

  /** The extensions the profile-image route allows (app/routes/user_route.py:134). */
  const ProfileImageTypes: set<string> := {".png", ".jpeg", ".jpg", ".webp"}
}
