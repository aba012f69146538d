/**
 * `std::path::PathBuf` on a Unix host, seen through its components (which is
 * also how Rust compares two paths): whether it starts at the root, and its
 * normal components in order. Empty and `.` components are not kept.
 */
module Paths {
  import opened Wrappers
  import opened Strings

  datatype Path = Path(absolute: bool, components: seq<string>)

  /** A component as `Path::components` yields it: no separator, not empty, not `.`. */
  predicate IsComponent(c: string) {
    c != "" && c != "." && '/' !in c
  }

  predicate WellFormed(p: Path) {
    forall k :: 0 <= k < |p.components| ==> IsComponent(p.components[k])
  }

  function KeepComponents(pieces: seq<string>): (r: seq<string>)
    ensures forall k :: 0 <= k < |r| ==> r[k] in pieces && r[k] != "" && r[k] != "."
    ensures |r| <= |pieces|
  {
    if pieces == [] then []
    else (if pieces[0] == "" || pieces[0] == "." then [] else [pieces[0]]) + KeepComponents(pieces[1..])
  }

  /** The components of a path written as text. */
  function Components(s: string): (r: seq<string>)
    ensures forall k :: 0 <= k < |r| ==> IsComponent(r[k])
  {
    SplitPiecesFree(s, '/');
    KeepComponents(Split(s, '/'))
  }

  function FromText(s: string): (p: Path)
    ensures WellFormed(p)
  {
    Path(|s| > 0 && s[0] == '/', Components(s))
  }

  /** `PathBuf::push`: an absolute argument replaces the path, anything else is appended. */
  function Push(p: Path, s: string): (r: Path)
    ensures WellFormed(p) ==> WellFormed(r)
  {
    if |s| > 0 && s[0] == '/' then FromText(s)
    else Path(p.absolute, p.components + Components(s))
  }

  /** `Path::file_name`: the last component unless there is none or it is `..`. */
  function FileName(p: Path): (r: Option<string>)
    ensures r.Some? <==> p.components != [] && p.components[|p.components| - 1] != ".."
    ensures r.Some? ==> r.value == p.components[|p.components| - 1]
  {
    if p.components == [] || p.components[|p.components| - 1] == ".." then None
    else Some(p.components[|p.components| - 1])
  }

  /** `Path::file_stem` of a file name: the name up to its last `.`, unless that dot leads the name. */
  function Stem(name: string): string
  {
    match LastIndexOf(name, '.')
    case None => name
    case Some(i) => if i == 0 then name else name[..i]
  }

  /** `PathBuf::set_extension` with a non-empty extension; no file name means no change. */
  function SetExtension(p: Path, ext: string): (r: Path)
    ensures |r.components| == |p.components| && r.absolute == p.absolute
  {
    match FileName(p)
    case None => p
    case Some(name) => Path(p.absolute, p.components[..|p.components| - 1] + [Stem(name) + "." + ext])
  }

  /** An absolute argument yields an absolute path; a relative one extends the old path. */
  lemma PushExtends(p: Path, s: string)
    ensures |s| > 0 && s[0] == '/' ==> Push(p, s).absolute
    ensures !(|s| > 0 && s[0] == '/') ==>
      Push(p, s).absolute == p.absolute && Push(p, s).components[..|p.components|] == p.components
  {
  }

  /** A single component is pushed as exactly one new component. */
  lemma PushComponent(p: Path, name: string)
    requires IsComponent(name)
    ensures Push(p, name) == Path(p.absolute, p.components + [name])
  {
    assert IndexOf(name, '/').None?;
    assert Split(name, '/') == [name];
  }

  /** Giving a dot-free file name an extension appends it after a dot. */
  lemma SetExtensionOfPlainName(p: Path, ext: string)
    requires FileName(p).Some? && '.' !in FileName(p).value
    ensures SetExtension(p, ext).components
         == p.components[..|p.components| - 1] + [FileName(p).value + "." + ext]
  {
  }
}
