/**
 * Absolute file-system paths as the sequence of their segments below "/".
 * The empty sequence is the root directory "/".
 */
module Paths {
  import opened Strings

  type Path = seq<string>

  /** File.basename: the last segment; the root's basename is "/". */
  function Basename(p: Path): string {
    if p == [] then "/" else p[|p| - 1]
  }

  /** File.dirname: the parent directory; the root is its own parent. */
  function Dirname(p: Path): Path {
    if p == [] then [] else p[..|p| - 1]
  }

  /**
   * File.basename(name, ext) applied to one segment: the extension is removed
   * only when it is a proper suffix, so ".rb" stays ".rb".
   */
  function RemoveExt(name: string, ext: string): (r: string)
    ensures |ext| < |name| && HasSuffix(name, ext) ==> r + ext == name
    ensures !(|ext| < |name| && HasSuffix(name, ext)) ==> r == name
  {
    if |ext| < |name| && HasSuffix(name, ext) then name[..|name| - |ext|] else name
  }

  /** File.basename(p, ".rb"). */
  function Stem(p: Path): string {
    RemoveExt(Basename(p), ".rb")
  }

  /** The string form of a path, as File.expand_path prints it. */
  function PathString(p: Path): string {
    "/" + Join(p, "/")
  }
}
