/** The path operations the organizer uses (`Path.Combine`, `GetDirectoryName`,
    `GetFileName`, `GetExtension`, `GetFileNameWithoutExtension`), over paths
    written with a single separator character. */
module Paths {

  const Separator: char := '/'

  /** `Path.Combine(a, b)`: an empty part is skipped, otherwise one separator
      is put between the two parts. */
  function Combine(a: string, b: string): string {
    if a == "" then b else if b == "" then a else a + [Separator] + b
  }

  /** Index of the last `c` in `s`, or -1 when `s` holds none. */
  function LastIndexOf(s: string, c: char): (i: int)
    ensures -1 <= i < |s|
    ensures i >= 0 ==> s[i] == c
    ensures forall k :: i < k < |s| ==> s[k] != c
  {
    if s == [] then -1
    else if s[|s| - 1] == c then |s| - 1
    else LastIndexOf(s[..|s| - 1], c)
  }

  /** An occurrence with no later occurrence is the last one. */
  lemma LastIndexOfIs(s: string, c: char, i: int)
    requires -1 <= i < |s|
    requires i >= 0 ==> s[i] == c
    requires forall k :: i < k < |s| ==> s[k] != c
    ensures LastIndexOf(s, c) == i
  {
  }

  /** Everything before the last separator ("" when there is none). */
  function DirectoryName(p: string): string {
    var i := LastIndexOf(p, Separator);
    if i < 0 then "" else p[..i]
  }

  /** Everything after the last separator. */
  function FileName(p: string): (n: string)
    ensures Separator !in n
    ensures |n| <= |p|
  {
    p[LastIndexOf(p, Separator) + 1..]
  }

  /** The extension of the file name: the text from its last '.' on, or ""
      when the name has no '.'. */
  function Extension(p: string): (e: string)
    ensures e == "" <==> '.' !in FileName(p)
    ensures e != "" ==> e[0] == '.' && '.' !in e[1..]
    ensures Separator !in e
  {
    var n := FileName(p);
    var i := LastIndexOf(n, '.');
    if i < 0 then "" else n[i..]
  }

  /** The file name without its extension. */
  function FileNameWithoutExtension(p: string): (stem: string)
    ensures stem + Extension(p) == FileName(p)
  {
    var n := FileName(p);
    var i := LastIndexOf(n, '.');
    if i < 0 then n else n[..i]
  }

  /** Combining a non-empty directory with a plain name can be taken apart
      again into that directory and that name. */
  lemma CombineParts(d: string, n: string)
    requires d != "" && n != "" && Separator !in n
    ensures DirectoryName(Combine(d, n)) == d && FileName(Combine(d, n)) == n
  {
    var p := d + [Separator] + n;
    assert forall k :: |d| < k < |p| ==> p[k] == n[k - |d| - 1];
    LastIndexOfIs(p, Separator, |d|);
    assert p[..|d|] == d && p[|d| + 1..] == n;
  }

  /** A name without a separator is its own file name, in no directory. */
  lemma PlainNameParts(n: string)
    requires Separator !in n
    ensures DirectoryName(n) == "" && FileName(n) == n
  {
    LastIndexOfIs(n, Separator, -1);
  }

  /** A combined path starts with its non-empty first part. */
  lemma CombineExtends(a: string, b: string)
    requires a != ""
    ensures |Combine(a, b)| >= |a| && Combine(a, b)[..|a|] == a
  {
  }
}
