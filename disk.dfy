/** The file system the organizer works on, reduced to what it observes:
    which paths hold files (and their lines), which directories exist, and
    which paths the operating system refuses to touch. */
module Disk {
  import opened Wrappers
  import opened Paths

  /** A file's contents, as the lines `File.ReadAllLines` returns. */
  type Lines = seq<string>

  /** `locked` stands for every reason outside the model that makes a file
      operation throw (permissions, another process holding the file). */
  datatype State = State(files: map<string, Lines>, dirs: set<string>, locked: set<string>)

  /** `File.Move(src, dst)` succeeds: the source exists and may be touched,
      neither a file nor a directory is at the destination, and the
      destination's directory exists. */
  predicate CanMove(st: State, src: string, dst: string) {
    && src in st.files && src !in st.locked
    && dst !in st.files && dst !in st.dirs
    && DirectoryName(dst) in st.dirs
  }

  /** The files after moving `src` to `dst`. */
  function Relocate(files: map<string, Lines>, src: string, dst: string): (r: map<string, Lines>)
    requires src in files && dst !in files
    ensures r.Keys == files.Keys - {src} + {dst}
    ensures r[dst] == files[src]
    ensures forall p :: p in files && p != src ==> r[p] == files[p]
  {
    (files - {src})[dst := files[src]]
  }

  /** `list` is a listing of the files directly inside `dir`: each of them
      once, in no particular order. */
  ghost predicate IsListing(files: map<string, Lines>, dir: string, list: seq<string>) {
    && (forall i, j :: 0 <= i < j < |list| ==> list[i] != list[j])
    && (forall p :: p in list <==> p in files && DirectoryName(p) == dir)
  }

  class FileSystem {
    var files: map<string, Lines>
    var dirs: set<string>
    var locked: set<string>

    function Snapshot(): State
      reads this
    {
      State(files, dirs, locked)
    }

    constructor (st: State)
      ensures Snapshot() == st
    {
      files, dirs, locked := st.files, st.dirs, st.locked;
    }

    /** `File.Exists`. */
    method FileExists(p: string) returns (b: bool)
      ensures b <==> p in files
    {
      b := p in files;
    }

    /** `Directory.Exists`. */
    method DirectoryExists(d: string) returns (b: bool)
      ensures b <==> d in dirs
    {
      b := d in dirs;
    }

    /** `Directory.CreateDirectory`: adds `d`; no error when it exists. */
    method CreateDirectory(d: string)
      modifies this
      ensures Snapshot() == old(Snapshot()).(dirs := old(dirs) + {d})
    {
      dirs := dirs + {d};
    }

    /** `File.Delete`: removes the file at `p` (nothing to do when there is
      none); fails, changing nothing, when `p` may not be touched. */
    method Delete(p: string) returns (ok: bool)
      modifies this
      ensures ok <==> p !in old(locked)
      ensures Snapshot() == if ok then old(Snapshot()).(files := old(files) - {p}) else old(Snapshot())
    {
      ok := p !in locked;
      if ok {
        files := files - {p};
      }
    }

    /** `File.Move`: fails, changing nothing, unless CanMove. */
    method Move(src: string, dst: string) returns (ok: bool)
      modifies this
      ensures ok <==> CanMove(old(Snapshot()), src, dst)
      ensures Snapshot() == if ok then old(Snapshot()).(files := Relocate(old(files), src, dst)) else old(Snapshot())
    {
      ok := CanMove(Snapshot(), src, dst);
      if ok {
        files := Relocate(files, src, dst);
      }
    }

    /** `File.ReadAllLines`: fails when there is no readable file at `p`. */
    method ReadAllLines(p: string) returns (r: Option<Lines>)
      ensures r == if p in files && p !in locked then Some(files[p]) else None
    {
      r := if p in files && p !in locked then Some(files[p]) else None;
    }

    /** `Directory.GetFiles`: the files directly inside `dir`, in an order the
      file system chooses. */
    method GetFiles(dir: string) returns (list: seq<string>)
      ensures IsListing(files, dir, list)
    {
      var rest := set p | p in files && DirectoryName(p) == dir;
      list := [];
      while rest != {}
        invariant forall i, j :: 0 <= i < j < |list| ==> list[i] != list[j]
        invariant forall p :: p in list ==> p !in rest
        invariant forall p :: p in list || p in rest <==> p in files && DirectoryName(p) == dir
        decreases |rest|
      {
        var p :| p in rest;
        list := list + [p];
        rest := rest - {p};
      }
    }
  }
}
