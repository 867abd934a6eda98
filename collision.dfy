/** Collision naming: the names `GetUniqueFilePath` tries for a taken path
    and the first of them that is free. */
module Collision {
  import opened Text
  import opened Paths

  /** The file name of the `n`-th try: "name (n)ext". */
  function SuffixedName(p: string, n: nat): string {
    FileNameWithoutExtension(p) + " (" + NatToString(n) + ")" + Extension(p)
  }

  /** The `n`-th path tried for `p`: the suffixed name in `p`'s directory. */
  function Candidate(p: string, n: nat): string {
    Combine(DirectoryName(p), SuffixedName(p, n))
  }

  /** The tried path lies in `p`'s directory and is named "name (n)ext". */
  lemma CandidateParts(p: string, n: nat)
    ensures DirectoryName(Candidate(p, n)) == DirectoryName(p)
    ensures FileName(Candidate(p, n)) == SuffixedName(p, n)
  {
    var name := SuffixedName(p, n);
    assert Separator !in NatToString(n);
    assert Separator !in name;
    if DirectoryName(p) == "" {
      PlainNameParts(name);
    } else {
      CombineParts(DirectoryName(p), name);
    }
  }

  /** The last '.' of "stem mid ext", when `mid` holds none and `ext` is an
      extension that also names the last '.' of "stem ext". */
  lemma LastDotOfSuffixed(stem: string, mid: string, ext: string)
    requires '.' !in mid
    requires ext == "" ==> '.' !in stem
    requires ext != "" ==> ext[0] == '.' && '.' !in ext[1..]
    ensures LastIndexOf(stem + mid + ext, '.') == if ext == "" then -1 else |stem| + |mid|
    ensures ext != "" ==> (stem + mid + ext)[|stem| + |mid|..] == ext
  {
    var name := stem + mid + ext;
    if ext == "" {
      assert forall k :: 0 <= k < |name| ==> name[k] != '.' by {
        forall k | 0 <= k < |name| ensures name[k] != '.' {
          if k < |stem| { assert name[k] == stem[k]; } else { assert name[k] == mid[k - |stem|]; }
        }
      }
      LastIndexOfIs(name, '.', -1);
    } else {
      var at := |stem| + |mid|;
      assert forall k :: at < k < |name| ==> name[k] == ext[1..][k - at - 1];
      LastIndexOfIs(name, '.', at);
      assert name[at..] == ext;
    }
  }

  /** The counter part " (n)" of a tried name holds no '.'. */
  lemma CounterHasNoDot(n: nat)
    ensures '.' !in " (" + NatToString(n) + ")"
  {
    var digits := NatToString(n);
    var mid := " (" + digits + ")";
    forall k | 0 <= k < |mid| ensures mid[k] != '.' {
      if 2 <= k < 2 + |digits| { assert mid[k] == digits[k - 2]; }
    }
  }

  /** The last '.' of a tried name is the one of the original extension. */
  lemma SuffixedNameDot(p: string, n: nat)
    ensures LastIndexOf(SuffixedName(p, n), '.') ==
            if Extension(p) == "" then -1 else |SuffixedName(p, n)| - |Extension(p)|
    ensures Extension(p) != "" ==> SuffixedName(p, n)[|SuffixedName(p, n)| - |Extension(p)|..] == Extension(p)
  {
    var stem, ext := FileNameWithoutExtension(p), Extension(p);
    var mid := " (" + NatToString(n) + ")";
    CounterHasNoDot(n);
    assert ext == "" ==> '.' !in stem by {
      if ext == "" { assert stem + ext == stem; }
    }
    assert SuffixedName(p, n) == stem + mid + ext;
    LastDotOfSuffixed(stem, mid, ext);
  }

  /** The tried path keeps `p`'s extension. */
  lemma CandidateExtension(p: string, n: nat)
    ensures Extension(Candidate(p, n)) == Extension(p)
  {
    CandidateParts(p, n);
    SuffixedNameDot(p, n);
  }

  /** The tried path is longer than `p`, so it is never `p` itself. */
  lemma CandidateIsNew(p: string, n: nat)
    ensures |Candidate(p, n)| > |p|
  {
    var i := LastIndexOf(p, Separator);
    assert |FileName(p)| == |p| - i - 1;
    assert |SuffixedName(p, n)| >= |FileName(p)| + 4;
  }

  /** The numeral between " (" and ")" can be read back from the name. */
  lemma MiddleInjective(stem: string, a: string, b: string, ext: string)
    requires stem + " (" + a + ")" + ext == stem + " (" + b + ")" + ext
    ensures a == b
  {
    var x := stem + " (" + a + ")" + ext;
    var y := stem + " (" + b + ")" + ext;
    assert |a| == |b|;
    assert x[|stem| + 2..|stem| + 2 + |a|] == a;
    assert y[|stem| + 2..|stem| + 2 + |b|] == b;
  }

  /** Different counters give different paths. */
  lemma CandidateInjective(p: string, m: nat, n: nat)
    requires Candidate(p, m) == Candidate(p, n)
    ensures m == n
  {
    CandidateParts(p, m);
    CandidateParts(p, n);
    MiddleInjective(FileNameWithoutExtension(p), NatToString(m), NatToString(n), Extension(p));
    NatToStringInjective(m, n);
  }

  /** The paths tried before the `n`-th: candidates 1 .. n-1. */
  ghost function Tried(p: string, n: nat): set<string> {
    if n <= 1 then {} else Tried(p, n - 1) + {Candidate(p, n - 1)}
  }

  /** The `k`-th candidate is among those tried before the `n`-th exactly
      when 1 <= k < n. */
  lemma {:induction false} TriedMembers(p: string, n: nat, k: nat)
    ensures Candidate(p, k) in Tried(p, n) <==> 1 <= k < n
  {
    if n > 1 {
      TriedMembers(p, n - 1, k);
      if Candidate(p, k) == Candidate(p, n - 1) {
        CandidateInjective(p, k, n - 1);
      }
    }
  }

  /** Trying the `n`-th candidate leaves fewer taken paths untried when it
      is taken, and the same ones when it is free. */
  lemma TryingShrinks(taken: set<string>, p: string, n: nat)
    requires n >= 1
    ensures Candidate(p, n) in taken ==> |taken - Tried(p, n + 1)| < |taken - Tried(p, n)|
    ensures Candidate(p, n) !in taken ==> taken - Tried(p, n + 1) == taken - Tried(p, n)
  {
    TriedMembers(p, n, n);
    if Candidate(p, n) in taken {
      assert taken - Tried(p, n + 1) == (taken - Tried(p, n)) - {Candidate(p, n)};
    }
  }

  /** The least counter `k >= n` whose candidate is not taken, given that
      every candidate before `n` is taken. It exists because the candidates
      are pairwise distinct and `taken` is finite. */
  function LeastFreeFrom(taken: set<string>, p: string, n: nat): (k: nat)
    requires n >= 1 && Tried(p, n) <= taken
    ensures k >= n && Candidate(p, k) !in taken
    ensures forall m :: n <= m < k ==> Candidate(p, m) in taken
    decreases |taken - Tried(p, n)|
  {
    if Candidate(p, n) !in taken then n
    else
      TriedMembers(p, n, n);
      assert taken - Tried(p, n + 1) == (taken - Tried(p, n)) - {Candidate(p, n)};
      LeastFreeFrom(taken, p, n + 1)
  }

  /** The counter GetUniqueFilePath stops at: the least N >= 1 whose
      candidate is not taken. */
  function UniqueIndex(taken: set<string>, p: string): (n: nat)
    ensures n >= 1 && Candidate(p, n) !in taken
    ensures forall m :: 1 <= m < n ==> Candidate(p, m) in taken
  {
    LeastFreeFrom(taken, p, 1)
  }

  /** A free counter all of whose predecessors are taken is the one
      UniqueIndex picks. */
  lemma UniqueIndexIsLeast(taken: set<string>, p: string, k: nat)
    requires k >= 1 && Candidate(p, k) !in taken && Tried(p, k) <= taken
    ensures UniqueIndex(taken, p) == k
  {
    var u := UniqueIndex(taken, p);
    if u < k {
      TriedMembers(p, k, u);
    }
  }

  /** The path GetUniqueFilePath returns for `p`: free, different from `p`,
      in the same directory and with the same extension. */
  function UniquePath(taken: set<string>, p: string): (r: string)
    ensures r !in taken && r != p
    ensures DirectoryName(r) == DirectoryName(p) && Extension(r) == Extension(p)
    ensures exists n :: n >= 1 && r == Candidate(p, n) && forall m :: 1 <= m < n ==> Candidate(p, m) in taken
  {
    var n := UniqueIndex(taken, p);
    CandidateIsNew(p, n);
    CandidateParts(p, n);
    CandidateExtension(p, n);
    Candidate(p, n)
  }

  /** The parts of the example destination "dest/Documents/a.txt". */
  lemma ExamplePathParts()
    ensures DirectoryName("dest/Documents/a.txt") == "dest/Documents"
    ensures FileNameWithoutExtension("dest/Documents/a.txt") == "a"
    ensures Extension("dest/Documents/a.txt") == ".txt"
  {
    assert "dest/Documents/a.txt" == Combine("dest/Documents", "a.txt");
    CombineParts("dest/Documents", "a.txt");
    LastIndexOfIs("a.txt", '.', 1);
  }

  /** The first two names tried for "dest/Documents/a.txt". */
  lemma ExampleCandidates()
    ensures Candidate("dest/Documents/a.txt", 1) == "dest/Documents/a (1).txt"
    ensures Candidate("dest/Documents/a.txt", 2) == "dest/Documents/a (2).txt"
  {
    ExampleCandidate(1, "1");
    ExampleCandidate(2, "2");
    ExampleNamesSpelled();
  }

  lemma ExampleNamesSpelled()
    ensures "dest/Documents/a (" + "1" + ").txt" == "dest/Documents/a (1).txt"
    ensures "dest/Documents/a (" + "2" + ").txt" == "dest/Documents/a (2).txt"
  {
  }

  /** The n-th name tried for "dest/Documents/a.txt", spelled out. */
  lemma ExampleCandidate(n: nat, numeral: string)
    requires NatToString(n) == numeral
    ensures Candidate("dest/Documents/a.txt", n) == "dest/Documents/a (" + numeral + ").txt"
  {
    ExamplePathParts();
    assert SuffixedName("dest/Documents/a.txt", n) == "a (" + numeral + ").txt";
  }

  /** With "a.txt" and "a (1).txt" taken, "a.txt" becomes "a (2).txt". */
  lemma SecondCollisionExample()
    ensures UniquePath({"dest/Documents/a.txt", "dest/Documents/a (1).txt"}, "dest/Documents/a.txt")
            == "dest/Documents/a (2).txt"
  {
    var p := "dest/Documents/a.txt";
    ExampleCandidates();
    assert Tried(p, 2) == {Candidate(p, 1)};
    UniqueIndexIsLeast({p, "dest/Documents/a (1).txt"}, p, 2);
  }
}
