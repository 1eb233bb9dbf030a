/** The unique-name resolver `make_unique`: given the names already present in
    a destination directory and a proposed name, find a name that is not
    present, trying `stem(1)ext`, `stem(2)ext`, ... in order. */
module Resolver {
  import opened Names

  /** If the candidates 1..n are all taken, the directory holds at least n
      names: distinct counters give distinct candidates. */
  lemma {:induction false} CandidatesBound(dest: set<string>, stem: string, ext: string, n: nat)
    requires forall j :: 1 <= j <= n ==> Candidate(stem, j, ext) in dest
    ensures n <= |dest|
  {
    if n > 0 {
      var rest := dest - {Candidate(stem, n, ext)};
      forall j | 1 <= j <= n - 1
        ensures Candidate(stem, j, ext) in rest
      {
        if Candidate(stem, j, ext) == Candidate(stem, n, ext) {
          CandidateInjective(stem, ext, j, n);
        }
      }
      CandidatesBound(rest, stem, ext, n - 1);
    }
  }

  /** The least counter m >= k whose candidate is free, given that the
      candidates below k are taken. It exists because a finite directory
      cannot hold infinitely many distinct candidates. */
  function FirstFreeIndex(dest: set<string>, stem: string, ext: string, k: nat): (m: nat)
    requires 1 <= k
    requires forall j :: 1 <= j < k ==> Candidate(stem, j, ext) in dest
    ensures k <= m
    ensures Candidate(stem, m, ext) !in dest
    ensures forall j :: 1 <= j < m ==> Candidate(stem, j, ext) in dest
    decreases |dest| + 1 - k
  {
    if Candidate(stem, k, ext) !in dest then k
    else
      CandidatesBound(dest, stem, ext, k);
      FirstFreeIndex(dest, stem, ext, k + 1)
  }

  /** When the proposed name is taken, the first free counter is at most
      the size of the destination: the proposed name and the taken
      candidates are distinct names of the destination, since every
      candidate is longer than the name it is built from. So the loop
      tries at most |dest| + 1 names. */
  lemma FirstFreeIndexWithinSize(dest: set<string>, name: string)
    requires name in dest
    ensures var (stem, ext) := SplitExt(name);
      FirstFreeIndex(dest, stem, ext, 1) <= |dest|
  {
    var (stem, ext) := SplitExt(name);
    var m := FirstFreeIndex(dest, stem, ext, 1);
    var rest := dest - {name};
    forall j | 1 <= j <= m - 1
      ensures Candidate(stem, j, ext) in rest
    {
      CandidateShape(stem, j, ext);
    }
    CandidatesBound(rest, stem, ext, m - 1);
  }

  /** The name `make_unique(dest, name)` returns. */
  function UniqueName(dest: set<string>, name: string): (r: string)
    ensures r !in dest
    ensures name !in dest ==> r == name
  {
    if name !in dest then name
    else
      var (stem, ext) := SplitExt(name);
      Candidate(stem, FirstFreeIndex(dest, stem, ext, 1), ext)
  }

  /** What the resolver promises, stated without reference to how it
      searches: the proposed name when it is free, and otherwise the
      candidate with the least counter that is free. */
  ghost predicate IsFirstFree(dest: set<string>, name: string, r: string)
  {
    var (stem, ext) := SplitExt(name);
    (name !in dest && r == name) ||
    (name in dest &&
     exists k: nat ::
       1 <= k && r == Candidate(stem, k, ext) && r !in dest &&
       forall j :: 1 <= j < k ==> Candidate(stem, j, ext) in dest)
  }

  /** `UniqueName` is exactly the first free name, in both directions: it
      is one, and any first free name is it. */
  lemma UniqueNameIsFirstFree(dest: set<string>, name: string, r: string)
    ensures r == UniqueName(dest, name) <==> IsFirstFree(dest, name, r)
  {
    var (stem, ext) := SplitExt(name);
    if name in dest {
      var m := FirstFreeIndex(dest, stem, ext, 1);
      assert UniqueName(dest, name) == Candidate(stem, m, ext);
      if IsFirstFree(dest, name, r) {
        var k: nat :| 1 <= k && r == Candidate(stem, k, ext) && r !in dest &&
          forall j :: 1 <= j < k ==> Candidate(stem, j, ext) in dest;
        assert k == m;
      }
    }
  }

  /** `make_unique`: the loop tries the proposed name and then the
      candidates 1, 2, ... built from the original stem and extension. */
  method MakeUnique(dest: set<string>, name: string) returns (r: string)
    ensures r !in dest
    ensures name !in dest ==> r == name
    ensures r == UniqueName(dest, name)
  {
    var (stem, ext) := SplitExt(name);
    var counter := 1;
    r := name;
    while r in dest
      invariant 1 <= counter
      invariant counter == 1 ==> r == name
      invariant 1 < counter ==> name in dest && r == Candidate(stem, counter - 1, ext)
      invariant forall j :: 1 <= j < counter - 1 ==> Candidate(stem, j, ext) in dest
      invariant r !in dest ==> r == UniqueName(dest, name)
      decreases |dest| + 1 - counter
    {
      CandidatesBound(dest, stem, ext, counter - 1);
      r := Candidate(stem, counter, ext);
      counter := counter + 1;
      if r !in dest {
        assert FirstFreeIndex(dest, stem, ext, counter - 1) == counter - 1;
      }
    }
  }
}
