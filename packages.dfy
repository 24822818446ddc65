/** The dependency list the generated project fetches, and the copy-and-shuffle
    that hands it out in random order. */
module Packages {

  /** The fixed dependency list, in declaration order. */
  const Dependencies: seq<string> := [
    "github.com/go-chi/chi/v5",
    "github.com/redis/go-redis/v9",
    "github.com/joho/godotenv",
    "github.com/sirupsen/logrus",
    "github.com/go-sql-driver/mysql",
    "gopkg.in/gomail.v2",
    "github.com/go-chi/chi/middleware"
  ]

  /** No entry occurs twice. */
  ghost predicate Distinct(s: seq<string>)
  {
    forall i, j :: 0 <= i < j < |s| ==> s[i] != s[j]
  }

  /** The declared dependency list has seven entries, all different. */
  lemma DependenciesDistinct()
    ensures |Dependencies| == 7 && Distinct(Dependencies)
  {
  }

  /** Pairwise distinctness is the same as every value occurring at most once. */
  lemma {:induction false} DistinctByMultiplicity(s: seq<string>)
    ensures Distinct(s) <==> forall x :: multiset(s)[x] <= 1
  {
    if s != [] {
      var t := s[1..];
      assert s == [s[0]] + t;
      DistinctByMultiplicity(t);
      if Distinct(s) {
        assert Distinct(t) by {
          forall i, j | 0 <= i < j < |t| ensures t[i] != t[j] {
            assert t[i] == s[i + 1] && t[j] == s[j + 1];
          }
        }
        assert s[0] !in t by {
          forall j | 0 <= j < |t| ensures t[j] != s[0] {
            assert t[j] == s[j + 1];
          }
        }
        forall x ensures multiset(s)[x] <= 1 {
          assert multiset(s)[x] == multiset([s[0]])[x] + multiset(t)[x];
        }
      }
      if forall x :: multiset(s)[x] <= 1 {
        forall x ensures multiset(t)[x] <= 1 {
          assert multiset(s)[x] == multiset([s[0]])[x] + multiset(t)[x];
        }
        assert s[0] !in t by {
          assert multiset(s)[s[0]] == 1 + multiset(t)[s[0]];
        }
        forall i, j | 0 <= i < j < |s| ensures s[i] != s[j] {
          if i == 0 {
            assert s[j] == t[j - 1];
          } else {
            assert s[i] == t[i - 1] && s[j] == t[j - 1];
          }
        }
      }
    }
  }

  /** A permutation of a distinct list is distinct. */
  lemma PermutationKeepsDistinct(s: seq<string>, r: seq<string>)
    requires multiset(r) == multiset(s)
    requires Distinct(s)
    ensures Distinct(r)
  {
    DistinctByMultiplicity(s);
    DistinctByMultiplicity(r);
  }

  /** Exchange the entries at positions i and j. */
  function Swap(s: seq<string>, i: int, j: int): (r: seq<string>)
    requires 0 <= i < |s| && 0 <= j < |s|
    ensures |r| == |s| && r[i] == s[j] && r[j] == s[i]
    ensures forall k :: 0 <= k < |s| && k != i && k != j ==> r[k] == s[k]
    ensures multiset(r) == multiset(s)
  {
    s[i := s[j]][j := s[i]]
  }

  /** The swaps a Fisher-Yates shuffle of n entries performs, in order: the k-th
      exchanges position n-1-k with some position j at or below it. */
  ghost predicate ShuffleSwaps(n: int, swaps: seq<(int, int)>)
  {
    && |swaps| < (if n > 1 then n else 1)
    && forall k :: 0 <= k < |swaps| ==>
         swaps[k].0 == n - 1 - k && 0 <= swaps[k].1 <= swaps[k].0
  }

  /** Every swap names two positions of a list of length n. */
  ghost predicate SwapsInRange(n: int, swaps: seq<(int, int)>)
  {
    forall k :: 0 <= k < |swaps| ==> 0 <= swaps[k].0 < n && 0 <= swaps[k].1 < n
  }

  /** The list after the given swaps, applied first to last. */
  function ApplySwaps(s: seq<string>, swaps: seq<(int, int)>): (r: seq<string>)
    requires SwapsInRange(|s|, swaps)
    ensures |r| == |s|
    decreases |swaps|
  {
    if swaps == [] then s
    else
      var last := swaps[|swaps| - 1];
      Swap(ApplySwaps(s, swaps[..|swaps| - 1]), last.0, last.1)
  }

  /** The swaps of a shuffle name positions of the list being shuffled. */
  lemma ShuffleSwapsInRange(n: int, swaps: seq<(int, int)>)
    requires ShuffleSwaps(n, swaps)
    ensures SwapsInRange(n, swaps)
  {
  }

  /** One more step of the shuffle: the next position down, swapped with a
      position at or below it. */
  lemma ShuffleSwapsStep(n: int, drawn: seq<(int, int)>, i: int, j: int)
    requires ShuffleSwaps(n, drawn) && i + |drawn| == n - 1
    requires 0 < i && 0 <= j <= i
    ensures ShuffleSwaps(n, drawn + [(i, j)])
  {
  }

  /** However the positions are drawn, swapping only rearranges the list. */
  lemma {:induction false} ApplySwapsPermutes(s: seq<string>, swaps: seq<(int, int)>)
    requires SwapsInRange(|s|, swaps)
    ensures multiset(ApplySwaps(s, swaps)) == multiset(s)
    decreases |swaps|
  {
    if swaps != [] {
      ApplySwapsPermutes(s, swaps[..|swaps| - 1]);
    }
  }

  /** `make` followed by `copy`: a fresh array holding the same entries. */
  method CopyOf(packages: array<string>) returns (pkgs: array<string>)
    ensures fresh(pkgs)
    ensures pkgs[..] == packages[..]
  {
    pkgs := new string[packages.Length];
    forall k | 0 <= k < packages.Length {
      pkgs[k] := packages[k];
    }
  }

  /** The in-place shuffle: for i from the last position down to 1, exchange
      position i with a position j drawn from 0..i. The draws are random in the
      program and arbitrary here; `swaps` records them. */
  method Shuffle(pkgs: array<string>) returns (ghost swaps: seq<(int, int)>)
    modifies pkgs
    ensures ShuffleSwaps(pkgs.Length, swaps) && SwapsInRange(pkgs.Length, swaps)
    ensures |swaps| == (if pkgs.Length > 0 then pkgs.Length - 1 else 0)
    ensures pkgs[..] == ApplySwaps(old(pkgs[..]), swaps)
  {
    var n := pkgs.Length;
    swaps := [];
    var i := n - 1;
    while i > 0
      invariant i + |swaps| == n - 1
      invariant ShuffleSwaps(n, swaps) && SwapsInRange(n, swaps)
      invariant pkgs[..] == ApplySwaps(old(pkgs[..]), swaps)
    {
      var j :| 0 <= j <= i;
      ghost var before := pkgs[..];
      pkgs[i], pkgs[j] := pkgs[j], pkgs[i];
      assert pkgs[..] == Swap(before, i, j);
      ghost var drawn := swaps;
      ShuffleSwapsStep(n, drawn, i, j);
      swaps := drawn + [(i, j)];
      ShuffleSwapsInRange(n, swaps);
      assert swaps[..|swaps| - 1] == drawn;
      i := i - 1;
    }
  }

  /** A freshly allocated copy of the dependency list in random order: the same
      entries, each as often as in the source list, which is left untouched. */
  method GetPackage(packages: array<string>) returns (pkgs: array<string>, ghost swaps: seq<(int, int)>)
    ensures fresh(pkgs)
    ensures packages[..] == old(packages[..])
    ensures pkgs.Length == packages.Length
    ensures ShuffleSwaps(pkgs.Length, swaps) && SwapsInRange(pkgs.Length, swaps)
    ensures |swaps| == (if pkgs.Length > 0 then pkgs.Length - 1 else 0)
    ensures pkgs[..] == ApplySwaps(packages[..], swaps)
    ensures multiset(pkgs[..]) == multiset(packages[..])
    ensures Distinct(packages[..]) ==> Distinct(pkgs[..])
  {
    pkgs := CopyOf(packages);
    swaps := Shuffle(pkgs);
    ApplySwapsPermutes(packages[..], swaps);
    if Distinct(packages[..]) {
      PermutationKeepsDistinct(packages[..], pkgs[..]);
    }
  }

  /** Handing out the declared list: seven distinct entries, each once. */
  method GetDependencies() returns (pkgs: array<string>)
    ensures fresh(pkgs)
    ensures pkgs.Length == |Dependencies|
    ensures multiset(pkgs[..]) == multiset(Dependencies)
    ensures Distinct(pkgs[..])
  {
    var packages := new string[|Dependencies|];
    forall k | 0 <= k < |Dependencies| {
      packages[k] := Dependencies[k];
    }
    assert packages[..] == Dependencies;
    DependenciesDistinct();
    ghost var swaps;
    pkgs, swaps := GetPackage(packages);
  }
}
