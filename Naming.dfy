/** Collision-free output naming: `uniquify(path)`, of which the repository keeps three identical
    copies (helpers.py, sd_interface.py and the function nested in main.py's `text2img`).
    The file system is the finite set of paths that exist while the loop runs. */
module Naming {
  import opened Paths

  /** The counter tag `" (n)"`. */
  function Tag(n: nat): (t: string)
    ensures NoDotNoSep(t) && |t| >= 4
  {
    " (" + DecimalString(n) + ")"
  }

  /** The path tried for counter `n`: always built from the stem and extension of the ORIGINAL
      path, never from the previous candidate. */
  function Candidate(p: string, n: nat): string {
    Stem(p) + Tag(n) + Ext(p)
  }

  /** The path the loop holds after `k` rounds: `p` itself, then the candidates 1, 2, ... */
  function Attempt(p: string, k: nat): string {
    if k == 0 then p else Candidate(p, k)
  }

  /** `uniquify` runs exactly `k` rounds on `existing`: attempts 0 .. k-1 exist and attempt k
      does not. */
  ghost predicate IsFirstFree(existing: set<string>, p: string, k: nat) {
    Attempt(p, k) !in existing && forall j :: 0 <= j < k ==> Attempt(p, j) in existing
  }

  /** The tag determines its counter. */
  lemma TagInjective(i: nat, j: nat)
    requires Tag(i) == Tag(j)
    ensures i == j
  {
    var t := Tag(i);
    assert DecimalString(i) == t[2..|t| - 1] == DecimalString(j);
    DecimalStringInjective(i, j);
  }

  /** Different rounds try different paths, so no path is tried twice. */
  lemma AttemptsDistinct(p: string, i: nat, j: nat)
    requires i != j
    ensures Attempt(p, i) != Attempt(p, j)
  {
    if i != 0 && j != 0 && Candidate(p, i) == Candidate(p, j) {
      var a, c := Stem(p), Candidate(p, i);
      assert |Tag(i)| == |Tag(j)|;
      assert Tag(i) == c[|a|..|a| + |Tag(i)|] == Tag(j);
      TagInjective(i, j);
    }
  }

  /** The first `n + 1` attempts, as a set. */
  ghost function Attempts(p: string, n: nat): set<string> {
    if n == 0 then {p} else Attempts(p, n - 1) + {Attempt(p, n)}
  }

  lemma {:induction false} AttemptsSize(p: string, n: nat)
    ensures |Attempts(p, n)| == n + 1
    ensures forall j :: 0 <= j <= n ==> Attempt(p, j) in Attempts(p, n)
  {
    if n > 0 {
      AttemptsSize(p, n - 1);
      AttemptNotEarlier(p, n, n - 1);
    }
  }

  lemma {:induction false} AttemptNotEarlier(p: string, n: nat, m: nat)
    requires m < n
    ensures Attempt(p, n) !in Attempts(p, m)
  {
    AttemptsDistinct(p, n, m);
    if m > 0 {
      AttemptNotEarlier(p, n, m - 1);
    }
  }

  /** When the first `n + 1` attempts all exist, the file system holds at least `n + 1` paths:
      this is what bounds the loop. */
  lemma AttemptsFit(existing: set<string>, p: string, n: nat)
    requires forall j :: 0 <= j <= n ==> Attempt(p, j) in existing
    ensures n + 1 <= |existing|
  {
    var tried := Attempts(p, n);
    AttemptsSize(p, n);
    AttemptsWithin(existing, p, n);
    assert existing == tried + (existing - tried);
  }

  lemma {:induction false} AttemptsWithin(existing: set<string>, p: string, n: nat)
    requires forall j :: 0 <= j <= n ==> Attempt(p, j) in existing
    ensures Attempts(p, n) <= existing
  {
    assert Attempt(p, n) in existing && Attempt(p, 0) == p;
    if n > 0 {
      AttemptsWithin(existing, p, n - 1);
    }
  }

  /** `uniquify(path)`: while the path exists, try `stem + " (counter)" + ext` with counter
      1, 2, ...; return the first path that does not exist. `rounds` is the number of
      iterations, a ghost witness of which candidate was returned. */
  method Uniquify(existing: set<string>, path: string) returns (r: string, ghost rounds: nat)
    ensures r !in existing
    ensures IsFirstFree(existing, path, rounds) && r == Attempt(path, rounds)
  {
    var split := SplitExt(path);
    var filename, extension := split.0, split.1;
    var counter: nat := 1;
    r := path;
    rounds := 0;
    while r in existing
      invariant filename == Stem(path) && extension == Ext(path)
      invariant counter == rounds + 1 <= |existing| + 1
      invariant r == Attempt(path, rounds)
      invariant forall j :: 0 <= j < rounds ==> Attempt(path, j) in existing
      decreases |existing| - rounds
    {
      AttemptsFit(existing, path, rounds);
      var tag := " (" + DecimalString(counter) + ")";
      r := filename + tag + extension;
      counter := counter + 1;
      rounds := rounds + 1;
    }
  }

  /** A path that does not exist comes back unchanged. */
  lemma AbsentPathUnchanged(existing: set<string>, p: string, k: nat)
    requires p !in existing && IsFirstFree(existing, p, k)
    ensures k == 0 && Attempt(p, k) == p
  {
    assert Attempt(p, 0) == p;
  }

  /** The number of rounds is determined by the file system and the path. */
  lemma FirstFreeUnique(existing: set<string>, p: string, k1: nat, k2: nat)
    requires IsFirstFree(existing, p, k1) && IsFirstFree(existing, p, k2)
    ensures k1 == k2
  {
  }

  /** Never more rounds than there are paths. */
  lemma RoundsBounded(existing: set<string>, p: string, k: nat)
    requires IsFirstFree(existing, p, k)
    ensures k <= |existing|
  {
    if k > 0 {
      AttemptsFit(existing, p, k - 1);
    }
  }

  /** Suffixes do not stack: splitting any candidate gives the original extension back, and its
      stem is the original stem followed by one tag. */
  lemma CandidateSplits(p: string, n: nat)
    ensures SplitExt(Candidate(p, n)) == (Stem(p) + Tag(n), Ext(p))
  {
    SplitExtInsert(p, Tag(n));
  }

  /** Saving the returned path and asking again for the same original path yields a later
      counter, and every counter in between is taken. */
  lemma NextCallUsesLaterCounter(existing: set<string>, p: string, k: nat, k': nat)
    requires IsFirstFree(existing, p, k)
    requires IsFirstFree(existing + {Attempt(p, k)}, p, k')
    ensures k' > k
    ensures forall j :: k < j < k' ==> Attempt(p, j) in existing
  {
    var saved := existing + {Attempt(p, k)};
    assert Attempt(p, k) in saved;
    forall j | k < j < k' ensures Attempt(p, j) in existing {
      assert Attempt(p, j) in saved;
      AttemptsDistinct(p, j, k);
    }
  }
}
