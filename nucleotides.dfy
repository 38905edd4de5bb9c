/**
 * Rosalind "Counting DNA Nucleotides": how often each of A, C, G and T occurs in a DNA
 * string. The test string holds nmb_BP copies of each base, shuffled in place; the counts
 * are taken with str.count, by incrementing a dictionary keyed by the four bases, and
 * with collections.Counter. The random draws of the shuffle are a parameter; the timing
 * and printing are not part of the model.
 */
module Nucleotides {
  import opened Wrappers

  /** The keys of the counting dictionary, in the order of the answer. */
  const Bases: seq<char> := ['A', 'C', 'G', 'T']

  // ---------------------------------------------------------------------------
  // str.count
  // ---------------------------------------------------------------------------

  /** s.count(c) for a one-character c. */
  function Count(s: string, c: char): (n: nat)
    ensures n <= |s|
  {
    if s == [] then 0 else Count(s[..|s| - 1], c) + (if s[|s| - 1] == c then 1 else 0)
  }

  /** The count is the multiplicity of the character in the string. */
  lemma {:induction false} CountIsMultiplicity(s: string, c: char)
    ensures Count(s, c) == multiset(s)[c]
  {
    if s != [] {
      CountIsMultiplicity(s[..|s| - 1], c);
      assert s == s[..|s| - 1] + [s[|s| - 1]];
    }
  }

  /** Counting is additive over concatenation. */
  lemma CountAppend(a: string, b: string, c: char)
    ensures Count(a + b, c) == Count(a, c) + Count(b, c)
  {
    CountIsMultiplicity(a + b, c);
    CountIsMultiplicity(a, c);
    CountIsMultiplicity(b, c);
  }

  /** Method 1: [s.count("A"), s.count("C"), s.count("G"), s.count("T")]. */
  function Counts(s: string): (r: seq<nat>)
    ensures |r| == 4 && forall k :: 0 <= k < 4 ==> r[k] == Count(s, Bases[k])
  {
    [Count(s, 'A'), Count(s, 'C'), Count(s, 'G'), Count(s, 'T')]
  }

  predicate IsDna(s: string) {
    forall i :: 0 <= i < |s| ==> s[i] in Bases
  }

  /** On a string of bases only, the four counts add up to its length. */
  lemma {:induction false} CountsSumToLength(s: string)
    requires IsDna(s)
    ensures Count(s, 'A') + Count(s, 'C') + Count(s, 'G') + Count(s, 'T') == |s|
  {
    if s != [] {
      var front := s[..|s| - 1];
      assert forall i :: 0 <= i < |front| ==> front[i] == s[i];
      CountsSumToLength(front);
    }
  }

  // ---------------------------------------------------------------------------
  // Method 2: the dictionary loop
  // ---------------------------------------------------------------------------

  /** nucleotideDict[nucleotide] += 1 for each character in turn; a character that is not
    * one of the four keys raises KeyError. On success every key holds the count that
    * str.count gives. */
  method DictCount(s: string) returns (r: Result<map<char, int>>)
    ensures r.Ok? <==> IsDna(s)
    ensures r.Err? ==> r.error == KeyError
    ensures r.Ok? ==> r.value.Keys == {'A', 'C', 'G', 'T'}
    ensures r.Ok? ==> forall k :: 0 <= k < 4 ==> r.value[Bases[k]] == Count(s, Bases[k])
  {
    var counts := map['A' := 0, 'C' := 0, 'G' := 0, 'T' := 0];
    var i := 0;
    while i < |s|
      invariant 0 <= i <= |s|
      invariant counts.Keys == {'A', 'C', 'G', 'T'}
      invariant IsDna(s[..i])
      invariant forall k :: 0 <= k < 4 ==> counts[Bases[k]] == Count(s[..i], Bases[k])
    {
      var nucleotide := s[i];
      if nucleotide !in counts {
        assert !IsDna(s);
        return Err(KeyError);
      }
      assert s[..i + 1][..i] == s[..i];
      counts := counts[nucleotide := counts[nucleotide] + 1];
      i := i + 1;
    }
    assert s[..i] == s;
    r := Ok(counts);
  }

  // ---------------------------------------------------------------------------
  // Method 3: collections.Counter
  // ---------------------------------------------------------------------------

  /** collections.Counter(s): every character that occurs in s, with its count. */
  function Counter(s: string): map<char, nat>
  {
    map c | c in s :: Count(s, c)
  }

  /** A character occurs exactly when its count is positive. */
  lemma CountPositive(s: string, c: char)
    ensures Count(s, c) > 0 <==> c in s
  {
    CountIsMultiplicity(s, c);
  }

  /** The Counter holds the characters that occur, each with the count str.count gives; on a
    * DNA string its keys are bases, and a base it lacks has count 0, so it agrees with the
    * other two methods. */
  lemma CounterMeaning(s: string)
    ensures forall c :: c in Counter(s) <==> Count(s, c) > 0
    ensures forall c :: c in Counter(s) ==> Counter(s)[c] == Count(s, c)
    ensures IsDna(s) ==> Counter(s).Keys <= {'A', 'C', 'G', 'T'}
    ensures forall k :: 0 <= k < 4 ==>
      Counts(s)[k] == if Bases[k] in Counter(s) then Counter(s)[Bases[k]] else 0
  {
    forall c
      ensures c in Counter(s) <==> Count(s, c) > 0
    {
      CountPositive(s, c);
    }
  }

  // ---------------------------------------------------------------------------
  // The test string
  // ---------------------------------------------------------------------------

  /** [c] * n. */
  function Repeat(c: char, n: nat): (s: string)
    ensures |s| == n && forall i :: 0 <= i < n ==> s[i] == c
  {
    if n == 0 then [] else Repeat(c, n - 1) + [c]
  }

  /** ["A"]*n + ["C"]*n + ["G"]*n + ["T"]*n, before the shuffle. */
  function Unshuffled(n: nat): (s: string)
    ensures |s| == 4 * n
  {
    Repeat('A', n) + Repeat('C', n) + Repeat('G', n) + Repeat('T', n)
  }

  lemma {:induction false} RepeatCount(c: char, n: nat, d: char)
    ensures Count(Repeat(c, n), d) == if c == d then n else 0
  {
    if n > 0 {
      RepeatCount(c, n - 1, d);
      assert Repeat(c, n)[..n - 1] == Repeat(c, n - 1);
    }
  }

  /** Before the shuffle each base occurs n times. */
  lemma UnshuffledCounts(n: nat)
    ensures forall k :: 0 <= k < 4 ==> Count(Unshuffled(n), Bases[k]) == n
  {
    forall k | 0 <= k < 4
      ensures Count(Unshuffled(n), Bases[k]) == n
    {
      var d := Bases[k];
      RepeatCount('A', n, d);
      RepeatCount('C', n, d);
      RepeatCount('G', n, d);
      RepeatCount('T', n, d);
      CountAppend(Repeat('A', n), Repeat('C', n), d);
      CountAppend(Repeat('A', n) + Repeat('C', n), Repeat('G', n), d);
      CountAppend(Repeat('A', n) + Repeat('C', n) + Repeat('G', n), Repeat('T', n), d);
    }
  }

  /** random.shuffle: from the last position down to 1, position i is swapped with
    * position draws[i], a draw in 0..i. */
  method Shuffle(a: array<char>, draws: seq<nat>)
    requires |draws| == a.Length && forall i :: 0 < i < |draws| ==> draws[i] <= i
    modifies a
    ensures multiset(a[..]) == multiset(old(a[..]))
  {
    var i := a.Length - 1;
    while i > 0
      invariant -1 <= i < a.Length
      invariant multiset(a[..]) == multiset(old(a[..]))
    {
      var j := draws[i];
      a[i], a[j] := a[j], a[i];
      i := i - 1;
    }
  }

  /** A reordering keeps every count. */
  lemma PermutationCounts(s: string, t: string)
    requires multiset(s) == multiset(t)
    ensures forall c :: Count(s, c) == Count(t, c)
  {
    forall c
      ensures Count(s, c) == Count(t, c)
    {
      CountIsMultiplicity(s, c);
      CountIsMultiplicity(t, c);
    }
  }

  /** testNucleotideStr: the shuffled list joined into a string of 4n bases, each occurring
    * n times whatever the draws. */
  method TestString(n: nat, draws: seq<nat>) returns (s: string)
    requires |draws| == 4 * n && forall i :: 0 < i < |draws| ==> draws[i] <= i
    ensures |s| == 4 * n && IsDna(s)
    ensures forall k :: 0 <= k < 4 ==> Count(s, Bases[k]) == n
  {
    var u := Unshuffled(n);
    var a := new char[4 * n](i requires 0 <= i < 4 * n => u[i]);
    assert a[..] == u;
    Shuffle(a, draws);
    s := a[..];
    PermutationCounts(s, u);
    UnshuffledCounts(n);
    assert IsDna(s) by {
      forall i | 0 <= i < |s|
        ensures s[i] in Bases
      {
        assert s[i] in multiset(u);
        var j :| 0 <= j < |u| && u[j] == s[i];
        UnshuffledBases(n, j);
      }
    }
  }

  lemma UnshuffledBases(n: nat, j: nat)
    requires j < 4 * n
    ensures Unshuffled(n)[j] in Bases
  {
    var u := Unshuffled(n);
    var ac := Repeat('A', n) + Repeat('C', n);
    var acg := ac + Repeat('G', n);
    assert u == acg + Repeat('T', n);
    if j < n {
      assert u[j] == Repeat('A', n)[j];
    } else if j < 2 * n {
      assert u[j] == Repeat('C', n)[j - n];
    } else if j < 3 * n {
      assert u[j] == Repeat('G', n)[j - 2 * n];
    } else {
      assert u[j] == Repeat('T', n)[j - 3 * n];
    }
  }

  // ---------------------------------------------------------------------------
  // The sample dataset
  // ---------------------------------------------------------------------------

  /** The sample dataset of the problem statement,
    * AGCTTTTCATTCTGACTGCAACGGGCAATATGTCTCTGTGTGGATTAAAAAAAGAGTGTCTGATAGCAGC,
    * written in pieces of seven bases. */
  const Sample: string :=
    "AGCTTTT" + "CATTCTG" + "ACTGCAA" + "CGGGCAA" + "TATGTCT" +
    "CTGTGTG" + "GATTAAA" + "AAAAGAG" + "TGTCTGA" + "TAGCAGC"

  /** The counts of a concatenation are the sums of the parts' counts. */
  lemma CountsAppend(a: string, b: string)
    ensures Counts(a + b) == [Counts(a)[0] + Counts(b)[0], Counts(a)[1] + Counts(b)[1],
                              Counts(a)[2] + Counts(b)[2], Counts(a)[3] + Counts(b)[3]]
  {
    CountAppend(a, b, 'A');
    CountAppend(a, b, 'C');
    CountAppend(a, b, 'G');
    CountAppend(a, b, 'T');
  }

  /** The counts of a short piece, read off its multiset. */
  lemma CountsOfPiece(s: string)
    ensures Counts(s) == [multiset(s)['A'], multiset(s)['C'], multiset(s)['G'], multiset(s)['T']]
  {
    CountIsMultiplicity(s, 'A');
    CountIsMultiplicity(s, 'C');
    CountIsMultiplicity(s, 'G');
    CountIsMultiplicity(s, 'T');
  }

  lemma Piece0()
    ensures Counts("AGCTTTT") == [1, 1, 1, 4]
  {
    CountsOfPiece("AGCTTTT");
  }

  lemma Piece1()
    ensures Counts("CATTCTG") == [1, 2, 1, 3]
  {
    CountsOfPiece("CATTCTG");
  }

  lemma Piece2()
    ensures Counts("ACTGCAA") == [3, 2, 1, 1]
  {
    CountsOfPiece("ACTGCAA");
  }

  lemma Piece3()
    ensures Counts("CGGGCAA") == [2, 2, 3, 0]
  {
    CountsOfPiece("CGGGCAA");
  }

  lemma Piece4()
    ensures Counts("TATGTCT") == [1, 1, 1, 4]
  {
    CountsOfPiece("TATGTCT");
  }

  lemma Piece5()
    ensures Counts("CTGTGTG") == [0, 1, 3, 3]
  {
    CountsOfPiece("CTGTGTG");
  }

  lemma Piece6()
    ensures Counts("GATTAAA") == [4, 0, 1, 2]
  {
    CountsOfPiece("GATTAAA");
  }

  lemma Piece7()
    ensures Counts("AAAAGAG") == [5, 0, 2, 0]
  {
    CountsOfPiece("AAAAGAG");
  }

  lemma Piece8()
    ensures Counts("TGTCTGA") == [1, 1, 2, 3]
  {
    CountsOfPiece("TGTCTGA");
  }

  lemma Piece9()
    ensures Counts("TAGCAGC") == [2, 2, 2, 1]
  {
    CountsOfPiece("TAGCAGC");
  }

  /** The sample output: 20 12 17 21. */
  lemma SampleCounts()
    ensures Counts(Sample) == [20, 12, 17, 21]
  {
    Piece0();
    Piece1();
    Piece2();
    Piece3();
    Piece4();
    Piece5();
    Piece6();
    Piece7();
    Piece8();
    Piece9();
    CountsAppend("AGCTTTT", "CATTCTG");
    CountsAppend("AGCTTTT" + "CATTCTG", "ACTGCAA");
    CountsAppend("AGCTTTT" + "CATTCTG" + "ACTGCAA", "CGGGCAA");
    CountsAppend("AGCTTTT" + "CATTCTG" + "ACTGCAA" + "CGGGCAA", "TATGTCT");
    CountsAppend("AGCTTTT" + "CATTCTG" + "ACTGCAA" + "CGGGCAA" + "TATGTCT", "CTGTGTG");
    CountsAppend("AGCTTTT" + "CATTCTG" + "ACTGCAA" + "CGGGCAA" + "TATGTCT" + "CTGTGTG", "GATTAAA");
    CountsAppend("AGCTTTT" + "CATTCTG" + "ACTGCAA" + "CGGGCAA" + "TATGTCT" + "CTGTGTG" + "GATTAAA", "AAAAGAG");
    CountsAppend("AGCTTTT" + "CATTCTG" + "ACTGCAA" + "CGGGCAA" + "TATGTCT" + "CTGTGTG" + "GATTAAA" + "AAAAGAG", "TGTCTGA");
    CountsAppend("AGCTTTT" + "CATTCTG" + "ACTGCAA" + "CGGGCAA" + "TATGTCT" + "CTGTGTG" + "GATTAAA" + "AAAAGAG" + "TGTCTGA", "TAGCAGC");
  }
}
