/** `mainFunction` and `calculateOverallSimilarityPercentage` of
    src/libs/Diff.js, whose line numbers the comments below cite: pair every
    non-image file of the first tree with the first file of the second tree at
    the same place relative to its root, score each pair, and aggregate.

    Reading a file and tokenizing its text is the parameter `tokensOf`; the
    real square root is the parameter `sqrt`. */
module Comparison {
  import opened Wrappers
  import opened Paths
  import opened Images
  import opened Similarity
  import opened Walker

  /** The test of lines 153-157: the same path relative to each root, the same
      base name and the same extension. */
  predicate SamePlace(rootA: Path, file1: Path, rootB: Path, file2: Path)
  {
    && Relative(rootA, file1) == Relative(rootB, file2)
    && Basename(file1) == Basename(file2)
    && ExtName(Basename(file1)) == ExtName(Basename(file2))
  }

  /** A file and the file at the same place in the other tree are both images
      or neither, so the match of a considered file is never an image. */
  lemma SamePlaceKeepsImage(rootA: Path, file1: Path, rootB: Path, file2: Path)
    requires SamePlace(rootA, file1, rootB, file2)
    ensures IsImageFile(file1) == IsImageFile(file2)
  {
  }

  /** For files that lie under their roots, as the walker's always do, the
      base-name and extension checks add nothing: two files are at the same
      place exactly when what follows their roots is the same. */
  lemma {:induction false} SamePlaceUnderRoots(rootA: Path, rel1: Path, rootB: Path, rel2: Path)
    requires |rel1| > 0 && |rel2| > 0
    ensures SamePlace(rootA, rootA + rel1, rootB, rootB + rel2) <==> rel1 == rel2
  {
    RelativeUnderRoot(rootA, rel1);
    RelativeUnderRoot(rootB, rel2);
    assert Basename(rootA + rel1) == Basename(rel1);
    assert Basename(rootB + rel2) == Basename(rel2);
  }

  /** The callback of the `files2.find(...)` of line 148: is `file2` at the
      same place as `file1`? */
  function AtSamePlace(rootA: Path, file1: Path, rootB: Path): Path -> bool
  {
    file2 => SamePlace(rootA, file1, rootB, file2)
  }

  /** The `files2.find(...)` of line 148: the position in `filesB` of the
      first file at the same place as `file1`, if any. */
  function FindMatch(rootA: Path, file1: Path, rootB: Path, filesB: seq<Path>): (r: Option<nat>)
    ensures r.Some? ==> r.value < |filesB|
  {
    FindFirst(filesB, AtSamePlace(rootA, file1, rootB))
  }

  /** `Array.prototype.find`, by position: the index of the first element of
      `s` that `matches` accepts, if any. */
  function FindFirst<T>(s: seq<T>, matches: T -> bool): (r: Option<nat>)
    ensures r.Some? ==> r.value < |s|
  {
    if s == [] then None
    else if matches(s[0]) then Some(0)
    else
      var r := FindFirst(s[1..], matches);
      if r.Some? then Some(r.value + 1) else None
  }

  /** `find` yields an element it accepts with none accepted before it, and
      yields nothing only when it accepts no element. */
  lemma {:induction false} FindFirstIsFirst<T>(s: seq<T>, matches: T -> bool)
    ensures var r := FindFirst(s, matches);
      && (r.Some? ==> matches(s[r.value]))
      && (r.Some? ==> forall k :: 0 <= k < r.value ==> !matches(s[k]))
      && (r.None? ==> forall k :: 0 <= k < |s| ==> !matches(s[k]))
  {
    if s != [] && !matches(s[0]) {
      FindFirstIsFirst(s[1..], matches);
      assert forall k :: 0 < k < |s| ==> s[k] == s[1..][k - 1];
    }
  }

  /** The search yields the first file at the same place, and yields nothing
      only when no file is at the same place. */
  lemma FindMatchIsFirst(rootA: Path, file1: Path, rootB: Path, filesB: seq<Path>)
    ensures var r := FindMatch(rootA, file1, rootB, filesB);
      && (r.Some? ==> SamePlace(rootA, file1, rootB, filesB[r.value]))
      && (r.Some? ==> forall k :: 0 <= k < r.value ==> !SamePlace(rootA, file1, rootB, filesB[k]))
      && (r.None? ==> forall k :: 0 <= k < |filesB| ==> !SamePlace(rootA, file1, rootB, filesB[k]))
  {
    FindFirstIsFirst(filesB, AtSamePlace(rootA, file1, rootB));
  }

  /** The files of the first tree that take part in the comparison: all but
      the images, in listing order, each as often as it is listed. */
  function NonImages(files: seq<Path>): (r: seq<Path>)
    ensures |r| <= |files|
    ensures forall f :: f in r <==> f in files && !IsImageFile(f)
    ensures forall f :: multiset(r)[f] == if IsImageFile(f) then 0 else multiset(files)[f]
  {
    Filter(files, f => !IsImageFile(f))
  }

  /** The elements of `s` that `keep` accepts, in order. */
  function Filter<T(!new)>(s: seq<T>, keep: T -> bool): (r: seq<T>)
    ensures |r| <= |s|
    ensures forall x :: x in r <==> x in s && keep(x)
    ensures forall x :: multiset(r)[x] == if keep(x) then multiset(s)[x] else 0
  {
    if s == [] then []
    else
      var init, last := s[..|s| - 1], s[|s| - 1];
      assert s == init + [last];
      assert multiset(s) == multiset(init) + multiset{last};
      var r := Filter(init, keep);
      if keep(last) then
        assert multiset(r + [last]) == multiset(r) + multiset{last};
        r + [last]
      else r
  }

  /** How the body of the loop (lines 142-171) disposes of one file of the
      first tree: an image is skipped, a file without a match is counted, and a
      file with a match is compared with the first one. */
  datatype Outcome = Skipped | Unmatched | Paired(file1: Path, file2: Path)

  function OutcomeOf(rootA: Path, file1: Path, rootB: Path, filesB: seq<Path>): (o: Outcome)
    ensures o.Skipped? <==> IsImageFile(file1)
    ensures o.Paired? ==> o.file1 == file1 && o.file2 in filesB && SamePlace(rootA, file1, rootB, o.file2)
  {
    FindMatchIsFirst(rootA, file1, rootB, filesB);
    if IsImageFile(file1) then Skipped
    else match FindMatch(rootA, file1, rootB, filesB)
      case None => Unmatched
      case Some(j) => Paired(file1, filesB[j])
  }

  /** The outcome of every file of the first tree, in listing order. */
  function Outcomes(rootA: Path, filesA: seq<Path>, rootB: Path, filesB: seq<Path>): seq<Outcome>
  {
    MapSeq(filesA, file1 => OutcomeOf(rootA, file1, rootB, filesB))
  }

  /** `f` applied to each element of `s`, in order. */
  function MapSeq<A, B>(s: seq<A>, f: A -> B): (r: seq<B>)
    ensures |r| == |s|
    ensures forall k :: 0 <= k < |s| ==> r[k] == f(s[k])
  {
    seq(|s|, k requires 0 <= k < |s| => f(s[k]))
  }

  lemma MapSeqAppend<A, B>(s: seq<A>, t: seq<A>, f: A -> B)
    ensures MapSeq(s + t, f) == MapSeq(s, f) + MapSeq(t, f)
  {
    var all, r := s + t, MapSeq(s, f) + MapSeq(t, f);
    forall k | 0 <= k < |all|
      ensures MapSeq(all, f)[k] == r[k]
    {
      if k < |s| {
        assert all[k] == s[k];
      } else {
        assert all[k] == t[k - |s|];
      }
    }
  }

  /** What the loop has counted so far: the files it considered
      (`sameDirectoryCount`) and the pairs it compared, in order. */
  datatype Matching = Matching(considered: nat, pairs: seq<(Path, Path)>)

  /** The counter updates of lines 160-171 for one outcome. */
  function Record(m: Matching, o: Outcome): (r: Matching)
    ensures m.pairs <= r.pairs
    ensures |r.pairs| - |m.pairs| <= r.considered - m.considered <= 1
  {
    match o
    case Skipped => m
    case Unmatched => Matching(m.considered + 1, m.pairs)
    case Paired(file1, file2) => Matching(m.considered + 1, m.pairs + [(file1, file2)])
  }

  /** The counts after a sequence of outcomes, recorded from the first. */
  function Tallied(outcomes: seq<Outcome>): (r: Matching)
    ensures |r.pairs| <= r.considered <= |outcomes|
  {
    if outcomes == [] then Matching(0, [])
    else Record(Tallied(outcomes[..|outcomes| - 1]), outcomes[|outcomes| - 1])
  }

  /** What the whole loop counts for the two listings. */
  function MatchAll(rootA: Path, filesA: seq<Path>, rootB: Path, filesB: seq<Path>): (r: Matching)
    ensures |r.pairs| <= r.considered <= |filesA|
  {
    Tallied(Outcomes(rootA, filesA, rootB, filesB))
  }

  lemma TalliedStep(outcomes: seq<Outcome>, i: nat)
    requires i < |outcomes|
    ensures Tallied(outcomes[..i + 1]) == Record(Tallied(outcomes[..i]), outcomes[i])
  {
    assert outcomes[..i + 1][..i] == outcomes[..i];
  }

  /** Recording outcomes one after the other: the counts for a concatenation
      are the counts for each part, added up, with the pairs in order. */
  lemma {:induction false} TalliedAppend(outcomes: seq<Outcome>, more: seq<Outcome>)
    ensures var t1, t2 := Tallied(outcomes), Tallied(more);
      Tallied(outcomes + more) == Matching(t1.considered + t2.considered, t1.pairs + t2.pairs)
    decreases |more|
  {
    if more == [] {
      assert outcomes + more == outcomes;
    } else {
      var init, last := more[..|more| - 1], more[|more| - 1];
      var all := outcomes + more;
      assert all[..|all| - 1] == outcomes + init;
      TalliedAppend(outcomes, init);
      assert Tallied(all) == Record(Tallied(outcomes + init), last);
      if last.Paired? {
        var t1, t2 := Tallied(outcomes), Tallied(init);
        assert t1.pairs + t2.pairs + [(last.file1, last.file2)] == t1.pairs + (t2.pairs + [(last.file1, last.file2)]);
      }
    }
  }

  lemma OutcomesAppend(rootA: Path, filesA: seq<Path>, more: seq<Path>, rootB: Path, filesB: seq<Path>)
    ensures Outcomes(rootA, filesA + more, rootB, filesB) == Outcomes(rootA, filesA, rootB, filesB) + Outcomes(rootA, more, rootB, filesB)
  {
    MapSeqAppend(filesA, more, file1 => OutcomeOf(rootA, file1, rootB, filesB));
  }

  /** The files of the first tree are handled one at a time and in listing
      order: the outcome for a concatenation is the outcome for each part, put
      together. */
  lemma MatchAllAppend(rootA: Path, filesA: seq<Path>, more: seq<Path>, rootB: Path, filesB: seq<Path>)
    ensures var m1, m2 := MatchAll(rootA, filesA, rootB, filesB), MatchAll(rootA, more, rootB, filesB);
      MatchAll(rootA, filesA + more, rootB, filesB) == Matching(m1.considered + m2.considered, m1.pairs + m2.pairs)
  {
    OutcomesAppend(rootA, filesA, more, rootB, filesB);
    TalliedAppend(Outcomes(rootA, filesA, rootB, filesB), Outcomes(rootA, more, rootB, filesB));
  }

  /** The last file of a listing is recorded after all the others. */
  lemma MatchAllLast(rootA: Path, filesA: seq<Path>, rootB: Path, filesB: seq<Path>)
    requires filesA != []
    ensures MatchAll(rootA, filesA, rootB, filesB)
         == Record(MatchAll(rootA, filesA[..|filesA| - 1], rootB, filesB), OutcomeOf(rootA, filesA[|filesA| - 1], rootB, filesB))
  {
    var init, last := filesA[..|filesA| - 1], filesA[|filesA| - 1];
    assert filesA == init + [last];
    OutcomesAppend(rootA, init, [last], rootB, filesB);
    var os := Outcomes(rootA, filesA, rootB, filesB);
    assert os[..|os| - 1] == Outcomes(rootA, init, rootB, filesB);
  }

  /** Every non-image file is considered, and at most one pair comes of each. */
  lemma {:induction false} MatchAllCounts(rootA: Path, filesA: seq<Path>, rootB: Path, filesB: seq<Path>)
    ensures var m := MatchAll(rootA, filesA, rootB, filesB);
      m.considered == |NonImages(filesA)| && |m.pairs| <= m.considered
  {
    if filesA != [] {
      var init := filesA[..|filesA| - 1];
      ConsideredStep(rootA, filesA, rootB, filesB);
      MatchAllCounts(rootA, init, rootB, filesB);
      assert |NonImages(filesA)| == |NonImages(init)| + if IsImageFile(filesA[|filesA| - 1]) then 0 else 1;
    }
    TalliedPairs(Outcomes(rootA, filesA, rootB, filesB));
  }

  /** One more file of the first tree is considered exactly when it is not an image. */
  lemma ConsideredStep(rootA: Path, filesA: seq<Path>, rootB: Path, filesB: seq<Path>)
    requires filesA != []
    ensures MatchAll(rootA, filesA, rootB, filesB).considered
         == MatchAll(rootA, filesA[..|filesA| - 1], rootB, filesB).considered + if IsImageFile(filesA[|filesA| - 1]) then 0 else 1
  {
    var last := filesA[|filesA| - 1];
    MatchAllLast(rootA, filesA, rootB, filesB);
    if IsImageFile(last) {
      assert OutcomeOf(rootA, last, rootB, filesB) == Skipped;
    } else {
      assert !OutcomeOf(rootA, last, rootB, filesB).Skipped?;
    }
  }

  /** Every compared pair joins a non-image file of the first tree to the first
      file of the second tree at the same place. */
  lemma {:induction false} MatchedPairsSound(rootA: Path, filesA: seq<Path>, rootB: Path, filesB: seq<Path>)
    ensures forall p :: p in MatchAll(rootA, filesA, rootB, filesB).pairs ==>
      && p.0 in filesA && !IsImageFile(p.0)
      && FindMatch(rootA, p.0, rootB, filesB).Some?
      && p.1 == filesB[FindMatch(rootA, p.0, rootB, filesB).value]
      && SamePlace(rootA, p.0, rootB, p.1)
  {
    if filesA != [] {
      var init, last := filesA[..|filesA| - 1], filesA[|filesA| - 1];
      assert filesA == init + [last];
      MatchAllLast(rootA, filesA, rootB, filesB);
      MatchedPairsSound(rootA, init, rootB, filesB);
      FindMatchIsFirst(rootA, last, rootB, filesB);
    }
  }

  /** A non-image file of the first tree that has a file at the same place in
      the second tree is compared with the first such file. */
  lemma {:induction false} MatchedPairsComplete(rootA: Path, filesA: seq<Path>, rootB: Path, filesB: seq<Path>, i: nat, j: nat)
    requires i < |filesA| && j < |filesB|
    requires !IsImageFile(filesA[i]) && SamePlace(rootA, filesA[i], rootB, filesB[j])
    ensures FindMatch(rootA, filesA[i], rootB, filesB).Some?
    ensures (filesA[i], filesB[FindMatch(rootA, filesA[i], rootB, filesB).value]) in MatchAll(rootA, filesA, rootB, filesB).pairs
  {
    FindMatchIsFirst(rootA, filesA[i], rootB, filesB);
    MatchAllLast(rootA, filesA, rootB, filesB);
    var init := filesA[..|filesA| - 1];
    if i < |filesA| - 1 {
      assert init[i] == filesA[i];
      MatchedPairsComplete(rootA, init, rootB, filesB, i, j);
    }
  }

  /** Only a non-image file without a file at the same place in the second
      tree is left unmatched. */
  lemma UnmatchedMeans(rootA: Path, file1: Path, rootB: Path, filesB: seq<Path>)
    ensures OutcomeOf(rootA, file1, rootB, filesB).Unmatched?
        <==> !IsImageFile(file1) && forall k :: 0 <= k < |filesB| ==> !SamePlace(rootA, file1, rootB, filesB[k])
  {
    FindMatchIsFirst(rootA, file1, rootB, filesB);
  }

  /** No outcome of the sequence is `Unmatched`. */
  predicate NoneUnmatched(outcomes: seq<Outcome>)
  {
    forall k :: 0 <= k < |outcomes| ==> !outcomes[k].Unmatched?
  }

  /** At most one pair comes of each considered file, and one comes of every
      considered file exactly when no file is left unmatched. */
  lemma {:induction false} TalliedPairs(outcomes: seq<Outcome>)
    ensures |Tallied(outcomes).pairs| <= Tallied(outcomes).considered
    ensures |Tallied(outcomes).pairs| == Tallied(outcomes).considered <==> NoneUnmatched(outcomes)
  {
    if outcomes != [] {
      var init := outcomes[..|outcomes| - 1];
      TalliedPairs(init);
      assert forall k :: 0 <= k < |init| ==> init[k] == outcomes[k];
    }
  }

  /** Every non-image file of the first tree finds a file at the same place
      in the second. */
  predicate AllMatched(rootA: Path, filesA: seq<Path>, rootB: Path, filesB: seq<Path>)
  {
    NoneUnmatched(Outcomes(rootA, filesA, rootB, filesB))
  }

  /** Every considered file is compared exactly when every non-image file of
      the first tree finds a file at the same place in the second. */
  lemma AllMatchedIff(rootA: Path, filesA: seq<Path>, rootB: Path, filesB: seq<Path>)
    ensures var m := MatchAll(rootA, filesA, rootB, filesB);
      |m.pairs| == m.considered <==> AllMatched(rootA, filesA, rootB, filesB)
  {
    TalliedPairs(Outcomes(rootA, filesA, rootB, filesB));
  }

  /** The record `compareFiles` returns. */
  datatype FileComparison = FileComparison(file1: Path, file2: Path, similarity: real)

  /** The comparison of one pair: `compareFiles` on its two files. */
  function Compared(pair: (Path, Path), tokensOf: Path -> seq<Token>, sqrt: real -> real): FileComparison
    requires IsSqrt(sqrt)
  {
    FileComparison(pair.0, pair.1, CosineSimilarity(tokensOf(pair.0), tokensOf(pair.1), sqrt))
  }

  /** The comparisons of a sequence of pairs, in the same order. */
  function Scored(pairs: seq<(Path, Path)>, tokensOf: Path -> seq<Token>, sqrt: real -> real): (r: seq<FileComparison>)
    requires IsSqrt(sqrt)
    ensures |r| == |pairs|
  {
    if pairs == [] then []
    else Scored(pairs[..|pairs| - 1], tokensOf, sqrt) + [Compared(pairs[|pairs| - 1], tokensOf, sqrt)]
  }

  lemma ScoredAppend(pairs: seq<(Path, Path)>, pair: (Path, Path), tokensOf: Path -> seq<Token>, sqrt: real -> real)
    requires IsSqrt(sqrt)
    ensures Scored(pairs + [pair], tokensOf, sqrt) == Scored(pairs, tokensOf, sqrt) + [Compared(pair, tokensOf, sqrt)]
  {
    assert (pairs + [pair])[..|pairs|] == pairs;
  }

  /** Each comparison keeps its pair's two files and a similarity between 0
      and 1 that is the cosine similarity of their token sets. */
  lemma {:induction false} ScoredFacts(pairs: seq<(Path, Path)>, tokensOf: Path -> seq<Token>, sqrt: real -> real)
    requires IsSqrt(sqrt)
    ensures forall k :: 0 <= k < |pairs| ==>
      && Scored(pairs, tokensOf, sqrt)[k].file1 == pairs[k].0
      && Scored(pairs, tokensOf, sqrt)[k].file2 == pairs[k].1
      && Scored(pairs, tokensOf, sqrt)[k].similarity == CosineSimilarity(tokensOf(pairs[k].0), tokensOf(pairs[k].1), sqrt)
      && 0.0 <= Scored(pairs, tokensOf, sqrt)[k].similarity <= 1.0
  {
    if pairs != [] {
      var init, last := pairs[..|pairs| - 1], pairs[|pairs| - 1];
      var scored := Scored(pairs, tokensOf, sqrt);
      ScoredFacts(init, tokensOf, sqrt);
      assert scored == Scored(init, tokensOf, sqrt) + [Compared(last, tokensOf, sqrt)];
      forall k | 0 <= k < |pairs|
        ensures && scored[k].file1 == pairs[k].0
                && scored[k].file2 == pairs[k].1
                && scored[k].similarity == CosineSimilarity(tokensOf(pairs[k].0), tokensOf(pairs[k].1), sqrt)
                && 0.0 <= scored[k].similarity <= 1.0
      {
        if k < |init| {
          assert scored[k] == Scored(init, tokensOf, sqrt)[k] && pairs[k] == init[k];
        } else {
          assert scored[k] == Compared(last, tokensOf, sqrt) && pairs[k] == last;
        }
      }
    }
  }

  /** The sum of the similarities, added up in order. */
  function TotalScore(comparisons: seq<FileComparison>): real
  {
    if comparisons == [] then 0.0
    else TotalScore(comparisons[..|comparisons| - 1]) + comparisons[|comparisons| - 1].similarity
  }

  lemma TotalScoreAppend(comparisons: seq<FileComparison>, c: FileComparison)
    ensures TotalScore(comparisons + [c]) == TotalScore(comparisons) + c.similarity
  {
    assert (comparisons + [c])[..|comparisons|] == comparisons;
  }

  /** With every similarity between 0 and 1, the total lies between 0 and the
      number of comparisons, and reaches that number exactly when every
      similarity is 1. */
  lemma {:induction false} TotalScoreBounds(comparisons: seq<FileComparison>)
    requires forall k :: 0 <= k < |comparisons| ==> 0.0 <= comparisons[k].similarity <= 1.0
    ensures 0.0 <= TotalScore(comparisons) <= |comparisons| as real
    ensures TotalScore(comparisons) == |comparisons| as real
        <==> forall k :: 0 <= k < |comparisons| ==> comparisons[k].similarity == 1.0
  {
    if comparisons != [] {
      var init, last := comparisons[..|comparisons| - 1], comparisons[|comparisons| - 1];
      assert forall k :: 0 <= k < |init| ==> init[k] == comparisons[k];
      TotalScoreBounds(init);
    }
  }

  /** Lines 58-65: read both files and score their contents. */
  method CompareFiles(file1: Path, file2: Path, tokensOf: Path -> seq<Token>, sqrt: real -> real)
    returns (comparison: FileComparison)
    requires IsSqrt(sqrt)
    ensures comparison.file1 == file1 && comparison.file2 == file2
    ensures comparison.similarity == CosineSimilarity(tokensOf(file1), tokensOf(file2), sqrt)
    ensures 0.0 <= comparison.similarity <= 1.0
  {
    var counts := CalculateCosineCounts(tokensOf(file1), tokensOf(file2));
    comparison := FileComparison(file1, file2, Value(counts, sqrt));
  }

  /** The running values of lines 134-139. */
  datatype Tally = Tally(comparisons: seq<FileComparison>, sameDirectoryCount: nat, sameDirectoryAndFileCount: nat,
                         totalSimilarityScore: real, totalSimilarityFileCount: nat)

  /** The running values agree with what the files seen so far amount to. */
  predicate Accounts(t: Tally, m: Matching, tokensOf: Path -> seq<Token>, sqrt: real -> real)
    requires IsSqrt(sqrt)
  {
    && t.comparisons == Scored(m.pairs, tokensOf, sqrt)
    && t.sameDirectoryCount == m.considered
    && t.sameDirectoryAndFileCount == t.totalSimilarityFileCount == |t.comparisons|
    && t.totalSimilarityScore == TotalScore(t.comparisons)
  }

  /** One pass of the loop body, lines 142-171. */
  method CompareNext(rootA: Path, file1: Path, rootB: Path, filesB: seq<Path>,
                     tokensOf: Path -> seq<Token>, sqrt: real -> real, t: Tally, ghost m: Matching)
    returns (next: Tally)
    requires IsSqrt(sqrt)
    requires Accounts(t, m, tokensOf, sqrt)
    ensures Accounts(next, Record(m, OutcomeOf(rootA, file1, rootB, filesB)), tokensOf, sqrt)
  {
    if IsImageFile(file1) {
      next := t;
      return;
    }
    var matchingFile2 := FindMatch(rootA, file1, rootB, filesB);
    if matchingFile2.Some? {
      var file2 := filesB[matchingFile2.value];
      var comparison := CompareFiles(file1, file2, tokensOf, sqrt);
      next := Tally(t.comparisons + [comparison], t.sameDirectoryCount + 1, t.sameDirectoryAndFileCount + 1,
                    t.totalSimilarityScore + comparison.similarity, t.totalSimilarityFileCount + 1);
      AccountsPaired(t, m, file1, file2, comparison, tokensOf, sqrt);
    } else {
      next := t.(sameDirectoryCount := t.sameDirectoryCount + 1);
      AccountsUnmatched(t, m, tokensOf, sqrt);
    }
  }

  /** Counting an unmatched file raises `sameDirectoryCount` alone. */
  lemma AccountsUnmatched(t: Tally, m: Matching, tokensOf: Path -> seq<Token>, sqrt: real -> real)
    requires IsSqrt(sqrt)
    requires Accounts(t, m, tokensOf, sqrt)
    ensures Accounts(t.(sameDirectoryCount := t.sameDirectoryCount + 1), Record(m, Unmatched), tokensOf, sqrt)
  {
  }

  /** Comparing a pair (lines 161-168) pushes its comparison, raises the three
      counts and adds its similarity to the total. */
  lemma AccountsPaired(t: Tally, m: Matching, file1: Path, file2: Path, comparison: FileComparison,
                       tokensOf: Path -> seq<Token>, sqrt: real -> real)
    requires IsSqrt(sqrt)
    requires Accounts(t, m, tokensOf, sqrt)
    requires comparison == Compared((file1, file2), tokensOf, sqrt)
    ensures Accounts(Tally(t.comparisons + [comparison], t.sameDirectoryCount + 1, t.sameDirectoryAndFileCount + 1,
                           t.totalSimilarityScore + comparison.similarity, t.totalSimilarityFileCount + 1),
                     Record(m, Paired(file1, file2)), tokensOf, sqrt)
  {
    ScoredAppend(m.pairs, (file1, file2), tokensOf, sqrt);
    TotalScoreAppend(t.comparisons, comparison);
  }

  /** The loop of lines 134-172. */
  method MatchAndScore(rootA: Path, filesA: seq<Path>, rootB: Path, filesB: seq<Path>,
                       tokensOf: Path -> seq<Token>, sqrt: real -> real)
    returns (t: Tally)
    requires IsSqrt(sqrt)
    ensures Accounts(t, MatchAll(rootA, filesA, rootB, filesB), tokensOf, sqrt)
  {
    ghost var outcomes := Outcomes(rootA, filesA, rootB, filesB);
    t := Tally([], 0, 0, 0.0, 0);
    for i := 0 to |filesA|
      invariant Accounts(t, Tallied(outcomes[..i]), tokensOf, sqrt)
    {
      TalliedStep(outcomes, i);
      t := CompareNext(rootA, filesA[i], rootB, filesB, tokensOf, sqrt, t, Tallied(outcomes[..i]));
    }
    assert outcomes[..|filesA|] == outcomes;
  }

  /** A JavaScript number as far as the percentage can produce one. */
  datatype Number = NaN | Infinity(negative: bool) | Finite(value: real)

  /** Lines 114-123: the summed similarity over the number of files
      considered, as a percentage. The count of compared files is passed but
      not used, so an unmatched file weighs in as a similarity of 0; with no
      file considered the division is 0 / 0. */
  function OverallSimilarityPercentage(totalSimilarityScore: real, totalSimilarityFileCount: nat, totalFileCount: nat): (r: Number)
    ensures r.Finite? <==> totalFileCount > 0
    ensures r.Finite? ==> r.value * totalFileCount as real == totalSimilarityScore * 100.0
    ensures r.NaN? <==> totalFileCount == 0 && totalSimilarityScore == 0.0
    ensures r.Infinity? ==> (r.negative <==> totalSimilarityScore < 0.0)
  {
    if totalFileCount == 0 then
      if totalSimilarityScore == 0.0 then NaN else Infinity(totalSimilarityScore < 0.0)
    else Finite(totalSimilarityScore / totalFileCount as real * 100.0)
  }

  /** For a total no larger than the number of compared files, itself no
      larger than the number considered, the percentage is NaN only when no
      file was considered, otherwise lies between 0 and 100, and is 100 exactly
      when the total equals the number of files considered. */
  lemma PercentageRange(totalSimilarityScore: real, totalSimilarityFileCount: nat, totalFileCount: nat)
    requires 0.0 <= totalSimilarityScore <= totalSimilarityFileCount as real
    requires totalSimilarityFileCount <= totalFileCount
    ensures var r := OverallSimilarityPercentage(totalSimilarityScore, totalSimilarityFileCount, totalFileCount);
      && (r.NaN? <==> totalFileCount == 0)
      && !r.Infinity?
      && (r.Finite? ==> 0.0 <= r.value <= 100.0)
      && (r == Finite(100.0) <==> totalFileCount > 0 && totalSimilarityScore == totalFileCount as real)
  {
    if totalFileCount > 0 {
      var n := totalFileCount as real;
      var v := totalSimilarityScore / n * 100.0;
      assert v * n == totalSimilarityScore * 100.0;
      assert v == 100.0 ==> totalSimilarityScore == n;
    }
  }

  /** One row of the report: both files relative to their roots and the
      similarity as a percentage. */
  datatype ReportRow = ReportRow(file1: Path, file2: Path, similarity: real)

  /** The object `mainFunction` resolves to. */
  datatype Report = Report(sameDirectoryCount: nat, sameDirectoryAndFileCount: nat,
                           overallSimilarityPercentage: Number, similarityFileComparisons: seq<ReportRow>)

  /** Lines 184-188: the row of one comparison. */
  function RowOf(rootA: Path, rootB: Path, c: FileComparison): (row: ReportRow)
    ensures 0.0 <= c.similarity <= 1.0 ==> 0.0 <= row.similarity <= 100.0
    ensures row.similarity == 100.0 <==> c.similarity == 1.0
  {
    ReportRow(Relative(rootA, c.file1), Relative(rootB, c.file2), c.similarity * 100.0)
  }

  /** One row per comparison, in order. */
  function Rows(rootA: Path, rootB: Path, comparisons: seq<FileComparison>): (rows: seq<ReportRow>)
    ensures |rows| == |comparisons|
    ensures forall k :: 0 <= k < |rows| ==> (rows[k].similarity == 100.0 <==> comparisons[k].similarity == 1.0)
  {
    seq(|comparisons|, k requires 0 <= k < |comparisons| => RowOf(rootA, rootB, comparisons[k]))
  }

  /** The rows of the report: each names the same relative path on both
      sides and carries a percentage between 0 and 100, which is 100 exactly
      where the similarity is 1. */
  lemma RowsFacts(rootA: Path, rootB: Path, comparisons: seq<FileComparison>)
    requires forall k :: 0 <= k < |comparisons| ==>
      && 0.0 <= comparisons[k].similarity <= 1.0
      && Relative(rootA, comparisons[k].file1) == Relative(rootB, comparisons[k].file2)
    ensures forall row :: row in Rows(rootA, rootB, comparisons) ==>
      row.file1 == row.file2 && 0.0 <= row.similarity <= 100.0
    ensures (forall row :: row in Rows(rootA, rootB, comparisons) ==> row.similarity == 100.0)
        <==> forall k :: 0 <= k < |comparisons| ==> comparisons[k].similarity == 1.0
  {
    var rows := Rows(rootA, rootB, comparisons);
    if forall row :: row in rows ==> row.similarity == 100.0 {
      forall k | 0 <= k < |comparisons|
        ensures comparisons[k].similarity == 1.0
      {
        assert rows[k] in rows;
      }
    }
  }

  /** What the counters amount to after the whole loop. */
  lemma TallyFacts(t: Tally, rootA: Path, filesA: seq<Path>, rootB: Path, filesB: seq<Path>,
                   tokensOf: Path -> seq<Token>, sqrt: real -> real)
    requires IsSqrt(sqrt)
    requires Accounts(t, MatchAll(rootA, filesA, rootB, filesB), tokensOf, sqrt)
    ensures t.sameDirectoryCount == |NonImages(filesA)|
    ensures t.sameDirectoryAndFileCount == t.totalSimilarityFileCount == |t.comparisons| <= t.sameDirectoryCount
    ensures forall k :: 0 <= k < |t.comparisons| ==>
      && 0.0 <= t.comparisons[k].similarity <= 1.0
      && Relative(rootA, t.comparisons[k].file1) == Relative(rootB, t.comparisons[k].file2)
    ensures 0.0 <= t.totalSimilarityScore <= t.totalSimilarityFileCount as real
    ensures t.totalSimilarityScore == t.sameDirectoryCount as real
        <==> && t.sameDirectoryAndFileCount == t.sameDirectoryCount
             && forall k :: 0 <= k < |t.comparisons| ==> t.comparisons[k].similarity == 1.0
  {
    var m := MatchAll(rootA, filesA, rootB, filesB);
    MatchAllCounts(rootA, filesA, rootB, filesB);
    MatchedPairsSound(rootA, filesA, rootB, filesB);
    AccountedFacts(t, m, rootA, rootB, tokensOf, sqrt);
  }

  /** `TallyFacts` for any matching whose pairs lie at the same place. */
  lemma AccountedFacts(t: Tally, m: Matching, rootA: Path, rootB: Path,
                       tokensOf: Path -> seq<Token>, sqrt: real -> real)
    requires IsSqrt(sqrt)
    requires Accounts(t, m, tokensOf, sqrt)
    requires |m.pairs| <= m.considered
    requires forall p :: p in m.pairs ==> Relative(rootA, p.0) == Relative(rootB, p.1)
    ensures |t.comparisons| <= t.sameDirectoryCount
    ensures forall k :: 0 <= k < |t.comparisons| ==>
      && 0.0 <= t.comparisons[k].similarity <= 1.0
      && Relative(rootA, t.comparisons[k].file1) == Relative(rootB, t.comparisons[k].file2)
    ensures 0.0 <= t.totalSimilarityScore <= t.totalSimilarityFileCount as real
    ensures t.totalSimilarityScore == t.sameDirectoryCount as real
        <==> && t.sameDirectoryAndFileCount == t.sameDirectoryCount
             && forall k :: 0 <= k < |t.comparisons| ==> t.comparisons[k].similarity == 1.0
  {
    ScoredFacts(m.pairs, tokensOf, sqrt);
    assert forall k :: 0 <= k < |m.pairs| ==> m.pairs[k] in m.pairs;
    TotalScoreBounds(t.comparisons);
  }

  /** `mainFunction` (lines 126-191): list both trees, compare, and report. */
  method CompareDirectories(rootA: Path, entriesA: seq<Entry>, rootB: Path, entriesB: seq<Entry>,
                            tokensOf: Path -> seq<Token>, sqrt: real -> real)
    returns (report: Report)
    requires IsSqrt(sqrt)
    ensures report.sameDirectoryCount == |NonImages(Walk(rootA, entriesA))|
    ensures report.sameDirectoryAndFileCount == |report.similarityFileComparisons| <= report.sameDirectoryCount
    ensures report.similarityFileComparisons
         == Rows(rootA, rootB, Scored(MatchAll(rootA, Walk(rootA, entriesA), rootB, Walk(rootB, entriesB)).pairs, tokensOf, sqrt))
    ensures forall row :: row in report.similarityFileComparisons ==>
              row.file1 == row.file2 && 0.0 <= row.similarity <= 100.0
    ensures report.overallSimilarityPercentage.NaN? <==> report.sameDirectoryCount == 0
    ensures report.overallSimilarityPercentage
         == OverallSimilarityPercentage(
              TotalScore(Scored(MatchAll(rootA, Walk(rootA, entriesA), rootB, Walk(rootB, entriesB)).pairs, tokensOf, sqrt)),
              report.sameDirectoryAndFileCount, report.sameDirectoryCount)
    ensures !report.overallSimilarityPercentage.Infinity?
    ensures report.overallSimilarityPercentage.Finite? ==> 0.0 <= report.overallSimilarityPercentage.value <= 100.0
    ensures report.overallSimilarityPercentage == Finite(100.0)
        <==> && report.sameDirectoryCount > 0
             && report.sameDirectoryAndFileCount == report.sameDirectoryCount
             && forall row :: row in report.similarityFileComparisons ==> row.similarity == 100.0
  {
    var files1 := Walk(rootA, entriesA);
    var files2 := Walk(rootB, entriesB);
    var t := MatchAndScore(rootA, files1, rootB, files2, tokensOf, sqrt);
    TallyFacts(t, rootA, files1, rootB, files2, tokensOf, sqrt);
    PercentageRange(t.totalSimilarityScore, t.totalSimilarityFileCount, t.sameDirectoryCount);
    RowsFacts(rootA, rootB, t.comparisons);
    var percentage := OverallSimilarityPercentage(t.totalSimilarityScore, t.totalSimilarityFileCount, t.sameDirectoryCount);
    report := Report(t.sameDirectoryCount, t.sameDirectoryAndFileCount, percentage, Rows(rootA, rootB, t.comparisons));
  }
}
