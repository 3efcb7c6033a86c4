# Directory similarity comparison, modelled in Dafny

This project models the comparison engine of `src/libs/Diff.js`. Given two
directory trees, it lists every visible regular file of each tree. It skips
image files. It pairs each remaining file of the first tree with the first
file of the second tree at the same relative path. It scores each pair by the
cosine similarity of the two files' token sets. It then reports:

- how many files were considered;
- how many of them were paired;
- the summed similarity of the paired files, divided by the number of files
  considered, as a percentage;
- one row per pair.

The project has six modules:

- `Paths` (`paths.dfy`): the path and string operations the engine uses,
  over paths given as sequences of components. From Node's `path` module:
  `basename`, `extname` and `relative`. From `String.prototype`:
  `toLowerCase`, on ASCII letters.
- `Images` (`images.dfy`): `isImageFile`.
- `Walker` (`walker.dfy`): `getFilesInDirectory`. It works over a file-system
  tree of `Entry` values.
- `Similarity` (`similarity.dfy`): `calculateCosineSimilarity`. Everything up
  to the final division is integer arithmetic, kept as the triple
  `(dot, n1, n2)`. The real value is taken through a square-root function
  given as a parameter, which must satisfy `IsSqrt`.
- `Comparison` (`compare.dfy`): the matching, the loop of `mainFunction`, the
  percentage and the report.
  - The loop body is the method `CompareNext`. The loop is `MatchAndScore`.
  - Both are proved against the specification function `MatchAll`. That
    function records one `Outcome` per file of the first tree: `Skipped`,
    `Unmatched` or `Paired`.
  - The running counters of lines 134-139 are the record `Tally`.
  - `Accounts` ties the counters to the outcomes seen so far.
- `Wrappers` (`wrappers.dfy`): the `Option` type.

Two of the source's doc comments say something different from what the code
does. The model follows the code:

- The doc comment of `calculateCosineSimilarity` gives its range as -1 to 1.
  With 0/1 presence vectors and in exact arithmetic, the result is always
  between 0 and 1 (`Similarity.Value`).
- The doc comment of `calculateOverallSimilarityPercentage` calls the result a
  weighted average over the matched files. The code divides the summed
  similarity by `sameDirectoryCount`, which counts every non-image file of the
  first tree. Its second argument, `totalSimilarityFileCount`, is not used. So
  an unmatched file counts as a similarity of 0. In exact arithmetic, the
  result is 100 only when every considered file was matched with similarity 1
  (`Comparison.PercentageRange`, `Comparison.CompareDirectories`).

The match test of lines 153-157 also compares base names and extensions. For
files under their roots, as the walker's files always are, these checks add
nothing to the relative-path check (`Comparison.SamePlaceUnderRoots`).

An empty token sequence on either side makes the division 0 / 0. The `isNaN`
fallback then gives similarity 1, even when the other file has content
(`Similarity.EmptyIsFallback`).

## Model

| member | source | states |
|---|---|---|
| Paths.Basename | src/libs/Diff.js:142 | definition: the last component of a path; its property is stated by `BasenameOfJoin` |
| Paths.Relative | src/libs/Diff.js:150-151 | definition: climb out of `from` past the common prefix, then descend to `to`; its properties are stated by `RelativeResolves`, `RelativeUnderRoot`, `ResolveUps` and `ResolveDescends` |
| Paths.LastDot | src/libs/Diff.js:99 | the index of the last '.' of a name, or -1 when it has none |
| Paths.ExtName | src/libs/Diff.js:99 | `path.extname` of one component: a suffix that starts with its only '.'; empty exactly when the name is ".." or has no '.' after its first character |
| Paths.ToLower | src/libs/Diff.js:99 | the same length and no upper-case letter left: each upper-case letter becomes its lower-case letter (32 code points on), and every other character stays as it is |
| Paths.CommonPrefixLength | src/libs/Diff.js:150-151 | the longest common prefix of two paths: both paths agree up to it and differ right after it |
| Paths.Ups | src/libs/Diff.js:150-151 | `n` components, each "..", for climbing out of a directory |
| Paths.RelativeUnderRoot | src/libs/Diff.js:150-151 | relative to a root, a path under that root is what follows the root |
| Paths.ResolveUps | src/libs/Diff.js:150-151 | each leading ".." climbs one directory out of the base, before the rest is followed |
| Paths.ResolveDescends | src/libs/Diff.js:150-151 | a path without ".." leads from the base to the base followed by that path |
| Paths.RelativeResolves | src/libs/Diff.js:150-151 | `relative` is the inverse of following a path: the relative path from `from` leads back to `to` |
| Paths.BasenameOfJoin | src/libs/Diff.js:142 | `basename` of a path is its last component |
| Images.IsImageFile | src/libs/Diff.js:88-101 | definition: the lower-cased extension is one of the seven image extensions; its properties are stated by `ImageHasExtension`, `ImageByExtension`, `ImageIgnoresCase` and `NoExtensionIsNotImage` |
| Images.ImageHasExtension | src/libs/Diff.js:88-101 | an image file's name has an extension of at least four characters (one of the seven), after a non-empty stem |
| Images.ExtNameOfSuffix | src/libs/Diff.js:99 | a non-empty stem followed by a '.' and further characters without a '.' has exactly that suffix as its extension |
| Images.ImageIgnoresCase | src/libs/Diff.js:88-101 | whether a file is an image does not depend on the case of its name |
| Images.ImageByExtension | src/libs/Diff.js:89-100 | a non-empty stem followed by one of the seven image extensions, in any case, is an image |
| Images.NoExtensionIsNotImage | src/libs/Diff.js:99-100 | a name without a '.' after its first character (e.g. ".png") is never an image |
| Images.ExtNameOfLower | src/libs/Diff.js:99 | the extension of a lower-cased name is the lower-cased extension |
| Walker.Walk | src/libs/Diff.js:68-85 | every listed path lies under the directory and has a base name that does not start with '.' |
| Walker.EntryFiles | src/libs/Diff.js:72-81 | each child's contribution lies under the directory and is visible |
| Walker.WalkListsVisibleFiles | src/libs/Diff.js:68-85 | a path is listed exactly when it leads through directories to a regular file whose name does not start with '.' |
| Walker.EntryListsVisibleFiles | src/libs/Diff.js:72-80 | the same for one child: a visible file is listed, a directory contributes its own listing, anything else nothing |
| Walker.DirListsVisibleFiles | src/libs/Diff.js:76-78 | a subdirectory contributes exactly the visible files below it |
| Walker.ListedBelow | src/libs/Diff.js:76-78 | everything a subdirectory lists lies one component or more below it |
| Walker.HiddenDirectoryIsDescended | src/libs/Diff.js:74-78 | a directory whose name starts with '.' is still descended, and its visible files are listed |
| Similarity.Dedup | src/libs/Diff.js:28-30 | `Array.from(new Set(s))`: no repetitions and the same elements as `s` |
| Similarity.Vocabulary | src/libs/Diff.js:28-36 | the union vocabulary holds every distinct token of either side exactly once |
| Similarity.PresenceVector | src/libs/Diff.js:30-36 | one 0/1 entry per vocabulary token, and 1 exactly when the token occurs on that side |
| Similarity.DotOfPresence | src/libs/Diff.js:39-42 | over a vocabulary without repetitions, the dot product of two presence vectors counts the tokens present on both sides |
| Similarity.PresenceVectorCounts | src/libs/Diff.js:28-50 | over the union vocabulary, the dot product is the number of shared distinct tokens, and each squared magnitude is that side's number of distinct tokens |
| Similarity.PresenceCounts | src/libs/Diff.js:24-55 | the counts satisfy dot <= n1 and dot <= n2, and the division is 0 / 0 exactly when one side has no tokens |
| Similarity.CalculateCosineCounts | src/libs/Diff.js:24-50 | the loop's dot product and the two sums of squares are the shared and per-side distinct-token counts |
| Similarity.Magnitudes | src/libs/Diff.js:53 | the product of the two magnitudes is positive when neither side is empty, and its square is n1 * n2 |
| Similarity.CosineQuotient | src/libs/Diff.js:53 | when neither side is empty, dot / (magnitude1 * magnitude2) lies in [0, 1], is 1 exactly when dot^2 == n1 * n2, and is 0 exactly when dot == 0 |
| Similarity.Value | src/libs/Diff.js:53-55 | the similarity, with the `isNaN` fallback to 1, lies in [0, 1] |
| Similarity.CosineSimilarity | src/libs/Diff.js:24-56 | the cosine similarity of two token sequences lies in [0, 1] |
| Similarity.ValueRange | src/libs/Diff.js:53-55 | the similarity is 1 exactly on the 0 / 0 fallback or when dot^2 == n1 * n2, and 0 exactly when both sides have tokens and share none |
| Similarity.EmptyIsFallback | src/libs/Diff.js:53-55 | if either side has no tokens, the similarity is 1 |
| Similarity.SameTokenSetIsOne | src/libs/Diff.js:24-56 | the same set of tokens on both sides gives similarity 1, whatever the order and the repetitions |
| Similarity.DisjointIsZero | src/libs/Diff.js:24-56 | two non-empty sides without a shared token give similarity 0 |
| Similarity.SimilaritySymmetric | src/libs/Diff.js:24-56 | swapping the two contents does not change the similarity |
| Comparison.SamePlace | src/libs/Diff.js:153-157 | definition: the `find` callback's three-part test; its properties are stated by `SamePlaceKeepsImage` and `SamePlaceUnderRoots` |
| Comparison.SamePlaceKeepsImage | src/libs/Diff.js:144-157 | two files at the same place are both images or neither, since their extensions are equal |
| Comparison.SamePlaceUnderRoots | src/libs/Diff.js:148-157 | for files under their roots, the three-part match test holds exactly when the paths after the roots are equal |
| Comparison.FindMatch | src/libs/Diff.js:148-158 | the position found is an index of the second listing |
| Comparison.FindFirst | src/libs/Diff.js:148 | `Array.prototype.find` by position: any position found is an index of the array |
| Comparison.FindFirstIsFirst | src/libs/Diff.js:148 | `find` yields an element its callback accepts with none accepted before it, and nothing only when the callback accepts no element |
| Comparison.FindMatchIsFirst | src/libs/Diff.js:148-158 | `find` yields the first file at the same place, and nothing only when no file is at the same place |
| Comparison.NonImages | src/libs/Diff.js:141-146 | the files the loop considers are exactly the non-image files of the first tree, each as many times as it is listed |
| Comparison.Filter | src/libs/Diff.js:141-146 | the elements kept are those of the sequence that the test accepts, each with its multiplicity, and no more of them than there were |
| Comparison.OutcomeOf | src/libs/Diff.js:144-171 | a file is skipped exactly when it is an image, and a file that is paired is paired with a file of the second tree at the same place |
| Comparison.Record | src/libs/Diff.js:160-171 | recording one outcome keeps the pairs made so far, adds at most one file considered, and a pair only with a file considered |
| Comparison.Tallied | src/libs/Diff.js:141-172 | no more pairs than files considered, and no more files considered than outcomes |
| Comparison.TalliedStep | src/libs/Diff.js:141-172 | the outcomes are recorded one at a time, in order |
| Comparison.MatchAll | src/libs/Diff.js:141-172 | no more pairs than files considered, and no more files considered than files in the first tree |
| Comparison.UnmatchedMeans | src/libs/Diff.js:144-171 | a file is left unmatched exactly when it is not an image and no file of the second tree is at the same place |
| Comparison.TalliedAppend | src/libs/Diff.js:141-172 | recording outcomes in two runs adds up the counts and concatenates the pairs in order |
| Comparison.OutcomesAppend | src/libs/Diff.js:141-172 | the outcomes of a concatenated listing are the outcomes of its parts, in order |
| Comparison.MatchAllAppend | src/libs/Diff.js:141-172 | the files are handled one at a time: matching a concatenation adds up the counts and concatenates the pairs |
| Comparison.MatchAllLast | src/libs/Diff.js:141-172 | the last file's outcome is recorded after those of all the others |
| Comparison.ConsideredStep | src/libs/Diff.js:144-146 | one more file raises `sameDirectoryCount` by one exactly when it is not an image |
| Comparison.MatchAllCounts | src/libs/Diff.js:141-171 | `sameDirectoryCount` is the number of non-image files, and no more pairs are made than files considered |
| Comparison.MatchedPairsSound | src/libs/Diff.js:148-162 | every compared pair joins a non-image file of the first tree to the first file of the second tree at the same place |
| Comparison.MatchedPairsComplete | src/libs/Diff.js:148-162 | every non-image file that has a file at the same place is compared with the first such file |
| Comparison.TalliedPairs | src/libs/Diff.js:160-171 | at most one pair per considered file, and one for every considered file exactly when no file is unmatched |
| Comparison.AllMatchedIff | src/libs/Diff.js:160-171 | `sameDirectoryAndFileCount == sameDirectoryCount` exactly when every non-image file found a match |
| Comparison.Scored | src/libs/Diff.js:161-162 | one comparison per pair |
| Comparison.ScoredAppend | src/libs/Diff.js:161-162 | comparing one more pair appends its comparison |
| Comparison.TotalScoreAppend | src/libs/Diff.js:167 | one more comparison adds its similarity to the total |
| Comparison.ScoredFacts | src/libs/Diff.js:161-162 | each comparison keeps its pair's two files, and its similarity is their cosine similarity, between 0 and 1 |
| Comparison.TotalScoreBounds | src/libs/Diff.js:167 | the summed similarity lies between 0 and the number of comparisons, and reaches that number exactly when every similarity is 1 |
| Comparison.CompareFiles | src/libs/Diff.js:58-65 | the record carries both files and their cosine similarity, which lies between 0 and 1 |
| Comparison.AccountsUnmatched | src/libs/Diff.js:169-171 | an unmatched file raises `sameDirectoryCount` alone, as recording it as unmatched does |
| Comparison.AccountsPaired | src/libs/Diff.js:160-168 | a matched file appends its comparison, raises the two counts and `totalSimilarityFileCount` by one, and adds its similarity to the total, as recording its pair does |
| Comparison.CompareNext | src/libs/Diff.js:142-171 | one pass of the loop body updates the five running values exactly as recording the file's outcome does |
| Comparison.MatchAndScore | src/libs/Diff.js:134-172 | after the loop, the comparisons and the four counters are exactly what the outcomes of all files amount to |
| Comparison.OverallSimilarityPercentage | src/libs/Diff.js:114-123 | finite exactly when the count is positive, and then (value * count == score * 100); 0 / 0 gives NaN; any other division by zero gives an infinity of the score's sign |
| Comparison.PercentageRange | src/libs/Diff.js:114-123 | with the loop's counters, the percentage is NaN only when no file was considered, is never infinite, lies in [0, 100], and is 100 exactly when the summed similarity equals the number of files considered |
| Comparison.RowOf | src/libs/Diff.js:184-188 | a row's percentage lies in [0, 100] when the similarity lies in [0, 1], and is 100 exactly when the similarity is 1 |
| Comparison.Rows | src/libs/Diff.js:184-188 | one row per comparison, in order, each at 100 exactly where its similarity is 1 |
| Comparison.RowsFacts | src/libs/Diff.js:184-188 | every row names the same relative path on both sides, with a percentage in [0, 100] that is 100 exactly where the similarity is 1 |
| Comparison.AccountedFacts | src/libs/Diff.js:134-172 | counters that account for a matching with at most one pair per considered file have no more comparisons than files considered, similarities in [0, 1], equal relative paths in each pair, and a total that reaches `sameDirectoryCount` exactly when every considered file matched with similarity 1 |
| Comparison.TallyFacts | src/libs/Diff.js:134-172 | after the loop: the counts are the non-image files and the compared pairs, every similarity lies in [0, 1], every pair has equal relative paths, and the total reaches `sameDirectoryCount` exactly when all files matched with similarity 1 |
| Comparison.CompareDirectories | src/libs/Diff.js:126-191 | the report: it considers the non-image files of the first tree, has one row per matched pair (computed from `MatchAll`), and each row's paths agree; its percentage is the summed similarity of the matched pairs over the files considered, times 100; it is NaN only for no considered file, never infinite, lies in [0, 100], and is 100 exactly when every file matched with 100% similarity |

## Left out

- The tokenizer (`natural.WordTokenizer`) and `fs.readFile` are not modelled. A file's content enters the model only as its token sequence, through the parameter `tokensOf`.
- `Math.sqrt` is a parameter constrained by `IsSqrt`. Floating-point rounding is not modelled: similarities, the total and the percentage are exact reals. In IEEE doubles, two files with the same n distinct tokens score `n / (Math.sqrt(n) * Math.sqrt(n))`. That is 0.9999999999999998 for n = 2 and 1.0000000000000002 for n = 3. So the ranges [0, 1] and [0, 100] hold for the model only, and so do the results that a value is 1 or 100 exactly when something holds. A pair scored 1.0000000000000002 gives a percentage just above 100, and pairs that each miss 1 can still sum to exactly 100%. `toFixed(2)` hides the difference in the report.
- `toFixed(2)` and the "%" suffix of lines 183 and 187 are not modelled: the report carries the numbers they format.
- `fs.readdir` and `fs.stat` work over a tree of `Entry` values, in listing order. Their errors are not modelled, nor is the rethrow in the `catch` of lines 192-194. Symbolic links are not modelled: an entry is a file, a directory or something else.
- The concurrency of `Promise.all` and of the `async` calls is not modelled. The walk is a sequential recursion that keeps the order that `Promise.all` keeps.
- `path.join(filesPath[i])` normalises the roots at lines 127-128, and `path.relative` resolves "." and ".." components. Neither is modelled: paths are sequences of plain components, and the rows of lines 185-186 use the same roots as the walk.
- Paths.ToLower: lower-cases the ASCII letters only. `String.prototype.toLowerCase` also maps other Unicode letters.
- Counts are unbounded naturals. JavaScript numbers lose precision above 2^53, which a file count never reaches.
- The exported wrapper of lines 197-204 only passes the result through, so it is not modelled. The Electron application that calls the engine (`main.js` and `start.js`: the window lifecycle, the IPC handlers and the directory-picker dialog) is not part of this model.
