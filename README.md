# ATC code search: matching and ranking engine

This project is a Dafny model of the search core of a small web service. The service looks up
Anatomical Therapeutic Chemical (ATC) classification codes. It answers a free-text or
code-prefix query against a fixed catalog of (code, name) rows. It returns at most 25 entries,
each with a similarity score between 0 and 100, best first.

The model covers four parts:

- **Code-shape recognizer** (`AtcPattern`). This is the `ATC_RE` regular expression
  `[ABCDGHJLMNPRSV][0-2][1-9]([A-Z]([A-Z](\\d{2})?)?)?`, used through `Regex::is_match`.
  The model computes the leftmost match, as the regex search does. `IsMatchIff` proves the
  test is true exactly when the upper-cased query holds, at some position, a group letter,
  then a digit 0-2, then a digit 1-9. The optional tail never changes the answer.
  In the raw string, `\\d{2}` is a literal backslash followed by `dd`, not two digits.
  On an upper-cased query that group can never match (`UpperTailAtMostTwoLetters`).
- **Per-entry scorer** `get_similarity` (`Scoring.Similarity`). It applies three rules, and
  the first that applies wins:
  1. For a code-shaped query, the score is 100 when the entry's lower-cased code is a prefix
     of the query, and 0 otherwise.
  2. Otherwise, the score is 100 when the query equals the name, or is a prefix of
     `"<code> <name>"`. All of these comparisons are lower-cased.
  3. Otherwise, the score is the larger of the two truncated `100 × jaro_winkler` values,
     one against the code and one against the name.
- **Ranking chain** of `find_codes` (`Ranking.Rank`). It scores every catalog row, keeps
  scores of at least 90, sorts stably by score descending, and takes the first 25. The sort is
  modelled as a stable insertion sort. Its result is proved to equal the concatenation, for
  scores 100 down to 90, of the entries with that score in catalog order (`SortIsBuckets`,
  `RankIsBucketPrefix`).
- **Cached lookup** `find_codes` (`Finder.CodeFinder.FindCodes`). The query is trimmed and
  lower-cased. An empty query returns `[]` without touching the cache. A cached key returns the
  stored entries. On a miss, the catalog is ranked and the result is stored under the key.
  The class invariant `Valid()` says every stored value is the ranking of its key. So every
  lookup returns `Rank` of the normalised query, whether it hits or misses.

Two behaviours of the code are easy to misread. The model follows the code in both.

- Rule 1 runs from the code to the query: `query.starts_with(code)` (src/main.rs:65-67).
  So `n02be` scores 100 against `N`, `N02` and `N02BE`, and 0 against `N02BE01`
  (`CodeQueryMatchesEnclosingCodes`). The query is not treated as a prefix of longer codes.
- The pattern is not anchored. `is_match` finds a code shape anywhere in the query.
  Free text such as `vitamin b12` therefore takes rule 1 and scores 0 against an entry whose
  name it equals (`EmbeddedCodeShapeOverridesName`).

The similarity metric `strsim::jaro_winkler` is foreign floating-point code. The model takes it
as a parameter `jaroWinkler: (string, string) -> Fraction`, where `Fraction` is a real between 0.0 and
1.0. The catalog is an immutable sequence of `CatalogRecord(code, name)` values.

## Model

| member | source | states |
|---|---|---|
| AsciiText.Trim | src/main.rs:98 | the trimmed query is empty exactly when the query is all whitespace; otherwise neither end of it is whitespace |
| AsciiText.TrimUnique | src/main.rs:98 | trimming removes exactly the whitespace around a string whose ends are not whitespace |
| AsciiText.TrimIdempotent | src/main.rs:98 | trimming an already trimmed string changes nothing |
| AsciiText.NormalizeIsTrimOfLower | src/main.rs:98 | lower-casing commutes with trimming: the key is also the trim of the lower-cased query |
| AsciiText.NormalizeIgnoresSurroundingSpace | src/main.rs:98 | whitespace around a query does not change its normalised form, the cache key |
| AsciiText.NormalizeIgnoresCase | src/main.rs:98 | queries equal up to letter case have the same cache key |
| AsciiText.NormalizeIdempotent | src/main.rs:98 | normalising a cache key again leaves it unchanged |
| AsciiText.QueryVariantsShareKey | src/main.rs:98 | queries differing only by surrounding whitespace and letter case share one cache key |
| AtcPattern.OptionalTail | src/main.rs:21 | the greedy optional tail consumes 0, 1, 2 or 5 characters and stays inside the string |
| AtcPattern.MatchAt | src/main.rs:21 | a match starts at a position exactly when the three mandatory characters are there; it spans at least those three |
| AtcPattern.FindFrom | src/main.rs:64 | the search returns the leftmost position at or after `from` where the pattern matches, or reports that none does |
| AtcPattern.IsMatchIff | src/main.rs:20-22 | `is_match` holds iff some position has a group letter, a digit 0-2 and a digit 1-9; the optional tail never decides |
| AtcPattern.UpperTailAtMostTwoLetters | src/main.rs:21 | on an upper-cased string the backslash-and-`dd` group never matches, so the tail is at most two letters |
| Scoring.FromRecord | src/main.rs:32-38 | the entry copies the record's code and name and has similarity 0 |
| Scoring.WithSimilarity | src/main.rs:40-43 | only the similarity changes; code and name are kept |
| Scoring.Percent | src/main.rs:85-88 | `(100.0 * x) as u8` truncates: the result is at most 100 and within 1 below `100 x` |
| Scoring.Similarity | src/main.rs:63-95 | every score lies in 0..100 |
| Scoring.SimilarityOfCodeQuery | src/main.rs:64-71 | for a code-shaped query the score is 100 iff the lower-cased code is a prefix of the lower-cased query, and 0 otherwise |
| Scoring.SimilarityOfExactText | src/main.rs:74-83 | a query that is not code-shaped and equals the name, or is a prefix of "code name", scores 100 |
| Scoring.SimilarityOfFreeText | src/main.rs:85-94 | otherwise the score is the larger of the truncated metric values against code and name |
| Scoring.CodeQueryMatchesEnclosingCodes | src/main.rs:65-71 | `n02be` scores 100 against N, N02 and N02BE and 0 against N02BE01 |
| Scoring.EmbeddedCodeShapeOverridesName | src/main.rs:64-72 | `vitamin b12` contains a code shape and so scores 0 even against an entry named `vitamin B12` |
| Scoring.NonGroupLetterIsFreeText | src/main.rs:64-83 | `x99` is not code-shaped, so an entry `A01` named `x99`, which the code rule would score 0, scores 100 by the exact-text rule |
| Ranking.ScoreAll | src/main.rs:108-113 | one entry per catalog row, in catalog order, with that row's code and name and its score against the query |
| Ranking.Qualifying | src/main.rs:114 | keeps only entries scoring at least 90, keeps every qualifying one, and takes nothing not in the input |
| Ranking.QualifyingCounts | src/main.rs:114 | each entry scoring at least 90 is kept exactly as many times as it occurs in the input; every other entry is dropped |
| Ranking.QualifyingWithScore | src/main.rs:114 | for every score of at least 90, the filtered entries with that score are the input's, in input order |
| Ranking.Insert | src/main.rs:115 | inserting adds exactly the one entry, keeps the others, and puts it in front or keeps the old first entry |
| Ranking.InsertKeepsOrder | src/main.rs:115 | inserting into a sequence sorted by descending score keeps it sorted |
| Ranking.SortByScore | src/main.rs:115 | the sort is a permutation of its input, with scores non-increasing |
| Ranking.SortIsStable | src/main.rs:115 | for every score, the sorted entries with that score are those of the input in input order |
| Ranking.SortIsBuckets | src/main.rs:115 | with scores in lo..hi, the stable sort is the concatenation from hi down to lo of each score's entries in input order |
| Ranking.Take | src/main.rs:116 | `take(n)` is the prefix of length min(n, length) |
| Ranking.RankBounded | src/main.rs:108-117 | the result has min(25, number qualifying) entries, each scored 90..100 |
| Ranking.RankOrdered | src/main.rs:108-117 | scores never increase along the result |
| Ranking.RankIsBucketPrefix | src/main.rs:108-117 | the result is the first 25 of: entries scoring 100 in catalog order, then 99, ..., then 90 |
| Ranking.RankStable | src/main.rs:115-116 | the result's entries of any one score are the first catalog entries with that score, in catalog order |
| Ranking.RankProvenance | src/main.rs:108-117 | every returned entry has a catalog row's code and name and that row's score against the query |
| Ranking.RankKeepsBest | src/main.rs:114-116 | a qualifying catalog entry is left out only when 25 entries scoring at least as much were returned |
| Finder.CodeFinder.constructor | src/main.rs:166-170 | a new cache is empty and satisfies the cache invariant |
| Finder.CodeFinder.FindCodes | src/main.rs:97-122 | empty query: `[]`, cache unchanged; hit: the stored value, cache unchanged; miss: the ranking, stored under the key only; always the ranking of the normalised query |
| Finder.CodeFinder.Evict | src/main.rs:166-170 | dropping a cache entry removes only that key and keeps the cache invariant |
| Finder.N02BEVariantsShareKey | src/main.rs:98 | `" N02BE "`, `"n02be"` and `"N02BE"` normalise to the same key `n02be` |
| Finder.LookupTwice | src/main.rs:97-122 | two lookups of queries with the same key return equal results; afterwards the first result is stored under the key, and the second is answered from that stored entry |

## Left out

- HTTP and presentation: `negotiate`, `api_search`, `index`, `main`, `IndexTemplate`, the router and the listener (src/main.rs:46-51, 124-179). These are framework plumbing; the only logic in them is an `Accept` header comparison and reading the `q` parameter.
- CSV loading `all_codes` (src/main.rs:53-61): the catalog is taken as a given sequence of rows. Header handling, skipped malformed records and the `unwrap` of the two columns in `from_record` belong to the CSV layer. The catalog is a constant of the finder rather than being parsed again on every miss; the result is the same.
- Scoring.Percent: models `(100.0 * x) as u8` on exact reals. Rounding in the floating-point product is not modelled.
- `jaro_winkler` is foreign floating-point code. It is a parameter whose values lie in 0.0..1.0. Nothing else about the metric is assumed.
- Finder.CodeFinder.Evict: the cache's capacity of 1000, its 30-minute time-to-live, its 5-minute idle expiry and its eviction policy are modelled only as "an entry may disappear". No time is modelled.
- Concurrency: async execution and concurrent duplicate computation of the same key. The model is sequential. Two computations for one key would store the same value.
- Text: `trim` and `to_lowercase` are modelled on ASCII only. Whitespace is tab, line feed, vertical tab, form feed, carriage return and space, and case folding covers A-Z.
