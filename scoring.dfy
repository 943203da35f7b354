/** Catalog entries and the per-entry scorer `get_similarity` (src/main.rs:24-44, 63-95). */
module Scoring {
  import opened AsciiText
  import AtcPattern

  /** Rust's `u8`, the type of `AtcCode::similarity`. */
  type Byte = x: int | 0 <= x < 256

  /** A value of the string-similarity metric, between 0.0 and 1.0. */
  type Fraction = r: real | 0.0 <= r <= 1.0

  /** `strsim::jaro_winkler`: a foreign floating-point metric, given to the
      model as a parameter. */
  type Metric = (string, string) -> Fraction

  /** One (code, name) row of the catalog resource. */
  datatype CatalogRecord = CatalogRecord(code: string, name: string)

  /** `AtcCode`: a catalog entry annotated with its similarity to a query. */
  datatype AtcCode = AtcCode(code: string, name: string, similarity: Byte)

  /** `AtcCode::from_record`: copies the two columns, similarity 0. */
  function FromRecord(record: CatalogRecord): (e: AtcCode)
    ensures e.code == record.code && e.name == record.name && e.similarity == 0
  {
    AtcCode(record.code, record.name, 0)
  }

  /** `AtcCode::with_similarity`: replaces the similarity and nothing else. */
  function WithSimilarity(e: AtcCode, similarity: Byte): (r: AtcCode)
    ensures r.code == e.code && r.name == e.name && r.similarity == similarity
  {
    e.(similarity := similarity)
  }

  /** `(100.0 * x) as u8`: the cast truncates, it does not round. */
  function Percent(x: Fraction): (p: Byte)
    ensures p <= 100
    ensures p as real <= 100.0 * x < p as real + 1.0
  {
    (100.0 * x).Floor
  }

  /** The exact-text shortcut of the second rule: the lower-cased query is the
      lower-cased name, or begins `"<code> <name>"` in lower case. */
  predicate ExactTextMatch(query: string, entry: AtcCode) {
    Lower(query) == Lower(entry.name)
    || StartsWith(Lower(entry.code) + " " + Lower(entry.name), Lower(query))
  }

  /** `get_similarity(query, entry)`: the first rule that applies wins. */
  function Similarity(jaroWinkler: Metric, query: string, entry: AtcCode): (r: Byte)
    ensures r <= 100
  {
    if AtcPattern.IsMatch(Upper(query)) then
      if StartsWith(Lower(query), Lower(entry.code)) then 100 else 0
    else if ExactTextMatch(query, entry) then
      100
    else
      var simCode := Percent(jaroWinkler(Lower(query), Lower(entry.code)));
      var simName := Percent(jaroWinkler(Lower(query), Lower(entry.name)));
      if simCode > simName then simCode else simName
  }

  /** Rule 1: a code-shaped query is an exact lookup, scored 100 when the
      entry's code begins the query and 0 otherwise. */
  lemma SimilarityOfCodeQuery(jaroWinkler: Metric, query: string, entry: AtcCode)
    requires AtcPattern.ContainsCodeShape(Upper(query))
    ensures Similarity(jaroWinkler, query, entry) == 100 <==> StartsWith(Lower(query), Lower(entry.code))
    ensures Similarity(jaroWinkler, query, entry) == 0 <==> !StartsWith(Lower(query), Lower(entry.code))
  {
    AtcPattern.IsMatchIff(Upper(query));
  }

  /** Rule 2: a query that is not code-shaped and equals the name, or begins
      "code name", scores 100. */
  lemma SimilarityOfExactText(jaroWinkler: Metric, query: string, entry: AtcCode)
    requires !AtcPattern.ContainsCodeShape(Upper(query))
    requires ExactTextMatch(query, entry)
    ensures Similarity(jaroWinkler, query, entry) == 100
  {
    AtcPattern.IsMatchIff(Upper(query));
  }

  /** Rule 3: otherwise the score is the larger of the two truncated metric
      values, against the code and against the name. */
  lemma SimilarityOfFreeText(jaroWinkler: Metric, query: string, entry: AtcCode)
    requires !AtcPattern.ContainsCodeShape(Upper(query))
    requires !ExactTextMatch(query, entry)
    ensures var byCode := Percent(jaroWinkler(Lower(query), Lower(entry.code)));
            var byName := Percent(jaroWinkler(Lower(query), Lower(entry.name)));
            var r := Similarity(jaroWinkler, query, entry);
            r >= byCode && r >= byName && (r == byCode || r == byName)
  {
    AtcPattern.IsMatchIff(Upper(query));
  }

  /** The code rule runs from the entry's code to the query: `n02be` scores
      100 against `N`, `N02` and `N02BE`, and 0 against the longer `N02BE01`. */
  lemma CodeQueryMatchesEnclosingCodes(jaroWinkler: Metric)
    ensures Similarity(jaroWinkler, "n02be", AtcCode("N", "NERVOUS SYSTEM", 0)) == 100
    ensures Similarity(jaroWinkler, "n02be", AtcCode("N02", "ANALGESICS", 0)) == 100
    ensures Similarity(jaroWinkler, "n02be", AtcCode("N02BE", "Anilides", 0)) == 100
    ensures Similarity(jaroWinkler, "n02be", AtcCode("N02BE01", "paracetamol", 0)) == 0
  {
    var q := "n02be";
    assert Upper(q) == "N02BE";
    assert AtcPattern.CodeShapeAt(Upper(q), 0);
    assert Lower(q) == q;
    assert Lower("N") == "n";
    assert Lower("N02") == "n02";
    assert Lower("N02BE") == "n02be";
    assert Lower("N02BE01") == "n02be01";
    SimilarityOfCodeQuery(jaroWinkler, q, AtcCode("N", "NERVOUS SYSTEM", 0));
    SimilarityOfCodeQuery(jaroWinkler, q, AtcCode("N02", "ANALGESICS", 0));
    SimilarityOfCodeQuery(jaroWinkler, q, AtcCode("N02BE", "Anilides", 0));
    SimilarityOfCodeQuery(jaroWinkler, q, AtcCode("N02BE01", "paracetamol", 0));
  }

  /** Because the pattern is searched anywhere in the query, free text that
      contains a code shape (`b12` here) takes the code rule, and an entry
      whose name equals the query still scores 0. */
  lemma EmbeddedCodeShapeOverridesName(jaroWinkler: Metric)
    ensures Similarity(jaroWinkler, "vitamin b12", AtcCode("B03BA", "vitamin B12", 0)) == 0
  {
    var q := "vitamin b12";
    assert Upper(q) == "VITAMIN B12";
    assert AtcPattern.CodeShapeAt(Upper(q), 8);
    assert Lower("B03BA") == "b03ba";
    assert Lower(q)[0] != "b03ba"[0];
    SimilarityOfCodeQuery(jaroWinkler, q, AtcCode("B03BA", "vitamin B12", 0));
  }

  /** A query of another shape (`x99`: X is not a group letter) is not a code
      lookup: an entry whose code does not begin the query, so that the code
      rule would score it 0, scores 100 by the exact-text rule. */
  lemma NonGroupLetterIsFreeText(jaroWinkler: Metric)
    ensures !AtcPattern.IsMatch(Upper("x99"))
    ensures !StartsWith(Lower("x99"), Lower("A01"))
    ensures Similarity(jaroWinkler, "x99", AtcCode("A01", "x99", 0)) == 100
  {
    var q := "x99";
    assert Upper(q) == "X99";
    assert !AtcPattern.CodeShapeAt(Upper(q), 0);
    assert !AtcPattern.ContainsCodeShape(Upper(q));
    AtcPattern.IsMatchIff(Upper(q));
    assert Lower(q) == q && Lower("A01") == "a01";
    assert Lower(q)[0] != "a01"[0];
    SimilarityOfExactText(jaroWinkler, q, AtcCode("A01", "x99", 0));
  }
}
