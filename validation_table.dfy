/**
 * The retrieval validation table of `evaluate_metrics.py`, from the loaded
 * frame to the rows the metrics read: column names are lower-cased, each of
 * the four standard columns is found under the first of its accepted names,
 * ranks are coerced to integers, and every (query, engine) group is cut to
 * its `K` best-ranked rows.
 */
module ValidationTable {
  import opened Common
  import opened StableSort

  /** One retrieved document, in the standard columns `query`, `engine`, `rank`, `doc_id`. */
  datatype Retrieved = Retrieved(query: string, engine: string, rank: int, docId: string)

  /** The frame as loaded: its column names and, per row, one cell per column. */
  datatype Table = Table(columns: seq<string>, cells: seq<seq<string>>)

  /** Every row of a frame has a cell for every column. */
  predicate Rectangular(t: Table) {
    forall row :: row in t.cells ==> |row| == |t.columns|
  }

  /** The accepted names of each standard column, in order of preference. */
  const QueryNames: seq<string> := ["query", "q"]
  const EngineNames: seq<string> := ["engine", "retriever", "method"]
  const RankNames: seq<string> := ["rank", "rnk"]
  const DocNames: seq<string> := ["doc_id", "source_doc_id", "doc", "id"]

  // ---------------------------------------------------------------------------
  // first_present

  /** The first of `candidates` that is one of `cols`, or `None`. */
  function FirstIn(cols: seq<string>, candidates: seq<string>): (r: Option<string>)
    ensures r.Some? ==> r.value in cols && r.value in candidates
  {
    if candidates == [] then None
    else if candidates[0] in cols then Some(candidates[0])
    else FirstIn(cols, candidates[1..])
  }

  /** `first_present(cols, candidates)`: scan the candidates and return the first present one. */
  method FirstPresent(cols: seq<string>, candidates: seq<string>) returns (r: Option<string>)
    ensures r == FirstIn(cols, candidates)
  {
    for i := 0 to |candidates|
      invariant FirstIn(cols, candidates[i..]) == FirstIn(cols, candidates)
    {
      assert candidates[i..][1..] == candidates[i + 1..];
      if candidates[i] in cols {
        return Some(candidates[i]);
      }
    }
    return None;
  }

  /**
   * The result is `None` exactly when no candidate is present, and otherwise
   * the candidate at the lowest position that is present.
   */
  lemma {:induction false} FirstPresentIsFirstCandidate(cols: seq<string>, candidates: seq<string>)
    ensures FirstIn(cols, candidates).None? <==> forall c :: c in candidates ==> c !in cols
    ensures FirstIn(cols, candidates).Some? ==>
      exists i :: 0 <= i < |candidates| && candidates[i] == FirstIn(cols, candidates).value
                  && forall j :: 0 <= j < i ==> candidates[j] !in cols
  {
    if candidates != [] && candidates[0] !in cols {
      var rest := candidates[1..];
      FirstPresentIsFirstCandidate(cols, rest);
      assert forall c :: c in candidates <==> c == candidates[0] || c in rest;
      if FirstIn(cols, rest).Some? {
        var i :| 0 <= i < |rest| && rest[i] == FirstIn(cols, rest).value
                 && forall j :: 0 <= j < i ==> rest[j] !in cols;
        assert candidates[i + 1] == FirstIn(cols, candidates).value;
        forall j | 0 <= j < i + 1 ensures candidates[j] !in cols {
          if j > 0 { assert candidates[j] == rest[j - 1]; }
        }
      }
    } else if candidates != [] {
      assert candidates[0] == FirstIn(cols, candidates).value;
    }
  }

  // ---------------------------------------------------------------------------
  // Column resolution

  /** The source column chosen for each standard column. */
  datatype Columns = Columns(query: string, engine: string, rank: string, docId: string)

  /** The `ValueError`: the standard columns not found, and the (lower-cased) columns present. */
  datatype ColumnError = MissingColumns(missing: seq<string>, found: seq<string>)

  /** `[c.lower() for c in columns]`. */
  function LowerAll(columns: seq<string>): (r: seq<string>)
    ensures |r| == |columns|
    ensures forall i :: 0 <= i < |columns| ==> r[i] == Lower(columns[i])
  {
    seq(|columns|, i requires 0 <= i < |columns| => Lower(columns[i]))
  }

  /** `[k for k, v in needed.items() if v is None]`, in the order query, engine, rank, doc_id. */
  function MissingRoles(q: Option<string>, e: Option<string>, k: Option<string>, d: Option<string>): seq<string> {
    (if q.None? then ["query"] else []) + (if e.None? then ["engine"] else [])
    + (if k.None? then ["rank"] else []) + (if d.None? then ["doc_id"] else [])
  }

  /** Lower-case the column names, then find each standard column or report the missing ones. */
  function ResolveColumns(columns: seq<string>): Result<Columns, ColumnError> {
    var cols := LowerAll(columns);
    var q := FirstIn(cols, QueryNames);
    var e := FirstIn(cols, EngineNames);
    var k := FirstIn(cols, RankNames);
    var d := FirstIn(cols, DocNames);
    if q.Some? && e.Some? && k.Some? && d.Some? then Ok(Columns(q.value, e.value, k.value, d.value))
    else Err(MissingColumns(MissingRoles(q, e, k, d), cols))
  }

  /** Some accepted name of the standard column is among `cols`. */
  predicate Offers(cols: seq<string>, names: seq<string>) {
    exists c :: c in names && c in cols
  }

  /**
   * Resolution fails exactly when one of the four standard columns has none
   * of its names among the lower-cased columns, and the error names precisely
   * those columns; on success each chosen column is present and accepted.
   */
  lemma ResolveFailsIffColumnMissing(columns: seq<string>)
    ensures var cols := LowerAll(columns);
      && (ResolveColumns(columns).Err? <==>
            !Offers(cols, QueryNames) || !Offers(cols, EngineNames) || !Offers(cols, RankNames) || !Offers(cols, DocNames))
      && (ResolveColumns(columns).Err? ==>
            var err := ResolveColumns(columns).error;
            && err.found == cols
            && err.missing != []
            && ("query" in err.missing <==> !Offers(cols, QueryNames))
            && ("engine" in err.missing <==> !Offers(cols, EngineNames))
            && ("rank" in err.missing <==> !Offers(cols, RankNames))
            && ("doc_id" in err.missing <==> !Offers(cols, DocNames)))
      && (ResolveColumns(columns).Ok? ==>
            var c := ResolveColumns(columns).value;
            && c.query in cols && c.query in QueryNames
            && c.engine in cols && c.engine in EngineNames
            && c.rank in cols && c.rank in RankNames
            && c.docId in cols && c.docId in DocNames)
  {
    var cols := LowerAll(columns);
    FoundIffOffered(cols, QueryNames);
    FoundIffOffered(cols, EngineNames);
    FoundIffOffered(cols, RankNames);
    FoundIffOffered(cols, DocNames);
    MissingRolesNamesTheMissing(FirstIn(cols, QueryNames), FirstIn(cols, EngineNames),
                                FirstIn(cols, RankNames), FirstIn(cols, DocNames));
  }

  lemma FoundIffOffered(cols: seq<string>, names: seq<string>)
    ensures FirstIn(cols, names).Some? <==> Offers(cols, names)
  {
    FirstPresentIsFirstCandidate(cols, names);
  }

  lemma MissingRolesNamesTheMissing(q: Option<string>, e: Option<string>, k: Option<string>, d: Option<string>)
    ensures var m := MissingRoles(q, e, k, d);
      && (m == [] <==> q.Some? && e.Some? && k.Some? && d.Some?)
      && ("query" in m <==> q.None?)
      && ("engine" in m <==> e.None?)
      && ("rank" in m <==> k.None?)
      && ("doc_id" in m <==> d.None?)
  {
    var m := MissingRoles(q, e, k, d);
    var names := ["query", "engine", "rank", "doc_id"];
    assert forall x :: x in m ==> x in names;
    assert "query" != "engine" && "query" != "rank" && "query" != "doc_id";
    assert "engine" != "rank" && "engine" != "doc_id" && "rank" != "doc_id";
  }

  /** Column names are matched without regard to ASCII case. */
  lemma ColumnCaseIsIgnored(columns: seq<string>)
    ensures ResolveColumns(LowerAll(columns)) == ResolveColumns(columns)
  {
    forall i | 0 <= i < |columns| ensures Lower(Lower(columns[i])) == Lower(columns[i]) {
      LowerIsIdempotent(columns[i]);
    }
    assert LowerAll(LowerAll(columns)) == LowerAll(columns);
  }

  // ---------------------------------------------------------------------------
  // Ranks

  /** The rank given to a cell that is not a number (`fillna(1e9)`). */
  const MissingRank: int := 1_000_000_000

  /** `astype(int)` on a float: truncation toward zero. */
  function TruncateToInt(x: real): (n: int)
    ensures 0.0 <= x ==> n as real <= x < n as real + 1.0
    ensures x < 0.0 ==> n as real - 1.0 < x <= n as real
  {
    if x >= 0.0 then x.Floor else -((-x).Floor)
  }

  /**
   * `to_numeric(errors="coerce")`, then `fillna(1e9)`, then `astype(int)`;
   * `toNumber` is the numeric parse, `None` for a cell it cannot read.
   */
  function CoerceRank(cell: string, toNumber: string -> Option<real>): int {
    match toNumber(cell)
    case None => MissingRank
    case Some(x) => TruncateToInt(x)
  }

  /** A rank that is not a number comes after every numeric rank below 10^9. */
  lemma NonNumericRankSortsLast(cell: string, other: string, toNumber: string -> Option<real>)
    requires toNumber(cell).None?
    requires toNumber(other).Some? && toNumber(other).value < 1_000_000_000.0
    ensures CoerceRank(other, toNumber) < CoerceRank(cell, toNumber)
  {
  }

  // ---------------------------------------------------------------------------
  // The standardised rows

  /** `val_df[[q_col, eng_col, rank_col, doc_col]]` renamed, with the ranks coerced. */
  function Standardized(t: Table, toNumber: string -> Option<real>): (r: Result<seq<Retrieved>, ColumnError>)
    requires Rectangular(t)
    ensures r.Ok? ==> |r.value| == |t.cells|
    ensures r.Err? <==> ResolveColumns(t.columns).Err?
  {
    match ResolveColumns(t.columns)
    case Err(e) => Err(e)
    case Ok(c) =>
      ResolveFailsIffColumnMissing(t.columns);
      var cols := LowerAll(t.columns);
      var qi, ei, ki, di := FirstIndexOf(cols, c.query), FirstIndexOf(cols, c.engine), FirstIndexOf(cols, c.rank), FirstIndexOf(cols, c.docId);
      Ok(seq(|t.cells|, i requires 0 <= i < |t.cells| =>
        assert t.cells[i] in t.cells;
        Retrieved(t.cells[i][qi], t.cells[i][ei], CoerceRank(t.cells[i][ki], toNumber), t.cells[i][di])))
  }

  // ---------------------------------------------------------------------------
  // Top-K per (query, engine)

  function RankKey(r: Retrieved): real { r.rank as real }

  function GroupOf(r: Retrieved): (string, string) { (r.query, r.engine) }

  /** The rows of one (query, engine) group, in order. */
  function Group(s: seq<Retrieved>, g: (string, string)): seq<Retrieved> {
    Where(s, GroupOf, g)
  }

  /** How many rows of group `g` `head(K)` keeps: `K`, or all but the last `-K` when `K` is negative. */
  function Limit(full: seq<Retrieved>, g: (string, string), K: int): int {
    if K >= 0 then K else |Group(full, g)| + K
  }

  /** `groupby(["query", "engine"]).head(K)` on the first `n` rows of `full`. */
  function HeadPerGroup(full: seq<Retrieved>, n: nat, K: int): seq<Retrieved>
    requires n <= |full|
  {
    if n == 0 then []
    else
      var x := full[n - 1];
      HeadPerGroup(full, n - 1, K)
        + (if |Group(full[..n - 1], GroupOf(x))| < Limit(full, GroupOf(x), K) then [x] else [])
  }

  /**
   * Sort by rank and keep the first `K` rows of every (query, engine) group.
   * The rows of different groups may interleave differently from pandas'
   * (query, engine, rank) order; within each group the order is the same.
   */
  function TrimTopK(rows: seq<Retrieved>, K: int): seq<Retrieved> {
    var sorted := SortBy(rows, RankKey);
    HeadPerGroup(sorted, |sorted|, K)
  }

  lemma GroupAppendOne(a: seq<Retrieved>, x: Retrieved, g: (string, string))
    ensures Group(a + [x], g) == Group(a, g) + (if GroupOf(x) == g then [x] else [])
  {
    WhereAppend(a, [x], GroupOf, g);
    assert [x][1..] == [];
  }

  lemma {:induction false} HeadPerGroupByGroup(full: seq<Retrieved>, n: nat, K: int, g: (string, string))
    requires n <= |full|
    ensures Group(HeadPerGroup(full, n, K), g) == Take(Group(full[..n], g), Max(Limit(full, g, K), 0))
  {
    var L := Max(Limit(full, g, K), 0);
    if n == 0 {
      assert full[..0] == [];
    } else {
      var x := full[n - 1];
      var prev := HeadPerGroup(full, n - 1, K);
      var G := Group(full[..n - 1], g);
      HeadPerGroupByGroup(full, n - 1, K, g);
      assert full[..n] == full[..n - 1] + [x];
      GroupAppendOne(full[..n - 1], x, g);
      var kept := |Group(full[..n - 1], GroupOf(x))| < Limit(full, GroupOf(x), K);
      GroupAppendOne(prev, x, g);
      WhereAppend(prev, [], GroupOf, g);
      if GroupOf(x) == g && kept {
        assert Take(G, L) == G;
        assert Take(G + [x], L) == G + [x];
      } else if GroupOf(x) == g {
        assert Take(G + [x], L) == Take(G, L);
      } else {
        assert Group(HeadPerGroup(full, n, K), g) == Group(prev, g);
      }
    }
  }

  /**
   * Each (query, engine) group of the trimmed table is the group's rows in
   * ascending rank (ties in input order) cut by `head(K)`: so for `K >= 0`
   * it holds the `min(K, size)` best-ranked rows of the group.
   */
  lemma TrimKeepsBestRanked(rows: seq<Retrieved>, K: int, g: (string, string))
    ensures Group(TrimTopK(rows, K), g) == Take(SortBy(Group(rows, g), RankKey), K)
    ensures K >= 0 ==> |Group(TrimTopK(rows, K), g)| == Min(K, |Group(rows, g)|)
    ensures SortedBy(Group(TrimTopK(rows, K), g), RankKey)
  {
    var sorted := SortBy(rows, RankKey);
    assert TrimTopK(rows, K) == HeadPerGroup(sorted, |sorted|, K);
    HeadPerGroupByGroup(sorted, |sorted|, K, g);
    assert sorted[..|sorted|] == sorted;
    WhereOfSortBy(rows, GroupOf, g, RankKey);
    var G := SortBy(Group(rows, g), RankKey);
    assert Group(sorted, g) == G;
    SortByPermutesAndSorts(Group(rows, g), RankKey);
    TakeAtLimit(G, Limit(sorted, g, K), K);
    TakeKeepsSorted(G, K);
  }

  /** `head(K)` with the limit resolved against the group's size is Python's `[:K]`. */
  lemma TakeAtLimit(G: seq<Retrieved>, L: int, K: int)
    requires L == if K >= 0 then K else |G| + K
    ensures Take(G, Max(L, 0)) == Take(G, K)
  {
  }

  lemma TakeKeepsSorted(G: seq<Retrieved>, K: int)
    requires SortedBy(G, RankKey)
    ensures SortedBy(Take(G, K), RankKey)
  {
    var kept := Take(G, K);
    forall i, j | 0 <= i < j < |kept| ensures RankKey(kept[i]) <= RankKey(kept[j]) {
      assert kept[i] == G[i] && kept[j] == G[j];
    }
  }
}
