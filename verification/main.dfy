/** main.py: reading the repository list from `repos.csv` and the start of `main()`.
    The file is given by what `csv.DictReader` reads from it: `None` when it
    cannot be opened, otherwise its header (`None` for an empty file) and its
    rows, each a dict from header name to cell (`None` where the row is too
    short). */
module MainProgram {
  import opened Wrappers
  import opened Text
  import Config

  datatype CsvFile = CsvFile(fieldnames: Option<seq<string>>, rows: seq<map<string, Option<string>>>)

  /** `{"owner": ..., "name": ...}`. */
  datatype Repository = Repository(owner: string, name: string)

  const REQUIRED_COLUMNS: seq<string> := ["name", "num_downloads", "owners_and_repo"]
  const REPO_COLUMN: string := "owners_and_repo"

  /** The text before the first `/` (all of it when there is none). */
  function BeforeSlash(s: string): (r: string)
    ensures '/' !in r
  {
    if s == [] || s[0] == '/' then [] else [s[0]] + BeforeSlash(s[1..])
  }

  /** The text after the first `/` (nothing when there is none). */
  function AfterSlash(s: string): (r: string)
    ensures '/' in s ==> s == BeforeSlash(s) + "/" + r
    ensures '/' !in s ==> r == []
  {
    if s == [] then []
    else if s[0] == '/' then s[1..]
    else
      var r := AfterSlash(s[1..]);
      assert '/' in s ==> '/' in s[1..];
      assert [s[0]] + BeforeSlash(s[1..]) + "/" + r == [s[0]] + (BeforeSlash(s[1..]) + "/" + r);
      r
  }

  /** `owners_and_repo.split("/", 1)` with both parts stripped: the owner is
      what precedes the first `/`, the name everything after it. */
  function SplitRepository(cell: string): (r: Repository)
    ensures IsStripped(r.owner) && IsStripped(r.name)
  {
    Repository(Strip(BeforeSlash(cell)), Strip(AfterSlash(cell)))
  }

  /** Both parts come out stripped, and the owner holds no `/`. */
  lemma SplitRepositoryParts(cell: string)
    ensures var r := SplitRepository(cell);
      '/' !in r.owner && IsStripped(r.owner) && IsStripped(r.name)
  {
    if '/' in Strip(BeforeSlash(cell)) {
      StripChars(BeforeSlash(cell), '/');
    }
  }

  /** The row has no string in the `owners_and_repo` column. */
  predicate RowRaises(row: map<string, Option<string>>) {
    REPO_COLUMN !in row || row[REPO_COLUMN].None?
  }

  /** What happens to one row of the reader. */
  datatype RowResult = Kept(cell: string) | Skipped | Raises

  /** A row whose cell is a string with a `/` gives a repository, one without
      is skipped with a warning, and a missing cell (`None` in a short row)
      makes `"/" in None` raise a TypeError. */
  function ClassifyRow(row: map<string, Option<string>>): (r: RowResult)
    ensures r.Raises? <==> RowRaises(row)
    ensures r.Kept? ==> r.cell == row[REPO_COLUMN].value && '/' in r.cell
    ensures r.Skipped? ==> '/' !in row[REPO_COLUMN].value
  {
    if RowRaises(row) then Raises
    else
      var cell := row[REPO_COLUMN].value;
      if '/' in cell then Kept(cell) else Skipped
  }

  /** The cells of the rows kept before the loop ends or the first row raises. */
  function KeptCells(rows: seq<map<string, Option<string>>>): (cells: seq<string>)
    ensures |cells| <= |rows|
    ensures forall k :: 0 <= k < |cells| ==> '/' in cells[k]
  {
    if rows == [] then []
    else
      match ClassifyRow(rows[0])
      case Raises => []
      case Skipped => KeptCells(rows[1..])
      case Kept(cell) => [cell] + KeptCells(rows[1..])
  }

  /** Each kept cell split into owner and name, in order. */
  function SplitAll(cells: seq<string>): (repos: seq<Repository>)
    ensures |repos| == |cells|
  {
    if cells == [] then []
    else SplitAll(cells[..|cells| - 1]) + [SplitRepository(cells[|cells| - 1])]
  }

  lemma {:induction false} SplitAllAt(cells: seq<string>, j: int)
    requires 0 <= j < |cells|
    ensures SplitAll(cells)[j] == SplitRepository(cells[j])
  {
    var n := |cells| - 1;
    if j < n {
      assert cells[..n][j] == cells[j];
      SplitAllAt(cells[..n], j);
    }
  }

  predicate HasRequiredColumns(fieldnames: seq<string>) {
    forall c :: c in REQUIRED_COLUMNS ==> c in fieldnames
  }

  /** `load_repositories_from_csv(file_path)`: every exception is caught and the
      list built so far returned, so a missing file, an empty file (`col in None`)
      and a missing column all give `[]`. */
  function LoadedRepositories(file: Option<CsvFile>): (repos: seq<Repository>)
    ensures file.None? || file.value.fieldnames.None? ==> repos == []
    ensures file.Some? && file.value.fieldnames.Some? && !HasRequiredColumns(file.value.fieldnames.value) ==> repos == []
    ensures file.Some? ==> |repos| <= |file.value.rows|
  {
    match file
    case None => []
    case Some(f) =>
      match f.fieldnames
      case None => []
      case Some(names) => if HasRequiredColumns(names) then SplitAll(KeptCells(f.rows)) else []
  }

  method LoadRepositoriesFromCsv(file: Option<CsvFile>) returns (repositories: seq<Repository>)
    ensures repositories == LoadedRepositories(file)
  {
    repositories := [];
    if file.None? || file.value.fieldnames.None? {
      return;
    }
    var f := file.value;
    var names := f.fieldnames.value;
    var k := 0;
    while k < |REQUIRED_COLUMNS|
      invariant 0 <= k <= |REQUIRED_COLUMNS|
      invariant forall j :: 0 <= j < k ==> REQUIRED_COLUMNS[j] in names
    {
      if !(REQUIRED_COLUMNS[k] in names) {
        return;
      }
      k := k + 1;
    }
    repositories := ReadRows(f.rows);
  }

  /** The `for row in reader` loop. */
  method ReadRows(rows: seq<map<string, Option<string>>>) returns (repositories: seq<Repository>)
    ensures repositories == SplitAll(KeptCells(rows))
  {
    repositories := [];
    ghost var kept: seq<string> := [];
    var i := 0;
    while i < |rows|
      invariant 0 <= i <= |rows|
      invariant KeptCells(rows) == kept + KeptCells(rows[i..])
      invariant repositories == SplitAll(kept)
    {
      var row := rows[i];
      KeptCellsStep(rows, i);
      if REPO_COLUMN !in row || row[REPO_COLUMN].None? {
        assert kept + [] == kept;
        return;
      }
      var cell := row[REPO_COLUMN].value;
      if '/' in cell {
        assert kept + ([cell] + KeptCells(rows[i + 1..])) == kept + [cell] + KeptCells(rows[i + 1..]);
        SplitAllSnoc(kept, cell);
        repositories := repositories + [SplitRepository(cell)];
        kept := kept + [cell];
      }
      i := i + 1;
    }
    assert rows[i..] == [];
    assert kept + [] == kept;
  }

  /** One step of the reading loop. */
  lemma KeptCellsStep(rows: seq<map<string, Option<string>>>, i: int)
    requires 0 <= i < |rows|
    ensures KeptCells(rows[i..]) == match ClassifyRow(rows[i])
      case Raises => []
      case Skipped => KeptCells(rows[i + 1..])
      case Kept(cell) => [cell] + KeptCells(rows[i + 1..])
  {
    assert rows[i..][0] == rows[i];
    assert rows[i..][1..] == rows[i + 1..];
  }

  lemma SplitAllSnoc(cells: seq<string>, cell: string)
    ensures SplitAll(cells + [cell]) == SplitAll(cells) + [SplitRepository(cell)]
  {
    assert (cells + [cell])[..|cells|] == cells;
  }

  // ---------------------------------------------------------------- properties

  /** Cutting at the first `/` gives the first piece of `str.split` and the
      remaining pieces joined back. */
  lemma {:induction false} SplitAtFirst(cell: string)
    requires '/' in cell
    ensures var pieces := Split(cell, '/');
      |pieces| >= 2 && pieces[0] == BeforeSlash(cell) && Join(pieces[1..], "/") == AfterSlash(cell)
  {
    var rest := Split(cell[1..], '/');
    if cell[0] == '/' {
      assert Split(cell, '/') == [[]] + rest;
      assert Split(cell, '/')[1..] == rest;
      JoinSplit(cell[1..], '/');
    } else {
      assert cell == [cell[0]] + cell[1..];
      assert '/' in cell[1..];
      SplitAtFirst(cell[1..]);
      var pieces := Split(cell, '/');
      assert pieces == [[cell[0]] + rest[0]] + rest[1..];
      assert pieces[1..] == rest[1..];
    }
  }

  /** The split agrees with `str.split`: the owner is the first piece and the
      name the remaining pieces joined back with `/`. */
  lemma SplitRepositoryMatchesSplit(cell: string)
    requires '/' in cell
    ensures var pieces := Split(cell, '/');
      |pieces| >= 2 &&
      SplitRepository(cell) == Repository(Strip(pieces[0]), Strip(Join(pieces[1..], "/")))
  {
    SplitAtFirst(cell);
  }

  /** A slash after a slash-free owner is the first one. */
  lemma {:induction false} SlashAfterOwner(owner: string, name: string)
    requires '/' !in owner
    ensures BeforeSlash(owner + "/" + name) == owner
    ensures AfterSlash(owner + "/" + name) == name
  {
    var cell := owner + "/" + name;
    if owner == [] {
      assert cell == ['/'] + name;
      assert cell[1..] == name;
    } else {
      assert cell[0] == owner[0];
      assert cell[1..] == owner[1..] + "/" + name;
      SlashAfterOwner(owner[1..], name);
      assert owner == [owner[0]] + owner[1..];
    }
  }

  /** Writing a repository as `owner/name` and reading it back gives it back. */
  lemma SplitRepositoryRoundTrip(r: Repository)
    requires '/' !in r.owner && IsStripped(r.owner) && IsStripped(r.name)
    ensures SplitRepository(r.owner + "/" + r.name) == r
  {
    var cell := r.owner + "/" + r.name;
    assert cell[|r.owner|] == '/';
    SlashAfterOwner(r.owner, r.name);
    StripUnique([], r.owner, []);
    StripUnique([], r.name, []);
    assert [] + r.owner + [] == r.owner;
    assert [] + r.name + [] == r.name;
  }

  /** Rows read without an exception contribute independently, in file order. */
  lemma {:induction false} KeptCellsAppend(a: seq<map<string, Option<string>>>, b: seq<map<string, Option<string>>>)
    requires forall k :: 0 <= k < |a| ==> !RowRaises(a[k])
    ensures KeptCells(a + b) == KeptCells(a) + KeptCells(b)
    decreases |a|
  {
    if a == [] {
      assert a + b == b;
    } else {
      assert (a + b)[0] == a[0];
      assert (a + b)[1..] == a[1..] + b;
      KeptCellsAppend(a[1..], b);
    }
  }

  /** A row that raises ends the reading: the rows before it are kept,
      everything from it on is lost. */
  lemma KeptCellsStopAtRaise(a: seq<map<string, Option<string>>>, bad: map<string, Option<string>>, b: seq<map<string, Option<string>>>)
    requires forall k :: 0 <= k < |a| ==> !RowRaises(a[k])
    requires RowRaises(bad)
    ensures KeptCells(a + [bad] + b) == KeptCells(a)
  {
    KeptCellsAppend(a, [bad] + b);
    assert a + [bad] + b == a + ([bad] + b);
  }

  /** Every kept cell is the cell of a row that holds a `/`. */
  lemma {:induction false} KeptCellsFromRows(rows: seq<map<string, Option<string>>>, cell: string)
    requires cell in KeptCells(rows)
    ensures exists k :: 0 <= k < |rows| && ClassifyRow(rows[k]) == Kept(cell)
    decreases |rows|
  {
    var rest := rows[1..];
    if ClassifyRow(rows[0]) != Kept(cell) {
      assert cell in KeptCells(rest);
      KeptCellsFromRows(rest, cell);
      var k :| 0 <= k < |rest| && ClassifyRow(rest[k]) == Kept(cell);
      assert 0 <= k + 1 < |rows| && ClassifyRow(rows[k + 1]) == Kept(cell);
    }
  }

  /** Every repository returned comes from a row whose cell holds a `/`. */
  lemma RepositoryFromRow(f: CsvFile, r: Repository)
    requires r in LoadedRepositories(Some(f))
    ensures exists k, cell :: 0 <= k < |f.rows| && ClassifyRow(f.rows[k]) == Kept(cell)
                              && SplitRepository(cell) == r
  {
    var cells := KeptCells(f.rows);
    var j :| 0 <= j < |cells| && SplitAll(cells)[j] == r;
    SplitAllAt(cells, j);
    KeptCellsFromRows(f.rows, cells[j]);
  }

  /** A file without one of the required columns gives no repositories. */
  lemma MissingColumnGivesNothing(f: CsvFile, c: string)
    requires f.fieldnames.Some? && c in REQUIRED_COLUMNS && c !in f.fieldnames.value
    ensures LoadedRepositories(Some(f)) == []
  {
  }

  // ---------------------------------------------------------------- main()

  /** How `main()` ends: the token guard, the empty-list guard, or the
      extraction loop over the repositories with a `GitHubExtractor` built
      from the endpoint and the tokens. */
  datatype MainOutcome =
    | NoTokens
    | NoRepositories
    | Extract(apiUrl: string, tokens: seq<string>, repositories: seq<Repository>)

  /** `main()` up to its extraction loop. */
  method Run(tokens: seq<string>, file: Option<CsvFile>) returns (outcome: MainOutcome)
    ensures outcome.NoTokens? <==> tokens == []
    ensures outcome.NoRepositories? <==> tokens != [] && LoadedRepositories(file) == []
    ensures outcome.Extract? ==>
      outcome == Extract(Config.GITHUB_GRAPHQL_API_URL, tokens, LoadedRepositories(file))
  {
    if tokens == [] {
      return NoTokens;
    }
    var repositories := LoadRepositoriesFromCsv(file);
    if repositories == [] {
      return NoRepositories;
    }
    outcome := Extract(Config.GITHUB_GRAPHQL_API_URL, tokens, repositories);
  }

  /** With the tokens from the configuration the token guard never fires:
      an empty token list already stops the program when `config` is imported. */
  lemma ConfiguredTokensPassGuard(env: Option<string>)
    requires Config.LoadTokens(env).Ok?
    ensures Config.LoadTokens(env).value != []
    ensures env.Some? && !Config.BlankText(env.value)
  {
    if env.Some? {
      Config.ApiTokensEmptyIff(env.value);
    }
  }
}
