# GitHub repository ETL — a Dafny model

This project models the core of a small Python extract–transform–load
pipeline for GitHub repository metadata. It covers five parts:

- **`config`** reads a comma-separated token list from the environment. It
  refuses to start without a token.
- **`GitHubExtractor`** posts a GraphQL query and turns HTTP failures,
  undecodable bodies and GraphQL `errors` into exceptions. It reads the
  rate-limit figures, pauses when they run low, and returns the
  `repository` object or `None`.
- **`GitHubDataTransformer`** flattens that object into the 15-field
  `projects` record. Timestamps are parsed with `"%Y-%m-%dT%H:%M:%SZ"`.
  Any lookup that raises gives `None`.
- **`PostgreSQLDataLoader`** manages one connection. It creates the four
  tables and upserts batches of rows, committing each batch or rolling it
  back.
- **`main`** reads `owner/name` pairs from `repos.csv` and starts the
  extraction.

The Python behaviour the pipeline relies on is modelled explicitly in the
helper modules:

- truthiness, `dict.get`, `str.strip` with Python's whitespace set,
  `str.split`, `str.join` and `int()` on text;
- `datetime.strptime` on the canonical layout.

Every exception that the source catches and turns into `None` becomes
`None`/`Err` in the model.

The outside world enters through parameters:

- the HTTP transport is a function from the request to its outcome;
- `time.time()` is an integer `now`;
- a sleep is returned as a `Pause` value;
- the database's answers are `reachable` and `ExecOutcome` values.

The loader's database is modelled as two statement logs: `pending`, the
open transaction, and `committed`.

Files:

- `wrappers.dfy` holds `Option`/`Result`.
- `text.dfy` holds the string primitives.
- `timestamps.dfy` holds the timestamp layout.
- `values.dfy` holds JSON/Python values.
- There is one file per source module: `config.dfy`, `extractor.dfy`,
  `transformer.dfy`, `loader.dfy` and `main.dfy`.

## Model

| member | source | states |
|---|---|---|
| Text.Strip | config.py:13 | the result has no whitespace at either end |
| Text.StripTrims | config.py:13 | `strip` keeps a stretch of the text that has only whitespace before and after it |
| Text.StripChars | main.py:44 | every character of the stripped text occurs in the text |
| Text.StripUnique | config.py:13 | whitespace + stripped middle + whitespace strips to exactly the middle |
| Text.StripEmptyIff | config.py:13 | `strip` gives `""` exactly for all-whitespace text |
| Text.StripIdempotent | main.py:44 | stripping twice is stripping once |
| Text.Split | config.py:13 | `split(sep)` yields at least one piece, and no piece contains the separator |
| Text.JoinSplit | config.py:13 | joining the pieces of a split with the separator gives back the text |
| Text.SplitJoin | config.py:13 | splitting a join of separator-free pieces gives back the pieces |
| Text.SplitAppend | config.py:13 | a separator between two texts cuts the split into the two texts' splits |
| Text.ParseIntDigits | extractor.py:99-101 | `int()` reads digits, surrounded by the whitespace `int()` skips, as their value |
| Text.ParseIntNegativeDigits | extractor.py:99-101 | `int()` reads `-` followed by digits, surrounded by the whitespace `int()` skips, as the negative value |
| Text.ParseSignedNegative | extractor.py:99-101 | `int()` reads a `-` followed by digits as the negated value of the digits |
| Text.ParseSigned | extractor.py:99-101 | on text without surrounding whitespace, `int()` succeeds exactly for one or more ASCII digits with an optional leading `+` or `-` |
| Text.ParseInt | extractor.py:99-101 | `int()` succeeds exactly when the stripped text is one or more ASCII digits with an optional leading `+` or `-` and the text holds none of the information separators U+001C..U+001F, which `int()` does not skip; it raises otherwise (for `"abc"`, `"1.5"`, `"-"`, `"- 5"`, `"\x1c5"`) |
| Text.ParseIntInfoSeparator | extractor.py:99-101 | an information separator before digits makes `int()` raise, although `str.strip` would remove it |
| Text.ParseSignedPositive | extractor.py:99-101 | `int()` reads a `+` followed by digits as the value of the digits |
| Text.ParseIntPositiveDigits | extractor.py:99-101 | `int()` reads `+` followed by digits, surrounded by the whitespace `int()` skips, as the value |
| Text.DigitsValuePad | transformer.py:61-63 | reading back a zero-padded number gives the number |
| Text.PadDigitsValue | transformer.py:61-63 | zero-padding a digit string's value to its own width gives the string back |
| Timestamps.ParseTimestamp | transformer.py:60-73 | `strptime` succeeds exactly on the fixed layout with in-range fields, and the result is a valid date-time |
| Timestamps.ParseFormat | transformer.py:60-73 | parsing the canonical text of a valid date-time gives it back |
| Timestamps.FormatParse | transformer.py:60-73 | every accepted text is the canonical text of its parse |
| Config.StrippedNonEmpty | config.py:13 | the comprehension `[token.strip() for token in pieces if token.strip()]`: at most one token per piece, each non-empty and stripped |
| Config.ApiTokens | config.py:11-16 | every token is non-empty, stripped and free of commas; an unset or empty variable gives `[]` |
| Config.LoadTokens | config.py:29-32 | raises exactly when the token list is empty; otherwise yields that non-empty list |
| Config.ApiTokensOfText | config.py:12-16 | the unset-or-empty guard changes nothing: `""` also yields no token |
| Config.ApiTokensAppend | config.py:13 | the tokens of `a,b` are the tokens of `a` followed by the tokens of `b` |
| Config.ApiTokensJoin | config.py:13 | joining a token list with commas and reading it back gives the list |
| Config.ApiTokensEmptyIff | config.py:11-16 | no token results exactly when the text is only whitespace and commas |
| Config.NoTokensIffBlankPieces | config.py:13 | the comprehension is empty exactly when every piece strips to `""` |
| Config.BlankPiecesIffBlankText | config.py:13 | every piece is blank exactly when the text has only whitespace and commas |
| Extractor.NewExtractor | extractor.py:20-33 | keeps the URL; the headers are exactly `Authorization: Bearer <token>` and the JSON content type |
| Extractor.PayloadOf | extractor.py:50-52 | `query` is always sent; `variables` is sent exactly when truthy; no other key |
| Extractor.MakePayload | extractor.py:50-52 | building the payload in place gives `PayloadOf` |
| Extractor.InterpretResponse | extractor.py:54-89 | a transport error re-raises and a 4xx/5xx status raises; a returned body is the decoded JSON unchanged and never carries `errors` |
| Extractor.MakeGraphqlRequest | extractor.py:35-89 | the result is what the server's answer to the request (URL, headers, payload) is interpreted as |
| Extractor.MessagesOf | extractor.py:61-63 | succeeds exactly when every error is a dict whose message, if present, is a string (otherwise `.get` or the `"; "` join raises); then one message per error |
| Extractor.ErrorsNeverReturned | extractor.py:60-67 | a body with `errors` is never returned |
| Extractor.ErrorMessagesInOrder | extractor.py:61-63 | the messages are the errors' messages in order, `"Unknown error"` where one is missing |
| Extractor.ErrorMessages | extractor.py:61-63 | for a list, the messages of `MessagesOf`; any other `errors` value raises, except exactly an empty dict or empty string, which gives no message |
| Extractor.CheckErrors | extractor.py:60-69 | a body is returned unchanged or raises; a dict raises exactly when it has `errors`, and the raised `GraphQLErrors` carries that key's messages |
| Extractor.GraphQLErrorText | extractor.py:60-67 | well-formed errors raise `GraphQLErrors` carrying exactly those messages |
| Extractor.NoErrorsReturnedUnchanged | extractor.py:60-69 | a dict without `errors` is returned unchanged |
| Extractor.IntOf | extractor.py:99-101 | `int(v)` succeeds exactly for an integer, a boolean (as 1 or 0) or text that `int()` reads; otherwise it raises |
| Extractor.ReadHeader | extractor.py:99-101 | a missing key reads as `0`; a present one as `int()` of its value |
| Extractor.PauseFor | extractor.py:107-120 | the decision as written: sleep exactly when fewer than 50 remain, for at least 5 s and at least `reset - now + 5` s |
| Extractor.HandleRateLimit | extractor.py:91-120 | raises exactly for a non-dict, an unreadable figure, an out-of-range reset, or a pause beyond what `time.sleep` accepts; otherwise sleeps exactly when fewer than 50 requests remain, for `max(0, reset - now) + 5` seconds, between 5 and `MAX_SLEEP_SECONDS` |
| Extractor.ExhaustedBranchIsDead | extractor.py:107-120 | the `remaining == 0` branch is unreachable: sleep iff `remaining < 50` |
| Extractor.MissingKeysReadAsZero | extractor.py:99-112 | absent rate-limit keys read as 0, so the handler sleeps `max(0, -now) + 5` seconds, or raises when that is too long for `time.sleep` |
| Extractor.RateLimitObjectSleepsFive | extractor.py:157-171 | the GraphQL `rateLimit` object has none of the `x-ratelimit-*` keys, so the handler sleeps exactly 5 s |
| Extractor.RepositoryRequest | extractor.py:133-168 | posts the fixed query with exactly `owner` and `name` as variables, to the extractor's URL with its headers |
| Extractor.FetchOutcome | extractor.py:167-175 | any failure gives `None` without a sleep; a repository or a sleep only comes from a response with `data.rateLimit`; and whenever the handler accepts `data.rateLimit`, the result is `data.repository` with the handler's pause |
| Extractor.FetchRepositoryMetadata | extractor.py:122-175 | never raises; the result is `FetchOutcome` of the interpreted answer to `RepositoryRequest` |
| Extractor.SuccessfulFetchSleepsFive | extractor.py:167-172 | every successful fetch returns `data.repository` after a 5-second sleep |
| Transformer.TransformRepositoryMetadata | transformer.py:23-113 | falsy input gives `None`; a record comes only from a dict, with truthy id, name and owner login, stamped with the extraction time |
| Transformer.OwnerLogin | transformer.py:51 | raises exactly when `owner` is present but not a dict; an absent owner gives `None`, otherwise its `login` |
| Transformer.NestedName | transformer.py:55-78 | a falsy parent gives `None`; a truthy one must be a dict, and gives its `name` |
| Transformer.DateField | transformer.py:60-73 | a falsy date gives `None`; a truthy one parses exactly when it is text in the layout, and gives a valid time whose canonical text is that text |
| Transformer.CopiedFields | transformer.py:48-82 | the plain fields are `repository.get(key)` |
| Transformer.NestedFields | transformer.py:51-78 | owner login, language and licence are the nested `login`/`name`, or `None` for a falsy parent |
| Transformer.DateFields | transformer.py:60-73 | a date is `None` when falsy; otherwise it is a valid UTC time whose canonical text is the source string |
| Transformer.MalformedDateGivesNone | transformer.py:60-108 | a truthy date that does not parse makes the whole result `None` |
| Transformer.TransformSucceedsIff | transformer.py:39-113 | a record is returned exactly for dicts with the needed nesting, parseable dates and truthy id, name and owner login |
| Loader.Without | loader.py:196-203 | the kept columns are exactly the columns not excluded |
| Loader.WithoutAppend | loader.py:196-203 | the filter keeps column order |
| Loader.UpdateSetColumns | loader.py:196-203 | the loop yields exactly `Without(columns, excluded)` |
| Loader.ProjectUpdateColumns | loader.py:196-211 | `projects` overwrites every column except `id` on conflict |
| Loader.BuildConfigUpdateColumns | loader.py:310-327 | build configs overwrite `config_type`, `parsed_content` and `raw_content` |
| Loader.DependencyUpdateColumns | loader.py:378-396 | dependencies overwrite only `version` |
| Loader.ProjectsUpsert | loader.py:193-219 | the `projects` upsert: one row per item from the 15 columns; for a non-empty batch, full-width rows, the key among the columns; conflict key `id`, and DO UPDATE of exactly the 14 other columns |
| Loader.TopicsUpsert | loader.py:255-268 | the `project_topics` insert: one row per item; conflict key `(project_id, topic)` with DO NOTHING; for a non-empty batch, full-width rows with the key among the columns |
| Loader.BuildConfigsUpsert | loader.py:308-335 | the `project_build_configs` upsert: one row per item; conflict key `(project_id, file_path)` and DO UPDATE of exactly `config_type`, `parsed_content` and `raw_content`; well formed for a non-empty batch |
| Loader.DependenciesUpsert | loader.py:376-404 | the `project_dependencies` upsert: one row per item; conflict key `(project_id, package_name, dependency_type)` and DO UPDATE of exactly `version`; well formed for a non-empty batch |
| Loader.RowOf | loader.py:217-219 | a row is as wide as the column list; a missing key gives `None` |
| Loader.DataToInsert | loader.py:217-219 | one row per item, each as wide as the column list |
| Loader.RowOfZip | loader.py:217-219 | reading a dict back by the distinct columns it was built from gives its values |
| Loader.ZipRowOf | loader.py:217-219 | an item whose keys are the columns is rebuilt from its row |
| Loader.RowOfIgnoresOtherKeys | loader.py:217-219 | keys outside the columns do not affect the row |
| Loader.ProjectColumnsMatchRecord | loader.py:174-190 | the `projects` columns are the keys of the transformer's record, in the same order |
| Loader.ProjectRowIsRecord | loader.py:174-219 | the row loaded for a transformed record holds its fields in column order |
| Loader.AfterConnect | loader.py:38-50 | connects unless already open; a failure leaves no connection and raises |
| Loader.AfterClose | loader.py:52-59 | leaves no open connection and no open transaction, and loses nothing committed |
| Loader.AfterExecute | loader.py:61-91 | without an open connection refuses and changes nothing; success with `commit` commits the open transaction and the statement, without `commit` appends the statement to the open transaction; a failed statement rolls back (nothing pending, the committed log kept) and closes the connection exactly when it was lost |
| Loader.TablesOf | loader.py:93-158 | a table counts as created exactly when a `CREATE TABLE` for it was committed |
| Loader.AfterExecuteAll | loader.py:147-158 | no statement: nothing changes; no open connection: refused unchanged; success leaves the connection open with nothing pending; the only errors are "not open" and "query failed" |
| Loader.AfterCreateTables | loader.py:93-158 | fails to connect exactly when there is no open connection and the server is unreachable; success leaves an open connection with nothing pending; nothing committed is lost |
| Loader.AfterLoad | loader.py:169-240 | raises the rollback-on-`None` error exactly for a non-empty batch without connection or server; a successful non-empty load commits the statement after any open transaction; nothing committed is lost |
| Loader.ExecuteAllKeepsCommitted | loader.py:147-158 | nothing committed is undone, whatever the server answers |
| Loader.ExecuteAllFailsIff | loader.py:147-158 | the loop fails exactly when one statement fails |
| Loader.ExecuteAllDone | loader.py:147-158 | when all statements succeed they are committed in order, after the open transaction |
| Loader.CreateTablesCommitsAll | loader.py:93-158 | a successful `create_tables` commits the four tables in order |
| Loader.CreateTablesIdempotent | loader.py:93-158 | once the four tables are created, running `create_tables` again adds no table beyond those already created and those created in the open, uncommitted transaction, which it commits |
| Loader.EmptyBatchChangesNothing | loader.py:169-171 | an empty batch returns before connecting and changes nothing |
| Loader.LoadCommitsIffDone | loader.py:221-240 | a batch succeeds exactly when a connection is available and the statement goes through; it is then committed, and otherwise nothing is committed |
| Loader.LoadWithoutServer | loader.py:221-234 | a failed connect surfaces as the error from `None.rollback()` and leaves no connection |
| Loader.CloseThenExecuteRefused | loader.py:52-77 | after `close()` no statement runs; nothing committed is lost |
| Loader.UncommittedThenCommitted | loader.py:79-83 | statements run without commit stay pending until a committing one |
| Loader.PostgreSQLDataLoader.constructor | loader.py:24-36 | stores the five connection parameters; no connection |
| Loader.PostgreSQLDataLoader.Connect | loader.py:38-50 | the new state and error are `AfterConnect` of the old state |
| Loader.PostgreSQLDataLoader.Close | loader.py:52-59 | the new state is `AfterClose` of the old state |
| Loader.PostgreSQLDataLoader.ExecuteQuery | loader.py:61-91 | the new state and error are `AfterExecute` of the old state |
| Loader.PostgreSQLDataLoader.CreateTables | loader.py:93-158 | the new state and error are `AfterCreateTables` of the old state |
| Loader.PostgreSQLDataLoader.LoadBatch | loader.py:221-240 | the new state and error are `AfterLoad` of the old state |
| Loader.PostgreSQLDataLoader.LoadProjectData | loader.py:160-240 | `AfterLoad` with the `projects` upsert of the batch |
| Loader.PostgreSQLDataLoader.LoadTopicsData | loader.py:242-285 | `AfterLoad` with the `project_topics` insert-or-ignore of the batch |
| Loader.PostgreSQLDataLoader.LoadBuildConfigsData | loader.py:287-354 | `AfterLoad` with the `project_build_configs` upsert of the batch |
| Loader.PostgreSQLDataLoader.LoadDependenciesData | loader.py:356-423 | `AfterLoad` with the `project_dependencies` upsert of the batch |
| MainProgram.BeforeSlash | main.py:40-42 | the owner part holds no `/` |
| MainProgram.AfterSlash | main.py:40-42 | the second part of `split("/", 1)`: a text holding `/` is the owner part, the first `/` and this part; without `/` it is empty |
| MainProgram.SplitRepository | main.py:40-44 | both parts come out stripped |
| MainProgram.SplitRepositoryParts | main.py:40-45 | owner and name come out stripped, and the owner holds no `/` |
| MainProgram.SplitAtFirst | main.py:40-42 | `split("/", 1)` gives the first piece of `split("/")` and the other pieces rejoined |
| MainProgram.SplitRepositoryMatchesSplit | main.py:40-45 | owner and name are the stripped first piece and the stripped rest |
| MainProgram.SlashAfterOwner | main.py:40-42 | in `owner/name` with a slash-free owner, the cut falls right after the owner |
| MainProgram.SplitRepositoryRoundTrip | main.py:40-45 | writing a stripped repository as `owner/name` and reading it back gives it back |
| MainProgram.ClassifyRow | main.py:38-49 | a row raises exactly when it has no cell; a kept row is one whose cell holds `/`, and a skipped one's does not |
| MainProgram.KeptCells | main.py:37-49 | at most one cell per row, each holding a `/` |
| MainProgram.SplitAll | main.py:43-45 | one repository per kept cell |
| MainProgram.SplitAllAt | main.py:43-45 | the k-th repository is the split of the k-th kept cell |
| MainProgram.SplitAllSnoc | main.py:43-45 | appending a cell appends its repository |
| MainProgram.KeptCellsStep | main.py:37-49 | a row that raises stops the reading, a row without `/` is skipped, and a row with `/` is kept |
| MainProgram.ReadRows | main.py:37-49 | the loop returns exactly the split kept cells |
| MainProgram.LoadedRepositories | main.py:26-60 | `[]` for a missing file, an empty file or a missing column; never more repositories than rows |
| MainProgram.LoadRepositoriesFromCsv | main.py:14-60 | the result is `LoadedRepositories(file)`: `[]` for a missing file, an empty file or a missing column |
| MainProgram.KeptCellsAppend | main.py:37-49 | rows that do not raise contribute independently, in file order |
| MainProgram.KeptCellsStopAtRaise | main.py:37-60 | a row without a cell ends reading; the repositories before it are kept |
| MainProgram.KeptCellsFromRows | main.py:37-45 | every kept cell is the cell of a row that holds a `/` |
| MainProgram.RepositoryFromRow | main.py:37-45 | every repository returned is the split of some row's cell |
| MainProgram.MissingColumnGivesNothing | main.py:28-57 | a file lacking a required column gives no repository |
| MainProgram.Run | main.py:63-89 | stops exactly when no token is given, then exactly when no repository was loaded; otherwise starts extraction over the loaded repositories in order |
| MainProgram.ConfiguredTokensPassGuard | main.py:68-72 | with tokens from `config`, the token guard never fires: a configuration that starts has non-blank text |

## Left out

- HTTP is a function parameter. The `requests` details (URLs, timeouts, status text) are not modelled, and neither is logging.
- Environment loading (`load_dotenv`), `tqdm` progress output and real sleeping are left out.
- The `DB_*` reads (config.py:19-23) become the five parameters of the loader's constructor. `FAILURE_LOG_FILE` (config.py:26, default `"pipeline_failures.log"`) is used by no modelled file and is left out.
- `time.time()` is a float in Python. The model uses an integer `now`, so sleep lengths are whole seconds. The `time.sleep` overflow limit is therefore checked on whole seconds: a pause less than one second above `MAX_SLEEP_SECONDS` is not told apart.
- Timestamps.ParseTimestamp: accepts only the zero-padded 20-character layout with ASCII digits. `strptime` also accepts some texts outside it, which are `None` in the model:
  - non-padded fields;
  - a space-padded day (`" 5"`);
  - non-ASCII decimal digits, which its `\d` matches;
  - a lowercase `t`/`z`.
- Text.ParseInt: `int()` also accepts `_` digit separators and non-ASCII decimal digits, which the model rejects. Since Python 3.11, `int()` also raises `ValueError` for text of more than 4300 digits, the default of a limit that can be configured. The model reads digit strings of any length.
- Extractor.REPOSITORY_QUERY: the query text has its layout whitespace collapsed. GraphQL ignores that whitespace.
- Extractor.GraphQLErrorText: the failure carries the list of messages. The text of the raised `ValueError` (`"GraphQL API errors: "` followed by the messages joined with `"; "`) is not modelled, and neither are the log lines.
- JSON floats are not among the model's values. A float rate-limit figure is not modelled.
- The loader models the effect of each statement on the transaction logs, not the SQL text, `psycopg2.sql` composition, table contents or the SELECT result rows of `_execute_query`.
- `execute_values` sends pages of 1000 rows. The model sends each batch as one statement.
- Whether a statement fails is an `ExecOutcome` parameter. This includes constraint violations and values that cannot be adapted, such as a `dict` in `parsed_content`.
- `load_*` rolls back in two handlers, one for driver errors and one for any other exception. They behave the same and are one failure path in the model.
- A CSV decoding error midway through the file is not modelled separately. The CSV file is given as its header and rows.
- main.py imports `GitHubExtractor` from `github_extractor`. That module is not part of this model, so the extraction loop of `main()` (lines 89-99) is represented only by the list of repositories it iterates over.
