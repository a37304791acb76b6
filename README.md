# coha-filter in Dafny

A model of the search engine behind coha-filter. coha-filter scans the
Corpus of Historical American English (COHA) for runs of words that match a
pattern.

The engine loads three kinds of data:

- a table of **sources**: text ID, genre, year, title and author;
- a **lexicon** of words: word ID, case-sensitive form, lower-case form,
  lemma and part of speech. It is stored as a vector indexed by word ID,
  with `None` in the gaps;
- the list of **corpus files** `coha_db_<decade>s.txt`. Each holds one
  token per line: text ID, token ID, word ID.

A **search** is a label and a list of **filters**. Each filter is *Any* or a
set of word IDs, built from the lexicon by `get_filter` and a predicate on
words.

Searching a corpus file works like this:

- The lines are parsed and grouped into runs of consecutive tokens with the
  same text ID.
- Token IDs must increase inside a run.
- Each run is slid through every search's filters.
- Every start position where all filters accept their token becomes a CSV
  row: the source's record, the hit position, up to 30 tokens of context on
  each side (fewer at the run's edges), the matched words, and their
  lemma/part-of-speech analyses. The row goes to that search's output, after
  a header row.
- Runs whose text ID has no source are skipped.
- Per file, the engine counts the tokens, the texts, the hits and the texts
  with at least one hit.

## How the model is built

- **Pure parsing and formatting** are functions with contracts: genres,
  TSV fields, integers, header checks, word clean-up, the corpus file name,
  row layout and windows.
- **The source's loops** are methods whose `ensures` ties their result to a
  specification function:
  - the lexicon and sources readers;
  - the sliding window;
  - `write_header` and `write_hit`;
  - the token loop of `CohaFile::search`;
  - the loop over files of `Coha::search`.
- **The specification functions have properties proved about them as
  lemmas**, for example:
  - the lexicon is dense and indexed by word ID;
  - the hit positions are exactly the matching positions, in increasing
    order;
  - the token loop equals a fold over the runs of the file;
  - the failures are exactly the three kinds the source raises.
- A panic in `get_word` (a gap or an out-of-range ID) is modelled as the
  error value `WordIndexPanic`.
- The CSV writers are modelled as values: a sequence of rows per search,
  passed in and returned.
- Files are modelled as modules:
  - `text.dfy`: line reading, `split`/`join`, integer parsing, `word_cleanup`.
  - `tsv.dfy`: records, genres, TSV row parsing, header checks.
  - `loader.dfy`: sources, lexicon, corpus files, `Coha::load`.
  - `filters.dfy`: `get_filter`.
  - `rows.dfy`: `get_word`, `get_text`, `get_lemma_pos`, `write_header`,
    `write_hit`.
  - `matching.dfy`: `search_text_one`, `search_text`.
  - `scan.dfy`: `CohaFile::search`, `Coha::search`.
  - `wrappers.dfy`: Option and Result.

## Model

| member | source | states |
|---|---|---|
| Tsv.GenreParse | src/lib.rs:48-56 | exactly the four genre names parse, and a parsed genre displays as the input string |
| Tsv.GenreRoundTrip | src/lib.rs:48-79 | parsing the display form of every genre gives that genre back |
| Tsv.GenreParseForFiles | src/lib.rs:58-63 | fails exactly on a name outside FIC/MAG/NEWS/NF, with the error "invalid genre: <name>" for that path; success displays as the input |
| Tsv.TsvSplit | src/lib.rs:182-184 | yields at least one field, no field holds a tab, and joining the fields with tabs gives the line without its trailing CR/LF |
| Text.TrimLineEnd | src/lib.rs:183 | the result is a prefix of the input, ends in no CR/LF, and everything cut off is CR or LF |
| Tsv.ParseInt | src/lib.rs:125-128 | the integer conversion of a field as a Result: it succeeds exactly when `from_str` accepts the field (see Text.ParseUnsignedAccepts), with the same value, and its error names the field |
| Text.ParseUnsigned | src/lib.rs:125 | a parsed value never exceeds the width's maximum and the text starts with '+' or a digit |
| Text.ParseUnsignedAccepts | src/lib.rs:122-128 | `from_str` yields n exactly when n fits the width and the text is an optional '+', any number of leading zeros, then the decimal form of n (so "+7" and "007" give 7) |
| Text.ParsedForm | src/lib.rs:125 | every accepted text is an optional '+', leading zeros and the decimal form of its value |
| Text.ParsesForm | src/lib.rs:125 | every such text with a value that fits is accepted with that value |
| Text.ParseNatToString | src/lib.rs:125 | the decimal form of n parses back to n when n fits the width, and fails otherwise |
| Tsv.SourceFromFields | src/lib.rs:116-135 | succeeds exactly when there are six fields and the ID, genre and year parse; a missing field is reported only when every present field parses; the record holds the parsed ID, genre, year, title and author |
| Tsv.WordFromFields | src/lib.rs:143-161 | succeeds exactly when there are five fields and the ID parses; the word's forms are the cleaned-up fields 1 and 2, lemma and PoS are fields 3 and 4 |
| Tsv.TokenFromFields | src/lib.rs:165-179 | succeeds exactly when three fields all parse as integers; the missing-field error occurs exactly when fewer fields are all numeric |
| Tsv.ExtraFieldsIgnored | src/lib.rs:116-179 | fields beyond those read do not change the parsed source, word or token |
| Tsv.TokenRoundTrip | src/lib.rs:165-184 | a token written as three tab-separated numbers plus a newline parses back to itself |
| Tsv.CheckHeader | src/lib.rs:186-200 | accepts exactly a present line whose fields equal the expected header; otherwise "header missing" for no line, else "unexpected headers" |
| Tsv.HeaderAccepted | src/lib.rs:186-200 | the expected header written as a tab-joined line is accepted |
| Text.WordCleanup | src/lib.rs:138-140 | the result holds no control character, keeps exactly the non-control characters of the input, and leaves a clean string unchanged |
| Text.CleanupIdempotent | src/lib.rs:138-140 | cleaning up twice equals cleaning up once |
| Text.CleanupConcat | src/lib.rs:138-140 | clean-up distributes over concatenation |
| Text.Lines | src/lib.rs:248 | line reading yields only non-empty lines |
| Text.LinesPartition | src/lib.rs:248 | the lines concatenate back to the whole text; only the last line may lack a final '\n'; no line has an inner '\n' |
| Text.Split | src/lib.rs:183 | `split` yields at least one piece and no piece contains the separator |
| Text.JoinSplit | src/lib.rs:183 | joining the pieces of a split with the separator restores the string |
| Text.SplitJoin | src/lib.rs:183 | splitting a join of separator-free pieces restores the pieces |
| Loader.SourceTableKeys | src/lib.rs:246-252 | the sources map has as keys exactly the text IDs of the parsed rows |
| Loader.SourceTableLastWins | src/lib.rs:250 | a repeated text ID maps to its last row |
| Loader.ReadSourceRows | src/lib.rs:246-254 | succeeds exactly when every row parses; the map is built from the rows in order; otherwise the error is that of the first bad row |
| Loader.ReadSources | src/lib.rs:227-255 | a header failure is returned as is; success exactly when the header and every row are valid; the map is the rows' table; otherwise the first bad row's error |
| Loader.DensifyIndex | src/lib.rs:281-296 | the lexicon has a word at k exactly when some row has ID k, each row sits at its ID, and every entry's ID is its index |
| Loader.DensifyGaps | src/lib.rs:282-291 | the padding count equals the number of gaps, which is the lexicon's length minus the number of words |
| Loader.DensifySnoc | src/lib.rs:286-294 | adding a word with a higher ID pads with gaps up to its ID, then appends it |
| Loader.PlaceWord | src/lib.rs:289-294 | the inner loop appends exactly (ID - length) gaps and then the word, and reports that many gaps |
| Loader.RejectWord | src/lib.rs:285-288 | a row that fails to parse, or whose ID is below the current length, is the first bad row, and the lexicon fails |
| Loader.ReadWordRows | src/lib.rs:281-303 | succeeds exactly when every row parses with strictly increasing IDs; the lexicon is their dense form and the padding is its gap count; otherwise the error is the first bad row's |
| Loader.LexiconHeaders | src/lib.rs:274-279 | succeeds exactly when the first three lines split into the column names, the dashes and one empty field; a failure of the first check is returned as is, and every failure is "header missing" or "unexpected headers" |
| Loader.ReadLexicon | src/lib.rs:268-304 | any of the three header-line failures is returned as is; otherwise as ReadWordRows on the remaining lines |
| Loader.FileIdentifier | src/lib.rs:431-435 | a match is a decade tag (digits and 's'), and the name is `coha_db_` + tag + `.txt` |
| Loader.FileIdentifierRoundTrip | src/lib.rs:431-435 | every name built from a decade tag matches and yields that tag |
| Loader.NewCohaFile | src/lib.rs:425-440 | success keeps the path and the name's tag; failure is "unexpected file name" exactly when no tag fits the name |
| Loader.TxtPaths | src/lib.rs:313-324 | keeps exactly the paths whose extension is "txt" |
| Loader.TxtPathsAppend | src/lib.rs:311-324 | the kept paths stay in walk order: filtering a concatenation is filtering each part, one after the other |
| Loader.TxtPathsSingle | src/lib.rs:316-324 | a single path is kept exactly when its extension is "txt" |
| Loader.NewCohaFiles | src/lib.rs:334 | succeeds exactly when every name matches, one file per path in order; otherwise the error names the first non-matching file |
| Loader.ReadCorpus | src/lib.rs:306-335 | succeeds exactly when every kept txt path's name matches; one file per kept path, in order, holding that path and its decade tag; otherwise the error names the first kept path whose name does not match |
| Loader.Load | src/lib.rs:338-351 | loads exactly when corpus, sources and lexicon all load; a corpus error comes first; the parts are those readers' results, and the lexicon is well formed |
| Filters.GetFilter | src/lib.rs:353-372 | always a Hash filter |
| Filters.GetFilterIds | src/lib.rs:358-369 | the filter holds exactly the IDs of the lexicon's words that satisfy the predicate |
| Filters.GetFilterLookup | src/lib.rs:358-369 | on a loaded lexicon, an ID is in the filter exactly when its entry holds a word satisfying the predicate |
| Filters.GetFilterIgnoresGaps | src/lib.rs:361 | padding gaps never add IDs to a filter |
| Filters.GetFilterAll | src/lib.rs:353-372 | the always-true predicate accepts exactly the IDs that have a word |
| Rows.GetWord | src/lib.rs:399-404 | succeeds exactly when the ID indexes a word; the word is that entry, and its ID is the requested one on a loaded lexicon; otherwise the panic |
| Rows.TokenWords | src/lib.rs:406-421 | succeeds exactly when every token's word exists, giving each token's word in order |
| Rows.CaseSensitiveForms | src/lib.rs:409 | one case-sensitive form per word, in order |
| Rows.LemmaPosForms | src/lib.rs:416-419 | one `lemma_pos` string per word, in order |
| Rows.GetText | src/lib.rs:406-411 | defined exactly when every token's word exists, and then the words' case-sensitive forms joined by single spaces; otherwise the `get_word` panic |
| Rows.GetLemmaPos | src/lib.rs:413-421 | defined exactly when every token's word exists, and then one `lemma_pos` per token joined by single spaces; otherwise the `get_word` panic |
| Rows.GetTextSplit | src/lib.rs:406-411 | for words without spaces, splitting the joined text at spaces gives back the words' forms |
| Rows.GetLemmaPosSplit | src/lib.rs:413-421 | when no lemma or PoS holds a space, splitting the joined text at spaces gives back one `lemma_pos` per token |
| Rows.WindowStart | src/lib.rs:603 | the context starts at most 30 tokens before the hit, and exactly 30 before unless it starts at 0 |
| Rows.WindowEnd | src/lib.rs:604 | the context ends at most 30 tokens after the match, and exactly 30 after unless it ends at the run's end |
| Rows.HeaderColumns | src/lib.rs:561-584 | the header has 10 + 4m columns: the six record columns, "before", "wordCS j", "after", "before_pos", one word/lemma/pos triple per position, "after_pos" |
| Rows.WriteHeader | src/lib.rs:561-584 | the loops build exactly that header row |
| Rows.HitRowDefined | src/lib.rs:586-620 | a hit row fails exactly when a token in the context window has no word, and then with the panic |
| Rows.HitRowFixedCells | src/lib.rs:586-620 | a hit row has as many cells as the header; it starts with the source record and position; before/after hold the contexts' texts, before_pos/after_pos their lemma_pos strings |
| Rows.HitRowPositionCells | src/lib.rs:606-617 | cell 7 + j holds the j-th matched word's case-sensitive form, and cells 9 + m + 3j .. 11 + m + 3j hold its word, lemma and pos |
| Rows.AppendForms | src/lib.rs:606-609 | the loop appends the matched tokens' case-sensitive forms, or fails with the panic exactly when one has no word |
| Rows.AppendAnalyses | src/lib.rs:612-617 | the loop appends each matched word's word, lemma and pos triple |
| Rows.WriteHit | src/lib.rs:586-620 | the row built step by step equals the hit row specification, panic included |
| Matching.HitsBelowSpec | src/lib.rs:541-555 | the positions found below k are exactly those where every filter accepts its token, strictly increasing |
| Matching.HitPositionsSpec | src/lib.rs:532-559 | the hits are exactly the start positions where the pattern fits and every filter accepts its token, in increasing order; none when the run is shorter than the pattern |
| Matching.AllAnyHits | src/lib.rs:541-555 | a pattern of Any filters hits at every start position |
| Matching.EmptyPatternHits | src/lib.rs:540-544 | an empty pattern hits at all n + 1 positions |
| Matching.HitRows | src/lib.rs:554-555 | the rows succeed exactly when every hit's row does; one row per hit, in order; otherwise the panic |
| Matching.HitPanics | src/lib.rs:554 | a hit whose row panics makes the whole search of the text fail |
| Matching.AcceptsAt | src/lib.rs:545-552 | the check of one start, stopping at the first position that rejects its token, answers exactly whether every filter accepts its token |
| Matching.HitRowsStep | src/lib.rs:545-555 | a matching start whose row is written adds its row after the rows of the earlier hits |
| Matching.ScanStarts | src/lib.rs:544-556 | the `'outer` loop counts and writes the rows of exactly the matching starts, in order; a panicking row makes the whole search fail |
| Matching.SearchOneRowsOf | src/lib.rs:543-558 | the rows of all starts that leave room for the pattern, or none for a shorter run, are the search's result, one per hit position |
| Matching.SearchTextOne | src/lib.rs:532-559 | returns the number of hit positions and writes their rows, or fails with the panic exactly when the specification does |
| Matching.SearchResults | src/lib.rs:524-526 | one result per search, each the rows of that search over the run |
| Matching.AppendEach | src/lib.rs:524-526 | each search's output gets its own rows appended, and the others are unchanged |
| Matching.SearchTextSpec | src/lib.rs:506-530 | outputs only grow, one per search; a run with an unknown text ID adds nothing and counts no hits; any failure is the panic |
| Matching.SearchTextHits | src/lib.rs:516-529 | the hits `search_text` returns depend only on the run and the number of writers: none for an unknown text, otherwise the hit positions of the zipped searches added up |
| Matching.SearchText | src/lib.rs:506-530 | the loop over searches returns the specification's total hits and outputs, failing exactly when it fails |
| Scan.Runs | src/lib.rs:473-491 | grouping splits the tokens into non-empty runs of one text ID each |
| Scan.RunsJoined | src/lib.rs:473-491 | the runs concatenate back to the token sequence |
| Scan.RunsBoundaries | src/lib.rs:476-480 | neighbouring runs have different text IDs |
| Scan.Tallied | src/lib.rs:462-471 | the flush adds a text's hits to the total and counts it as a hit text exactly when it has a hit |
| Scan.ScanRuns | src/lib.rs:462-491 | searching runs in order only grows the outputs, adds at most one hit text per run, and fails only with the panic |
| Scan.ScanRunsSnoc | src/lib.rs:462-471 | one more run is one more search_text with the outputs so far, tallied |
| Scan.ScanRunsUnknown | src/lib.rs:517-522 | runs whose text IDs have no source leave the tally unchanged |
| Scan.ScanRunsCounts | src/lib.rs:462-467 | in closed form: the fold adds the hits of all runs to the total hits, and the number of runs with at least one hit to the hit texts |
| Scan.Headers | src/lib.rs:443-452 | each search's output starts with the header for its pattern length |
| Scan.WriteHeaders | src/lib.rs:443-452 | the loop writes exactly one header per search |
| Scan.FileReport | src/lib.rs:457-499 | counts every line as a token, every run as a text, and reports the runs' total hits and hit texts |
| Scan.FileCounts | src/lib.rs:462-499 | the logged total hits are the hits of the file's runs added up, and the logged hit texts are the runs with at least one hit |
| Scan.Flushed | src/lib.rs:462-471 | a flush succeeds exactly when search_text does; it empties the pending run, counts a text and tallies its hits; otherwise the panic |
| Scan.ScanToken | src/lib.rs:474-487 | after a token the pending run is of one text and ends with that token; the failure is the panic or "token IDs not increasing" |
| Scan.ScanLines | src/lib.rs:473-488 | the pending run is empty exactly when there were no lines; a failure is a panic, a token ID error, or the parse error of some line |
| Scan.ScanLinesRuns | src/lib.rs:473-491 | a successful token loop has parsed every line, with token IDs increasing within each run; its closed runs and pending run are the file's runs, and its tally is the fold over the closed runs |
| Scan.ScanLinesPanics | src/lib.rs:473-488 | when every line parses and IDs increase, the loop can only fail by a panic in the runs' search |
| Scan.ScanFileSearchable | src/lib.rs:441-504 | the file search succeeds exactly when the whole file is searchable; its tally is the fold over the file's runs and it counts one text per run; with valid lines a failure is the panic |
| Scan.Flush | src/lib.rs:462-471 | the flush closure as a method: the same result as search_text on the pending run, tallied, with the run cleared |
| Scan.ScanLine | src/lib.rs:474-487 | one pass of the loop body is one ScanToken step |
| Scan.ScanTokens | src/lib.rs:473-488 | the while loop over the lines computes the token fold |
| Scan.SearchFile | src/lib.rs:441-504 | succeeds exactly when the file is searchable, with the report and each search's rows; otherwise the error is a line's parse error, "token IDs not increasing" or the panic, and only the panic when every line is valid |
| Scan.Search | src/lib.rs:374-397 | searches every file; succeeds exactly when all files are searchable, with one report and one output per file; otherwise returns the error of the first failing file in file order (panics count as errors, see Left out) |

## Left out

- File system access is not modelled: opening files, `read_dir`, `is_dir`, `create_dir_all`, and output paths named from the search label and the file identifier. File contents and paths are parameters.
- The order of the corpus paths is not modelled. The directory walk and `corpus_paths.sort()` are outside the model, so `Loader.ReadCorpus` takes the paths already listed and sorted.
- The CP437 decoding of the lexicon file is not modelled. The lexicon is given as text.
- CSV quoting is not modelled: a row is its list of cells.
- Logging is not modelled, including the filter-size summary and its "∞" entry.
- Parallelism is not modelled. `rayon::join` in `Coha::load` and `par_iter` in `Coha::search` are sequential in the model. When no file panics, the source waits for every file before returning the first error in file order, and the model does the same.
- Scan.Search: a `get_word` panic in any file is re-raised by `par_extend` before the loop over the results runs. That panic therefore overrides the errors of earlier files. The model treats the panic as the error value `WordIndexPanic` and returns the first failing file's error in file order. For example, with a bad line in file 0 and a panic in file 1, the source panics but the model returns file 0's parse error.
- Loader.Load: states that a corpus error comes first, but not whether a sources error comes before a lexicon error. The source orders them sources then lexicon, and the model's body follows that order.
- Loader.FileIdentifier: `\d` is ASCII digits only. The source's regex also accepts other Unicode decimal digits.
- Tsv.ParseInt: every `ParseIntError` kind is one `InvalidInteger` error that names the field.
- Rows.GetWord: both panics (index out of range, and the "expected valid word index" gap) are the one error `WordIndexPanic`, returned instead of unwinding.
- Rows.HitRowDefined: the model builds a row only after every word in the window resolves. A panic in the source can come after part of the row exists, but that row is never written, so the output is the same.
- Scan.SearchFile: on failure, its second result is not related to the partial CSV output the source leaves on disk.
- Scan.Search: on failure, the per-file outputs are not specified.
- Matching.SearchText: the `assert!`s that a run is non-empty and has one text ID are a precondition, `IsRun`. The token loop is proved to meet it.
- Integer overflow of the `usize` counters is not modelled. The model's naturals are unbounded, while the source counts in 64-bit integers that cannot overflow on any real file.
- Scan.PathOf: a path is modelled as its list of components joined by "/", standing in for `to_string_lossy` in error messages.
- Writer flushing and write errors are not modelled. `write_record` and `flush` are treated as always succeeding.
- Reading a corpus file is modelled as a pure pass: every line is parsed as a token and the loop consumes those results in order. This gives the same results and the same first error as parsing inside the loop, because parsing has no side effects.
