# filldata core in Dafny

filldata fills a PostgreSQL table with random rows. It reads the table's
columns from the catalog, synthesizes a random literal for each column
according to the column's type category, assembles batched
`insert into <table> values (...),(...);` statements, and executes them
until the requested row count has been inserted.

This project models the sequential core of that program and proves
properties of the model:

- **Value synthesizers** (`TypedGenerator`, one class `Generator` over a
  `RandomSource` and a `Clock`) — `get_text`, `get_int`, `get_float`'s
  integer draw, `get_bool`, `get_time` and `get_json`. Each method is
  imperative, as in the source.
  - `GetInt`, `GetFloat`, `GetBool` and `GetJson` are proved against pure
    rendering functions (`DecimalText`, `FloatText`, `BoolText`,
    `JsonObject`).
  - `GetText` is proved against its length bound and the alphabet.
  - `GetTime` is proved against the timestamp shape.
  - The random source is a class whose `Draw(lo, hi)` only promises a value
    in `[lo, hi)`, so every property holds for every sequence of draws.
  - `GetInt`, `GetFloat`, `GetBool` and `GetJson` also return, as ghost
    values, what they drew. `GetText` and `GetTime` return only their text.
- **Type catalog** (`Schema`) — `TypeInfo` with its default `Text(0)`
  (`DEFAULT_TYPE_INFO`), the sixteen-entry `TYPE_MAP`, `AttrInfo` and
  `quote_val`.
- **Batch builder** (`Schema.Table`):
  - `generate_one_value` is a loop over the columns, in which
    `GenerateField` is the per-category `match`.
  - `generate_insertbatch` is a `while n > 0` loop.
  - Both are proved equal to pure statement functions (`TupleText`,
    `InsertStatement`).
  - The module `SqlText` is an independent reader for the generated text.
    It splits at top-level commas only: a comma inside a tuple's
    parentheses does not split the batch, and one inside a JSON object's
    braces does not split the tuple.
  - `SqlText` proves that, for a table with at least one column, a
    generated statement reads back as exactly its tuples, one per row, each
    with exactly its fields, one per column in column order. Unquoting a
    field gives back the synthesizer's text.
- **Descriptor construction** (`Catalog`) — the loop in `main` that folds
  the catalog rows `(attname, atttypid, atttypmod)` into the table
  descriptor. An unknown type id keeps the default category.
- **Sequential load loop** (`StLoad`):
  - `execute` is an oracle (`Connection.Execute`) that answers the
    connection's pending answers in order, `Ok(n)` or `Err`, and `Err` once
    they run out.
  - The `remain_rows` loop of `st_load::load` is a method proved equal to a
    pure function `Run` of the answers `execute` gave. Those answers are the
    connection's pending answers, in order.
  - The `u32` subtraction's underflow is an explicit outcome of `Run`, not a
    precondition. A batch that affects more rows than remain — the last
    batch whenever the batch size does not divide the row count — ends the
    run as the debug build's panic does.
  - The other panic of the loop is modelled too. A text column, or a column
    of an unknown type, with a type modifier from 1 to 4 gets an empty length
    range, and `gen_range` panics while the first batch is built. `Load`
    then reports `GeneratorPanic` before anything is executed.

Shared pieces:
- `MachineInts`: `u32`/`u64`/`i32` and the `as u32` truncation.
- `Strings`: the 62-character alphabet, joins, character counts and
  decimal rendering.
- `JsonText`: the `get_json` object, and a recognizer that reads it back.
  The recognizer covers the object syntax of section 4 of RFC 8259,
  restricted to names without escape sequences, unsigned integer values and
  no whitespace.
- `Wrappers`: `Option`.

The repository's sources do not agree with each other on several
signatures. The model follows `src/schema.rs`: `generate_insertbatch` takes
only the batch size, `tablename` is a string field, and there is no `Clone`.

With batch size 0 the code builds `insert into <t> values ;`, and the model
follows the code (`Schema.EmptyBatchStatement`). For a table without columns, the code's
`generate_one_value` writes a lone `(`, and the model keeps that as well
(`SqlText.TupleRoundTrip`).

## Model

| member | source | states |
|---|---|---|
| Strings.CharsetIsSourceLiteral | src/typed_generator.rs:13 | the alphabet `get_text` draws from is exactly the source's 62-character literal |
| Strings.CharsetIsAlphanumeric | src/typed_generator.rs:13 | the alphabet has 62 characters and a character is in it if and only if it is an ASCII letter or digit |
| Strings.CharsetAvoids | src/typed_generator.rs:17-22 | text built from the alphabet contains no punctuation at all (no quote, comma, brace, colon or parenthesis) |
| Strings.DecimalText | src/typed_generator.rs:25 | `to_string` of an unsigned number is non-empty, all digits, no sign, and starts with `0` only for zero |
| Strings.DecimalRoundTrip | src/typed_generator.rs:25 | reading the decimal text back gives the number: distinct numbers render differently |
| Strings.DecimalTextBelow1000 | src/typed_generator.rs:25 | a number below 1000 renders in one to three digits |
| TypedGenerator.RandomSource.Draw | src/typed_generator.rs:15 | a draw from `lo..hi` lies in `[lo, hi)` and an empty range is refused |
| TypedGenerator.Generator.GetText | src/typed_generator.rs:12-23 | requires `maxlength >= 1` (`gen_range` panics on an empty range); the text is shorter than `maxlength` and every character is in the alphabet |
| TypedGenerator.Generator.GetInt | src/typed_generator.rs:24-26 | the text is the decimal rendering of a value below 1000 |
| TypedGenerator.Generator.GetFloat | src/typed_generator.rs:27-30 | the text renders a draw `a` in `[0, 99)` as hundredths |
| TypedGenerator.FloatText | src/typed_generator.rs:29 | the text of a/100 is `0` exactly for 0, one to four characters starting with `0`, and four long exactly when the last digit is not 0 |
| TypedGenerator.FloatTextRoundTrip | src/typed_generator.rs:28-29 | the float text reads back as exactly the hundredths drawn, and is `0` or `0.` followed by one or two digits |
| TypedGenerator.BoolText | src/typed_generator.rs:32 | a bool renders as exactly `true` or `false`, `true` exactly for true |
| TypedGenerator.Generator.GetBool | src/typed_generator.rs:31-33 | the text is `BoolText` of the bool drawn |
| TypedGenerator.Clock.TwoDaysAgo | src/typed_generator.rs:35-41 | the clock reading is a `%Y-%m-%dT%H:%M:%SZ` timestamp |
| TypedGenerator.Generator.GetTime | src/typed_generator.rs:34-42 | the text is a `%Y-%m-%dT%H:%M:%SZ` timestamp read from the clock, and the random source is untouched |
| JsonText.BeforePopSnoc | src/typed_generator.rs:45-48 | each loop round of `get_json` appends `"key":v,` with `v` the round number |
| JsonText.PopYieldsObject | src/typed_generator.rs:49-52 | after at least one round the `pop` removes a comma, and pushing `}` yields the joined object with no trailing comma |
| TypedGenerator.Generator.GetJson | src/typed_generator.rs:43-55 | the text is the object of ten keys, each of at most two alphabet characters, with values 0..9 in order; the popped character is a comma |
| JsonText.ObjectRoundTrip | src/typed_generator.rs:44-54 | the recognizer for RFC 8259 objects (names without escape sequences, unsigned integer values, no whitespace) reads an object text back as exactly its members, in order |
| JsonText.JsonObjectRoundTrip | src/typed_generator.rs:43-55 | `get_json`'s text parses as a JSON object with one member per key, the i-th with value i (keys may be empty or repeat) |
| JsonText.JsonObjectAvoids | src/typed_generator.rs:44-54 | the object contains no single quote, parenthesis or other character outside the alphabet, digits and `{}",:` |
| Schema.DEFAULT_TYPE_INFO | src/schema.rs:16-19 | `TypeInfo::default()` is `Text(0)` |
| Schema.DefaultIsUnknownText | src/schema.rs:16-19 | the default category is text, tagged with an id the type table does not know |
| Schema.TypeMapKeys | src/schema.rs:22-39 | the catalog table knows exactly the sixteen listed type ids |
| Schema.TypeMapSize | src/schema.rs:22-39 | the catalog table has exactly sixteen entries |
| Schema.TypeMapTags | src/schema.rs:22-39 | each entry is tagged with its own key, except 3802, which maps to `Json(16)` |
| Schema.TypeMapCategories | src/schema.rs:22-39 | which ids are Text, Int, Float, Bool, Time and Json, both directions of each |
| Schema.QuoteVal | src/schema.rs:109-111 | `quote_val(c, s)` is `s` with `c` added at both ends and nothing else |
| Schema.TextMaxLength | src/schema.rs:80-84 | the `maxlength` passed to `get_text`: 500 without a modifier, and at least 1 exactly when the modifier is above 4 or not positive |
| Schema.VarcharMaxLength | src/schema.rs:80-84 | for a `varchar(n)` column (type modifier n + 4) the text length bound is n |
| Schema.TextMaxLengthOfTypmod | src/schema.rs:80-84 | with a declared modifier the bound is the modifier less 4 |
| Schema.DEFAULT_ATTR_INFO | src/schema.rs:41-46 | `AttrInfo::default()`: empty name, `Text(0)`, modifier 0 |
| Schema.RenderAvoidsPunct | src/schema.rs:85-96 | no synthesized value contains a parenthesis or single quote, so no escaping is needed |
| Schema.FieldQuotes | src/schema.rs:85-96 | a Text or Time field carries exactly two single quotes, any other field none, and no field contains `(` |
| Schema.Table.GenerateField | src/schema.rs:78-97 | the field is the value drawn by the category's synthesizer, quoted for Text and Time, bare otherwise, with the text bound taken from the modifier |
| Schema.Table.GenerateOneValue | src/schema.rs:73-107 | the tuple is `(`, the fields of one drawn value per column in column order joined by commas, then `)`; only `(` for a table without columns |
| Schema.TupleParens | src/schema.rs:76-104 | every tuple contains exactly one `(` |
| Schema.Table.GenerateInsertBatch | src/schema.rs:57-72 | the statement is the head, `batch` tuples joined by commas and `;`; the table name and columns are unchanged |
| Schema.StatementTupleCount | src/schema.rs:57-72 | the statement holds one `(` per drawn row beyond those in the table name |
| Schema.EmptyBatchStatement | src/schema.rs:57-72 | with batch size 0 the statement is `insert into <t> values ;` |
| Schema.Table.constructor | src/schema.rs:48-54 | `Table::default()`: empty name, no columns, the given generator |
| SqlText.FieldRoundTrip | src/schema.rs:85-96 | a field is quoted exactly when its column is Text or Time, and unquoting it gives the synthesizer's text |
| SqlText.TupleRoundTrip | src/schema.rs:76-104 | splitting a tuple at top-level commas gives its fields, one per column in column order; a column-less table's `(` is no tuple |
| SqlText.StatementRoundTrip | src/schema.rs:57-72 | for a table with at least one column, reading a statement back gives exactly its tuples in row order |
| SqlText.BatchReadBack | src/schema.rs:57-107 | for a table with at least one column, a batch reads back as `batch` tuples, the i-th holding the fields of row i in column order |
| Catalog.CategoryOf | src/main.rs:67-75 | a known type id gets the table's entry, and a column keeps the default `Text(0)` exactly when its id is unknown |
| Catalog.DescribeAt | src/main.rs:64-79 | one column per catalog row in row order (`ColumnOf`, the loop body of src/main.rs:65-76), name and modifier copied, the table's entry for a known id and `Text(0)` for an unknown one |
| Catalog.DescribeAppend | src/main.rs:64-79 | describing more rows appends their columns after the earlier ones |
| Catalog.DescribeGenerable | src/main.rs:65-76 | a batch can be built for the described table exactly when every column generated as text has a modifier above 4 or none |
| Catalog.DescribeTable | src/main.rs:62-79 | the descriptor is named after the table and its columns are `Describe` of the catalog rows |
| MachineInts.TruncateToU32 | src/st_load.rs:28 | `as u32` keeps values below 2^32 and otherwise drops a multiple of 2^32 |
| StLoad.RowsAffected | src/st_load.rs:20-28 | an execute error counts as 0 rows, a row count as its truncation to 32 bits |
| StLoad.Connection.Execute | src/st_load.rs:20 | each call records the statement sent and returns the oracle's next answer |
| StLoad.Run | src/st_load.rs:17-29 | the loop's outcome after at most one round per answer: stalled runs use every answer with rows left, completed runs with rows to insert take at least one round |
| StLoad.Load | src/st_load.rs:17-29 | the answers are the connection's pending answers in order, errors past the end; the loop panics before any execute exactly when rows are wanted, the batch is not empty and a text column has no valid length; otherwise the outcome is `Run` of those answers; one batch built and executed per round; with `rows = 0` nothing is executed; every statement sent is recorded in order |
| StLoad.Rounds | src/st_load.rs:17-29 | for a table every batch can be built for, the outcome is `Run` of the connection's pending answers, with one recorded statement per round |
| StLoad.Round | src/st_load.rs:19-20 | one round builds a statement of `batch` rows, records it and answers the next pending answer |
| StLoad.LoadExactBatches | src/st_load.rs:17-29 | when the first q answers are `Ok(batch)`, the rows are q * batch and q rounds are allowed, the load completes in exactly q rounds |
| StLoad.LoadAllErrors | src/st_load.rs:20-28 | when every execute fails, the counter keeps every row and the load is still running after all the rounds allowed |
| StLoad.RunAppend | src/st_load.rs:18-29 | a run still going continues from the rows that remain, whatever came before |
| StLoad.NoProgressStalls | src/st_load.rs:20-26 | if no execute affects a row (every one fails, say), the counter never moves and the loop never ends |
| StLoad.ExactBatchesComplete | src/st_load.rs:17-29 | when the first q executes answer `Ok(b)` and the rows are q * b, the loop completes after exactly q rounds, rows / b |
| StLoad.OvershootUnderflows | src/st_load.rs:28 | when the first q + 1 executes answer `Ok(b)` and the rows are q * b + r with 0 < r < b, round q + 1 affects b of the r rows left and the subtraction underflows |

## Left out

- The wall clock and chrono formatting of `get_time`: a `Clock` object supplies readings that are already `%Y-%m-%dT%H:%M:%SZ` timestamps.
- TypedGenerator.Generator.GetTime: states the timestamp format only, not that the time is 48 hours before now, because the clock is outside the model.
- TypedGenerator.Generator.GetFloat: renders the draw as the exact decimal `a / 100` in shortest form; `f32` division and `f32::to_string` are floating point and are not modelled.
- Uniformity and distribution of the random draws, including `gen_bool(0.5)`: draws are arbitrary in-range values, and `RandomSource.Draw`'s body is one arbitrary generator that meets its contract.
- `Client::connect`, `client.query`, `client.close`, `std::process::exit` and all printing and logging (the unknown-type message, the execute error message): database and process I/O. The catalog rows are a parameter and `execute` is an oracle.
- Argument parsing, the connection string and the catalog query text in `src/main.rs`: command-line and I/O plumbing.
- `src/mt_load.rs` and the asynchronous strategy: threading and async execution are not part of this model; `async_load` (declared at src/main.rs:5, called at src/main.rs:85) is not modelled.
- The `phf_map!` machinery: `TYPE_MAP` is a plain `map`.
- The unused `_tid` and `_args` parameters: they are dropped.
- Schema.Table.GenerateField: requires a valid length bound for a text column, so the `gen_range` panic on a text column with type modifier 1 to 4 is not modelled here; `StLoad.Load` models it as `GeneratorPanic`.
- Schema.Table.GenerateOneValue: requires `Generable(tids)`, so rows of a table with a text column whose type modifier is 1 to 4 (an unknown type such as `time(3)`, say) are not modelled; such a row panics in `gen_range`, which `StLoad.Load` reports as `GeneratorPanic`.
- Schema.Table.GenerateInsertBatch: requires `Generable(tids)` for a non-empty batch, for the same reason; the panic is modelled one level up, in `StLoad.Load`.
- StLoad.Load: the random draws made for the columns before the panicking one are not modelled, since the process ends there.
- StLoad.Load: runs at most `fuel` rounds and then reports `Stalled`, because the source's loop need not terminate (every execute failing); a run that ends within `fuel` rounds is modelled exactly.
- StLoad.Load: ends the run with `Underflow` where the `u32` subtraction underflows, as a debug build panics; the release-build wrap-around to a huge remaining count is not modelled.
