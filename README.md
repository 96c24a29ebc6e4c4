# csv2sh in Dafny

`csv2sh` turns a table of commands into a shell script that replays a history
into a fresh git repository. Each row of the table holds a command kind and up
to four arguments:

- a `commit` row names a timestamp, a user key, an input directory and a
  message;
- a `tag` row names a tag.

The generated script has these parts:

- It opens with `mkdir out`, `pushd out` and `git init`.
- For every `commit` row it emits four lines:
  - a line that wipes the work tree;
  - a `cp -r <dir>/. .` that copies the input directory in;
  - `git add -A`;
  - a `git commit` whose committer and author are the registered user and
    whose dates are the row's timestamp, converted from `YYYY/MM/DD HH:MM:SS`
    to `YYYY-MM-DDTHH:MM:SS`.
- For every `tag` row it emits `git tag <name>`.
- It closes with `popd`.

An unknown command kind, or an existing `out` directory, yields an error and
no script.

The project has five modules:

- `Timestamp`: the strict timestamp conversion, with both round trips.
- `Users`: the `User` record and the built-in registry.
- `Script`: the specification. It gives the lines of each record, their
  accumulation in input order, and the script text, or the error that
  replaces it.
- `ScriptProperties`: what the script is. It covers the fixed frame,
  all-or-nothing failure, the first failing row deciding the error, the
  four-line shape of a commit, the one-line shape of a tag, and the
  case-insensitive kind match.
- `Csv2Sh`: `csv2sh` itself, as a loop that appends to a string record by
  record. It is proved to return exactly what `Script.Generate` specifies for
  the built-in registry. The module `Csv2ShScenario` replays the rows of the
  repository's unit test.

The panics of the source's `unwrap` calls are modelled as distinct error
outcomes. They follow the order in which the source evaluates a commit row:
ARG1, its timestamp, ARG2, the user lookup, ARG3, ARG4. A tag row only needs
ARG4.

The message after `-m` is written unquoted, as `src/main.rs:93` does, and the
registry holds the single user `taro` ("Test Test", `test.test@example.com`),
as `src/main.rs:37-44` builds it.

## Model

| member | source | states |
|---|---|---|
| Timestamp.ValueOfZeroPadded | src/main.rs:81-82 | writing a field with its fixed number of zero-padded digits and reading those digits back gives the field |
| Timestamp.ZeroPaddedOfValue | src/main.rs:79-80 | a run of digits is exactly the zero-padded spelling of its value, so every accepted field has one spelling |
| Timestamp.ParseRenderRoundTrip | src/main.rs:79-82 | a valid date and time, written with either pair of separators and read back with the same pair, is unchanged |
| Timestamp.RenderParseRoundTrip | src/main.rs:79-80 | every text the strict parser accepts is the rendering of the value it parses to |
| Timestamp.ReformatChangesOnlySeparators | src/main.rs:79-82 | the converted timestamp is the input with `/` turned into `-` and the space into `T`; every digit keeps its place |
| Timestamp.ReformatPreservesFields | src/main.rs:79-82 | reading the output with `%Y-%m-%dT%H:%M:%S` gives the same six fields as reading the input with `%Y/%m/%d %H:%M:%S`, with no zone shift |
| Users.NewUsers | src/main.rs:37-44 | the registry built by inserting into an empty map holds exactly the key `taro`, mapped to "Test Test" and `test.test@example.com` |
| ScriptProperties.UnlinesAppend | src/main.rs:60-63 | appending lines one at a time to the script text is the same as joining the concatenated line lists |
| ScriptProperties.HeaderAndFooterText | src/main.rs:61-63 | the header lines produce the text `mkdir out\npushd out\ngit init\n` and the footer produces `popd\n` |
| ScriptProperties.ScriptFrame | src/main.rs:53-63 | an existing `out` directory gives only the error naming `out`; otherwise every successful script starts with the three header lines and ends with `popd` |
| ScriptProperties.CollectAppend | src/main.rs:73-98 | splitting the records anywhere: the first error in the earlier part, then in the later part, decides the result; otherwise the lines of the two parts are concatenated in order |
| ScriptProperties.FirstFailingRow | src/main.rs:73-96 | when some record fails, there is a first one; every record before it succeeds |
| ScriptProperties.BodyLinesOfValidRows | src/main.rs:73-98 | when every record succeeds, the body text is each record's text concatenated front to back, none dropped, repeated or reordered |
| ScriptProperties.FirstFailureDecides | src/main.rs:73-96 | the error of the first failing record is the result; the records after it play no part |
| ScriptProperties.GenerateAllOrNothing | src/main.rs:52-101 | generation succeeds exactly when `out` is absent and every record succeeds; the text is then the header, each record's text in input order, and the footer; otherwise the result is the error of the first failing record, never a partial script |
| ScriptProperties.UnknownKindAborts | src/main.rs:75-96 | a record of any kind other than `commit` or `tag`, anywhere in the table, means no script; when no earlier record fails, the error names that kind as written |
| ScriptProperties.KindMatchIgnoresCase | src/main.rs:75 | the lower-cased kind equals a lower-case word exactly when, character by character, the kind has that letter in lower or upper case |
| ScriptProperties.CommitterIsAuthor | src/main.rs:93 | the commit line is the committer block, a space, the author block with the same name, e-mail and date, then `git commit -m` and the message as written |
| ScriptProperties.CommitRecordLines | src/main.rs:76-94 | a commit row succeeds exactly when its four arguments are present, its timestamp parses and its user is registered; it then yields the wipe line, `cp -r ARG3/. .`, `git add -A` and the commit line dated with the converted ARG1 |
| ScriptProperties.TagRecordLines | src/main.rs:95 | a tag row yields exactly `git tag ARG4`, or the missing-ARG4 error; ARG1 to ARG3 and the registry play no part |
| Csv2Sh.ScriptStep | src/main.rs:73-98 | appending the text of one more succeeding record keeps the loop invariant: the string is the header and the lines of the records read so far |
| Csv2Sh.ScriptEnd | src/main.rs:99-100 | after the last record, appending `popd\n` gives exactly the specified script |
| Csv2Sh.FailureAfterValidPrefix | src/main.rs:96 | an error returned from inside the loop, after records that all succeeded, is exactly the specified result |
| Csv2Sh.CommitText | src/main.rs:76-94 | the commit arm appends the four lines of the record, or returns the error its first missing or invalid input causes |
| Csv2Sh.RecordText | src/main.rs:75-97 | the loop body returns the text of the record's lines, dispatched on the lower-cased kind, or that record's error |
| Csv2Sh.Csv2Sh | src/main.rs:52-101 | the string built by the loop over the records equals the specified script for the built-in registry, or the specified error |
| Csv2ShScenario.FirstDateReformat | src/main.rs:110-120 | the unit test's `2014/02/03 03:40:00` converts to `2014-02-03T03:40:00` |
| Csv2ShScenario.SecondDateReformat | src/main.rs:111-124 | the unit test's `2014/12/03 15:32:00` converts to `2014-12-03T15:32:00` |
| Csv2ShScenario.TestCommitRow | src/main.rs:90-93 | a commit row for user `taro` yields the four lines under the identity "Test Test" / `test.test@example.com` |
| Csv2ShScenario.TestTagRow | src/main.rs:112-125 | the unit test's tag row yields `git tag docs/ios/1.0.0` |
| Csv2ShScenario.SourceTestScenario | src/main.rs:108-130 | the unit test's three records give the header, the four lines of each commit with the converted dates and the `taro` identity, the tag line and `popd`, in that order |

## Left out

- `main`, its argument-count check, usage message and exit codes (src/main.rs:23-35) are command-line plumbing and are not modelled.
- `csv_file2sh` (src/main.rs:46-50) reads a file and prints the result; this file and console I/O are not modelled.
- The `Path::new("out").exists()` query (src/main.rs:54) is a filesystem call. It is the boolean input `outDirExists` of `Csv2Sh.Csv2Sh`.
- The `csv` crate's reader and deserialisation (src/main.rs:72-74), including its header handling and the error `result?` propagates, are a foreign library. The model receives the already-parsed records, with an empty field as `None`.
- The debug `println!` of ARG1 (src/main.rs:78) writes to standard output and does not affect the returned script.
- Csv2Sh.Csv2Sh: the source panics on a missing argument, an unparsable timestamp or an unknown user. Here each panic is a distinct `Error` value returned in the source's evaluation order, not a crash.
- Timestamp.ReformatChangesOnlySeparators: chrono's `parse_from_str` also accepts some non-canonical spellings, such as single-digit fields. The model accepts only the canonical zero-padded 19-character layout, with Gregorian day validity and seconds up to 60.
- ScriptProperties.KindMatchIgnoresCase: `to_lowercase` is Unicode-aware, while the model lower-cases ASCII letters only. The only non-ASCII character whose lower case is a single ASCII letter is the Kelvin sign, which becomes `k`, a letter in neither word, so both agree on which kinds are `commit` and `tag`.
- Csv2ShScenario.SourceTestScenario: it states the expected script as its list of lines. The joining into text is `Script.Generate`, and the two commit lines are written through `Script.CommitLine`, whose layout `ScriptProperties.CommitterIsAuthor` states. The 13-line text literal of the test is not compared character by character.
