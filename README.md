# seed_dump: the dump engine as its test suite fixes it

`SeedDump.dump` turns the records of an ActiveRecord model into the text of a
seeds file. Its behaviour is fixed byte for byte by the examples of
`spec/dump_methods_spec.rb`. This project models that behaviour and proves
the examples' expectations and the general properties behind them.

- **Text** (`text.dfy`): the string operations the suite relies on.
  These are `Array#join`, `String#gsub` with a literal pattern and a
  replacement without backslashes, ASCII character classes and `downcase`,
  and `Integer#to_s` with a parser that reads its output back.
- **Inflector** (`inflector.dfy`): the suite's `underscore` helper. It is a
  chain of four rewrites and a downcase. Each regular expression is written
  out as the scan the regex engine performs. The two splitting rewrites are
  each proved equal to a position-by-position reference that puts an
  underscore at exactly the boundaries of the input.
- **UpdateTemplate** (`template.dfy`): the `@update_code` template with its
  `[model_name]` and `[var_name]` holes, and the two `gsub` calls that fill
  them. `FilledLines` is an independent description of the filled-in text,
  and the proofs compare substitution against it.
- **Records** (`records.dfy`): records as ordered `(name, value)` lists.
  Covers value printing, a reader that inverts it, exclusion as an
  order-keeping filter, and printing a record as `{name: value, ...}`.
- **SeedDump** (`dump.dfy`): the dump itself.
  - A relation is read in primary-key order, batch by batch.
  - An array is read in its own order.
  - The batching loop (`WriteRecords` and `WriteBatch`) is proved to write
    exactly the records joined by `",\n  "`, whatever the batch size.
  - `Dump` returns `None` for no records. It otherwise returns
    `sample = [\n  ` + records + `\n]\n` + the filled template.
  - `Destination` is the file written by the `file:` option, overwritten or
    appended to depending on `append:`.
- **DumpMethodsSpec** (`dump_methods_spec.dfy`): the suite itself.
  - The three factory samples.
  - `expected_output` as a method on the example's state, which holds
    `@update_code`.
  - One method per example of `describe '.dump'`, each proving that the
    engine yields exactly what the example expects. The examples at lines
    49-51 and 85-87 make the same call with the same expectation, so
    `ReturnsDumpOfModels` stands for both.

These readings of the suite shape the engine:

- The default `exclude` is `id`, `created_at` and `updated_at`. The expected
  records at line 31 carry no id and no timestamps, although the samples
  have both.
- An explicit `exclude:` replaces the default set instead of adding to it.
  Line 119 lists the defaults again alongside its own names, so the suite
  does not decide between replacing and adding. Both readings give the same
  text there.
- The update template is appended to every dump.
- A `time` column prints its full stored value (`"2000-01-01 03:15:00"`),
  not the time of day alone.
- With `file:`, `dump` still returns the text it writes. Lines 64 and 71-72
  never look at the return value, so the suite leaves this open.
- A dump with no records leaves the file untouched: nothing is written, and
  the file is not emptied even without `append:`. No example dumps an empty
  model to a file, so the suite leaves this open too.

## Model

| member | source | states |
|---|---|---|
| Text.Join | spec/dump_methods_spec.rb:36 | `xs.join(sep)`: the elements with `sep` between neighbours. `JoinAppend` constrains it. |
| Text.JoinAppend | spec/dump_methods_spec.rb:36 | Joining two non-empty lists is joining each, with one separator between them. |
| Text.ReplaceAll | spec/dump_methods_spec.rb:34 | `s.gsub(pat, rep)` for a literal pattern: a left-to-right scan that replaces each match and resumes after it. `ReplaceAllAbsent` and `ReplaceAllConcat` constrain it. |
| Text.ReplaceAllAbsent | spec/dump_methods_spec.rb:34 | `gsub` with a literal pattern that does not occur leaves the string unchanged. |
| Text.ReplaceAllConcat | spec/dump_methods_spec.rb:34 | When no occurrence straddles the seam, `gsub` over a concatenation is the concatenation of the two `gsub`s. |
| Text.ToLower | spec/dump_methods_spec.rb:23 | ASCII `downcase` of one character: the result is never upper case, a capital moves to its lower-case letter, and anything else stays. |
| Text.IntToString | spec/dump_methods_spec.rb:31 | `Integer#to_s`, the form of `42` and of the ids. `ParseIntToString` constrains it. |
| Text.ParseIntToString | spec/dump_methods_spec.rb:31 | An integer's printed form reads back as the same integer, so printing `42` or an id loses nothing. |
| Inflector.SlashNamespaces | spec/dump_methods_spec.rb:19 | Step 1, `gsub(/::/, '/')`. `SlashNamespacesReversible` constrains it. |
| Inflector.SlashNamespacesReversible | spec/dump_methods_spec.rb:19 | On a word without `/`, turning each `/` back into `::` undoes the namespace rewrite. |
| Inflector.SplitAcronyms | spec/dump_methods_spec.rb:20 | Step 2 as the regex scan: a greedy upper-case run of two or more, directly followed by a lower-case letter, gets an underscore before its last capital. `SplitAcronymsSeparated` constrains it. |
| Inflector.AcronymSeparated | spec/dump_methods_spec.rb:20 | The reference for step 2, read position by position: an underscore after every capital that a capital and a lower-case letter follow, and nothing else added. |
| Inflector.UpperRunIsRun | spec/dump_methods_spec.rb:20 | The run that `[A-Z]+` matches is upper case throughout and ends at the first other character. |
| Inflector.SplitAcronymsSeparated | spec/dump_methods_spec.rb:20 | Step 2 equals its reference for every input: its underscores stand at exactly the two-capitals-then-lower boundaries of the input. |
| Inflector.SplitAcronymsOnlyInserts | spec/dump_methods_spec.rb:20 | The acronym rewrite only inserts underscores: with underscores removed, its output equals its input. |
| Inflector.SplitAcronymsLeavesNoBoundary | spec/dump_methods_spec.rb:20 | After step 2, no two capitals are directly followed by a lower-case letter. |
| Inflector.SplitCamel | spec/dump_methods_spec.rb:21 | Step 3 as the regex scan: an underscore between a lower-case letter or digit and the capital after it. `SplitCamelSeparated` constrains it. |
| Inflector.CamelSeparated | spec/dump_methods_spec.rb:21 | The reference for step 3: an underscore inside every `[a-z\d][A-Z]` pair of the input, and nothing else added. |
| Inflector.SplitCamelSeparated | spec/dump_methods_spec.rb:21 | Step 3 equals its reference for every input: its underscores stand at exactly the camel-case boundaries of the input. |
| Inflector.SplitCamelOnlyInserts | spec/dump_methods_spec.rb:21 | The camel-case rewrite only inserts underscores: with underscores removed, its output equals its input. |
| Inflector.SplitCamelLeavesNoBoundary | spec/dump_methods_spec.rb:21 | After step 3, no lower-case letter or digit is directly followed by a capital. |
| Inflector.DashesToUnderscores | spec/dump_methods_spec.rb:22 | Step 4, `tr("-", "_")`, character by character. `UnderscoreIsSnakeCase` constrains it. |
| Inflector.Downcase | spec/dump_methods_spec.rb:23 | Step 5, ASCII `downcase`, through `Text.ToLower`. `UnderscoreIsSnakeCase` constrains it. |
| Inflector.Underscore | spec/dump_methods_spec.rb:18-24 | `underscore`: the five steps in the order of the chain. The lemmas below and those on each step constrain it. |
| Inflector.UnderscoreIsSnakeCase | spec/dump_methods_spec.rb:18-24 | For every input, the result of `underscore` has no upper-case ASCII letter and no dash. |
| Inflector.SplitAcronymsNoUpper | spec/dump_methods_spec.rb:20 | Step 2 leaves a string without capitals unchanged. |
| Inflector.SplitCamelNoUpper | spec/dump_methods_spec.rb:21 | Step 3 leaves a string without capitals unchanged. |
| Inflector.UnderscoreKeepsSnakeCase | spec/dump_methods_spec.rb:18-24 | A word with no upper-case letter, no `::` and no `-` comes back unchanged. |
| Inflector.UnderscoreSample | spec/dump_methods_spec.rb:18-24 | `underscore("Sample")` is `sample`, the name line 34 substitutes by hand. |
| UpdateTemplate.Substitute | spec/dump_methods_spec.rb:34 | `code.gsub("[model_name]", model).gsub("[var_name]", var)`, in that order. The three lemmas below constrain it. |
| UpdateTemplate.FilledLines | spec/dump_methods_spec.rb:5-15 | The reference for the filled template: the lines of `@update_code` with each hole replaced by its name. |
| UpdateTemplate.SubstituteFillsTemplate | spec/dump_methods_spec.rb:5-15 | For a model name without `[`, substituting into `UpdateCode`, the constant holding the text of lines 5-15, gives `FilledLines`: its three holes filled and every other character kept. |
| UpdateTemplate.SubstituteLeavesNoPlaceholder | spec/dump_methods_spec.rb:34 | After substitution, no `[model_name]` or `[var_name]` is left, provided the names themselves hold no `[`. |
| UpdateTemplate.SubstituteIdempotent | spec/dump_methods_spec.rb:34 | Once the template is filled with names without `[`, substituting again, with any second pair of names, changes nothing. |
| UpdateTemplate.ReplaceAllUnlines | spec/dump_methods_spec.rb:5-15 | A `gsub` whose pattern holds no newline works line by line on the template. |
| Records.RenderValue | spec/dump_methods_spec.rb:31 | How each value kind prints: strings, decimals, dates, times and binaries quoted, numbers and booleans bare, `nil` as the keyword. `ReadRenderedValue` constrains it. |
| Records.ReadValue | spec/dump_methods_spec.rb:31 | The reference reader: the value a printed text stands for in a column of a given kind. |
| Records.ReadRenderedValue | spec/dump_methods_spec.rb:31 | Each value kind prints so that it reads back as the same value in a column of its kind: quoted strings, decimals, dates, times and binaries, bare integers and floats, and `false` printed as a value of its own. |
| Records.Project | spec/dump_methods_spec.rb:119 | Exclusion: the attributes whose names are not excluded, in column order. The six lemmas below constrain it. |
| Records.ProjectMembers | spec/dump_methods_spec.rb:113-120 | An attribute survives exclusion if and only if it is in the record and its name is not excluded. |
| Records.ProjectAppend | spec/dump_methods_spec.rb:113-120 | Exclusion works attribute by attribute, so the kept attributes stay in column order. |
| Records.ProjectKeepsAll | spec/dump_methods_spec.rb:31 | A record with no excluded name is kept whole. |
| Records.ProjectDropsAll | spec/dump_methods_spec.rb:119 | A record whose every name is excluded vanishes. |
| Records.ProjectIgnoresUnknownNames | spec/dump_methods_spec.rb:119 | Excluded names that are not attributes of the record have no effect. |
| Records.ProjectTwice | spec/dump_methods_spec.rb:119 | Excluding one set and then another is excluding their union. |
| Records.RenderRecord | spec/dump_methods_spec.rb:31 | A record printed as `{name: value, ...}` over its kept attributes. `KeptAttributeIsPrinted` and `ExcludedAttributeIsNotPrinted` constrain it. |
| Records.KeptAttributeIsPrinted | spec/dump_methods_spec.rb:31 | Every attribute that is not excluded is printed, whatever its value, including `false`. |
| Records.ExcludedAttributeIsNotPrinted | spec/dump_methods_spec.rb:113-120 | An attribute with an excluded name never reaches the printed record. |
| SeedDump.SortById | spec/dump_methods_spec.rb:84-88 | The rows in primary-key order: sorted by id and a permutation of the stored rows. |
| SeedDump.SortedByKeyUnique | spec/dump_methods_spec.rb:84-88 | Two id-sorted permutations of rows whose ids are keys are equal. |
| SeedDump.Ordered | spec/dump_methods_spec.rb:84-88 | The order records are dumped in: a relation by `SortById`, an array as given. `DumpTextIgnoresStorageOrder` constrains it. |
| SeedDump.Count | spec/dump_methods_spec.rb:80-82 | `records.count`: the number of records that will be dumped. |
| SeedDump.FetchBatch | spec/dump_methods_spec.rb:91-100 | A batch is the next slice of the ordered records: at most the batch size, and short only at the end. |
| SeedDump.PrintBatch | spec/dump_methods_spec.rb:96-100 | Writing one more batch and its separator extends the text by exactly that batch's records. |
| SeedDump.WriteBatch | spec/dump_methods_spec.rb:96-100 | One batch step advances the offset and keeps the text equal to the records written so far. |
| SeedDump.WriteRecords | spec/dump_methods_spec.rb:91-100 | The batching loop writes every record once, in order, joined by `",\n  "`, for every batch size. |
| SeedDump.Assemble | spec/dump_methods_spec.rb:36 | The layout of a dump: `var = [\n  `, the records joined by `",\n  "`, `\n]\n` and the filled template. `SampleAssembled` checks it against `expected_output`. |
| SeedDump.DumpText | spec/dump_methods_spec.rb:39-122 | The closed form of `dump`: `nil` for no records, otherwise `Assemble` over the ordered, printed records. `Dump` is proved against it. |
| SeedDump.Dump | spec/dump_methods_spec.rb:39-122 | `dump` returns exactly the assembled text: `nil` for no records, otherwise header, records, footer and template. |
| SeedDump.DumpTextNilIffEmpty | spec/dump_methods_spec.rb:80-82 | The dump is `nil` if and only if there are no records. |
| SeedDump.DumpTextIgnoresStorageOrder | spec/dump_methods_spec.rb:84-88 | A relation's dump is the same whatever order its rows are stored in. |
| SeedDump.Destination.Write | spec/dump_methods_spec.rb:63-75 | Writing replaces the file's contents, or appends to them when `append` is set. |
| SeedDump.DumpToFile | spec/dump_methods_spec.rb:63-75 | With a file, the dump is also written to it, overwriting or appending. With nothing to dump, the file is left alone. |
| DumpMethodsSpec.ExpectedRecord | spec/dump_methods_spec.rb:31 | The expected text of the record with id `i`, with or without the id. `SampleRowPrinted` ties it to the printed sample. |
| DumpMethodsSpec.ExpectedText | spec/dump_methods_spec.rb:26-37 | The closed form of `expected_output`. `SpecContext.ExpectedOutput` is proved against it. |
| DumpMethodsSpec.SpecContext.constructor | spec/dump_methods_spec.rb:4-16 | The `before` block: `@update_code` holds the unfilled template. |
| DumpMethodsSpec.SpecContext.FillUpdateCode | spec/dump_methods_spec.rb:34 | The in-place `gsub` pair: `@update_code` becomes its own substitution with `Sample` and `sample`. |
| DumpMethodsSpec.SpecContext.ExpectedOutput | spec/dump_methods_spec.rb:26-37 | `expected_output` builds the records for ids `1 + id_offset` to `3 + id_offset` and fills `@update_code` in place. The result is the header, the records and the filled template. |
| DumpMethodsSpec.ExpectedTextIsStable | spec/dump_methods_spec.rb:70-75 | A second `expected_output` in one example finds the template already filled and gives the same text. |
| DumpMethodsSpec.SampleRowPrinted | spec/dump_methods_spec.rb:31 | A stored sample prints as the record line 31 expects, with or without its id. |
| DumpMethodsSpec.SamplesInKeyOrder | spec/dump_methods_spec.rb:30-32 | Three samples with ids `1..3` (plus an offset), stored in any order, are read in ascending id order. |
| DumpMethodsSpec.SamplesDumpAsExpected | spec/dump_methods_spec.rb:26-37 | For any batch size, the samples dump to exactly `expected_output`, as a relation and as an id-ordered array. |
| DumpMethodsSpec.ExcludedText | spec/dump_methods_spec.rb:116 | The text line 116 expects, for a given filled template. |
| DumpMethodsSpec.SampleColumnsExcluded | spec/dump_methods_spec.rb:116-119 | Excluding `string`, `float` and `datetime` keeps the other sample columns in their order. |
| DumpMethodsSpec.SamplesDumpExcluding | spec/dump_methods_spec.rb:113-120 | With the exclude option of line 119, the samples dump to exactly the text of line 116. |
| DumpMethodsSpec.ReturnsDumpOfModels | spec/dump_methods_spec.rb:48-52 | `SeedDump.dump(Sample)` equals `expected_output` for every storage order of the samples. Lines 84-88 make the same call and expect the same text, so this method covers them too. |
| DumpMethodsSpec.DumpsToFile | spec/dump_methods_spec.rb:63-67 | After a dump to a new file, the file holds `expected_output`. |
| DumpMethodsSpec.AppendsToFile | spec/dump_methods_spec.rb:69-76 | A dump followed by an appending dump leaves `expected_output + expected_output` in the file. |
| DumpMethodsSpec.EmptyModelGivesNil | spec/dump_methods_spec.rb:80-82 | A model with no rows dumps to `nil`. |
| DumpMethodsSpec.BatchSizeHundred | spec/dump_methods_spec.rb:92-94 | `batch_size: 100` raises nothing and gives `expected_output`. |
| DumpMethodsSpec.SmallBatchesKeepAllRecords | spec/dump_methods_spec.rb:96-100 | Batch sizes 2 and 1 both give `expected_output`. |
| DumpMethodsSpec.ArrayDump | spec/dump_methods_spec.rb:104-106 | The loaded array with `batch_size: 2` gives `expected_output`. |
| DumpMethodsSpec.EmptyArrayGivesNil | spec/dump_methods_spec.rb:108-110 | An empty array dumps to `nil`. |
| DumpMethodsSpec.ExcludesAttributes | spec/dump_methods_spec.rb:113-120 | The exclude example's dump equals its expected text, with the template filled in place. |

## Left out

- The implementation of `SeedDump.dump` is not part of this model. The engine is built from what the examples assert about it.
- Rails and its database are not modelled: `eager_load!`, `create_db`, `FactoryGirl.create_list` and `records.count`. A table is a sequence of rows with primary keys, given as a parameter.
- The factory definitions are not part of this model. The sample values are read off the expected strings. `created_at` and `updated_at` hold any value, since they are never printed.
- `Sample.all.to_a` is modelled as the stored rows in primary-key order.
- Real files are not modelled: `Dir::Tmpname.make_tmpname`, `File.open` and `File.unlink`. `Destination` is an in-memory file. A fresh one stands for the temporary name, which does not exist yet.
- Float, decimal and date/time formatting are not modelled. Those values arrive as the text the database layer prints.
- Ruby's `inspect` escaping of quotes and control characters inside strings is not modelled. `Quote` wraps the text as it is.
- `gsub` is modelled only with a non-empty literal pattern, the form the suite uses. Regular expressions appear only as the three hand-written rewrites of `underscore`.
- Character classes and `downcase` are ASCII only: `underscore`'s rewrites and `Downcase` leave every other character alone, where Ruby's `downcase` would also fold non-ASCII capitals.
- Text.ReplaceAll: inserts the replacement verbatim. Ruby expands `\0`, `\&`, `\1` and `\\` in a String replacement even with a String pattern, so the model agrees with Ruby only for replacements without a backslash. The suite's replacements (`Sample`, `sample`, `/`) have none.
- UpdateTemplate.SubstituteFillsTemplate: holds as stated of `ReplaceAll`, and so of Ruby's `gsub` only for names without a backslash. The same goes for `SubstituteLeavesNoPlaceholder` and `SubstituteIdempotent`.
- A relation that carries its own order (`Sample.order(...)`) is not modelled. `Ordered` always sorts a relation by primary key, the behaviour lines 84-88 fix for a relation without an order.
- UpdateTemplate.SubstituteLeavesNoPlaceholder: requires names without `[`. A name holding a placeholder would bring it back, as it would in Ruby.
- UpdateTemplate.SubstituteFillsTemplate: requires a model name without `[`. A model name holding `[var_name]` would have that hole filled by the second `gsub` too, as it would in Ruby, so the result would differ from `FilledLines`.
- UpdateTemplate.SubstituteIdempotent: requires first names without `[`, for the same reason: a placeholder brought in by a name would be filled by the second substitution.
- The generated update-or-create code (`find_by_key`, `update_attributes`, `create!`) is emitted as text and never run.
- 'should not raise an exception' is shown only by `BatchSizeHundred` being total. Ruby exceptions are not modelled.
