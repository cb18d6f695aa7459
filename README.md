# LTIM age and sex table: the cleanup after extraction

The ONS long-term international migration table 2.07 (1991-2016, by age
and sex) is converted by one script, `main.py`. It reads two blocks of
the worksheet with databaker: the revised estimates and the original
estimates. Each block becomes a pandas DataFrame with one row per
observation cell. The script then cleans the combined table step by step
and writes it out as `observations.csv`.

This project models that cleanup, `main.py` lines 99-155, and the
parts of the two extraction segments it relies on.

- **The extraction segments** (`Extraction`). An `Observation` holds the values databaker
  resolved for one observation cell. `Segment` builds the DataFrame of one
  segment: the constant Measure Type and Unit, the Age value overrides,
  and, for the original estimates only, the constant Revision.
- **The table** (`Frames`). A DataFrame is its ordered column labels, the set of categorical
  columns, and its rows as maps from column label to cell, where a cell
  is NaN, a string or an integer. Each pandas call the script makes is
  one function here: outer `concat`, column assignment, `apply`, `map`,
  `replace`, `dropna`, `drop`, `rename`, `rename_categories` and
  projection. Each returns the pandas exception (KeyError,
  AttributeError, ValueError) as an `Err`.
- **The per-value rules** (`Rules`, `PyInt`):
  - the Revision lambda;
  - the CI lambda, with Python's `int()` on the text before `.0`;
  - the Age overrides;
  - the Geography, Age and Sex code tables.
- **The script** (`Pipeline`). `Run` performs the script's updates of `tidy` in the script's
  order. The category loop is the method `CategorizeColumns`. `Run`
  proves three things:
  - The KeyError and AttributeError paths of these calls never fire.
  - Among the modelled steps, the script fails exactly in three cases.
    The first is when no observation was extracted at all: line 103 then
    assigns a whole table to the Revision column. The second is when the
    text before the final `.0` of a surviving row's CI is not an integer
    literal. The third is when a rename would merge two categories. The
    ValueErrors that lines 111 and 123 can raise are not modelled (see
    "Left out").
  - Otherwise every output row is `OutputRow` of a surviving observation,
    in table order: each label is replaced by its code where the table
    has one, and the Revision is read from the raw CI.

The lambda on line 104 reads the CI before line 125 rewrites `:` to the
empty string. The model keeps that order: Revision depends on the raw
CI, the CI column on its coerced value.

On a table with no rows, `apply(axis=1)` does not call the lambda on any
row. It first calls the lambda once on an empty probe row. The pandas
releases of the script's era pass an empty Series there. Reading `CI`
from it raises, so pandas returns a copy of the ten-column table, and
assigning that copy to the single column `Revision` raises ValueError.
The model follows this behaviour (`Frames.ApplyRows`,
`Frames.AssignApplied`). Later pandas releases pass a row of NaN under
the table's columns instead. There the lambda answers
'Original Estimate' and the assignment succeeds with an empty column.

The CI lambda turns an empty CI into `'ERR'`, because only `:` becomes
the empty string. A CI text ending in `.0` whose prefix is not an integer
literal (for example `1.5.0`) makes `int()` raise ValueError, so the
whole run fails. That text does not become `'ERR'`. The model follows
the code in both cases.

## Model

| member | source | states |
|---|---|---|
| Wrappers.MapAll | main.py:103-106 | applying a row or cell function to a whole column succeeds exactly when it succeeds on every element; the values are its results in order, and an error is the one from the first element that fails |
| Frames.Concat | main.py:99 | the outer concatenation keeps the first table's columns first, then the second's new ones in the second table's order, and is never categorical; it has len(a)+len(b) rows, a's rows first and in order; every row has a cell for every column, NaN where its own table had none; well-formed inputs give a well-formed table |
| Frames.AssignColumn | main.py:103 | assigning a column sets that cell of every row to the given value, appends the column when it is new, drops its categorical dtype, and leaves every other cell of every row unchanged |
| Frames.ApplyRows | main.py:103-106 | `apply(axis=1)` succeeds exactly when the function succeeds on every row, and gives its result for each row in order; it hands back a copy of the table instead exactly when the table has no rows and the function raises on the empty probe row |
| Frames.AssignApplied | main.py:103 | assigning the result of `apply` to one column succeeds exactly when it is a column or a one-column table, and otherwise raises ValueError; a column is assigned cell by cell |
| Frames.MapColumn | main.py:124-125 | `map` on a missing column is a KeyError; it succeeds exactly when the function succeeds on every cell of the column; on success that column holds the images and all other cells are unchanged |
| Frames.ReplaceValue | main.py:118 | a missing column is a KeyError; otherwise every cell equal to the old value in that column becomes the new value, and nothing else changes |
| Frames.KeepRows | main.py:119 | the rows kept by dropna have no NaN in the subset column and are no more than the input rows |
| Frames.KeepRowsInOrder | main.py:119 | dropna keeps exactly the rows whose cell is not NaN, at strictly increasing positions, in their original relative order |
| Frames.DropMissing | main.py:119 | a missing subset column is a KeyError; otherwise the columns are unchanged and the rows are the non-NaN rows in order |
| Frames.Without | main.py:121 | dropping a label from the column list leaves exactly the other labels, still distinct and in their original order |
| Frames.DropColumn | main.py:120-121 | dropping a missing column is a KeyError; otherwise the column disappears from the labels, the others keep their order, it disappears from every row, and every other cell is kept |
| Frames.RenameColumn | main.py:122 | renaming a missing column changes nothing; otherwise the label is replaced in place in the column order, each row's cell moves to the new label, and all other cells are kept |
| Frames.RenameCategories | main.py:135-152 | a missing column is a KeyError, a non-categorical one an AttributeError, and renaming that merges two categories a ValueError; otherwise every non-NaN cell of the column is replaced by its image and nothing else changes |
| Frames.RenamedCategories | main.py:135-152 | after a successful rename, the categories are exactly the images of the old categories, and there are as many of them as before |
| Frames.InjectiveImageSize | main.py:135-152 | a renaming that merges no categories keeps their number |
| Frames.FirstAbsent | main.py:154-155 | the label reported missing is one requested that the table lacks; none is reported exactly when all are present |
| Frames.Select | main.py:154-155 | projection succeeds exactly when every requested column exists, otherwise a KeyError names a missing one; the result has exactly the requested columns in the requested order, the same rows, and each kept cell unchanged |
| PyInt.ParseStr | main.py:125 | `int(str(n)) == n` for every integer n |
| PyInt.NatStrValue | main.py:125 | the decimal digits of n spell n |
| PyInt.SeparatorIsNotSpace | main.py:125 | `int('\x1c5')` raises ValueError: the ASCII separator U+001C is not whitespace that `int()` skips |
| PyInt.NeedsADigit | main.py:125 | a text containing no decimal digit is never an integer literal, so `int()` raises |
| Rules.RevisionOf | main.py:103-106 | a row without CI raises KeyError; otherwise the Revision is '2011 Census Revision' exactly when the CI is ':' and 'Original Estimate' exactly when it is not |
| Rules.CoerceCi | main.py:124-125 | ':' becomes ''; other text ending in '.0' becomes the integer that `int()` parses from it without the last two characters, or raises ValueError; any other text becomes 'ERR'; a non-string has no `endswith` (AttributeError) |
| Rules.CoerceCiRoundTrip | main.py:124-125 | the text `str(n) + '.0'`, which is what Python prints for an integral float below 10^16, coerces back to n |
| Rules.CoercedCiShape | main.py:124-125 | a coerced CI is '', an integer or 'ERR', and it is '' exactly when the raw CI was ':' |
| Rules.BarePointZeroFails | main.py:124-125 | the CI '.0' is not turned into 'ERR'; `int('')` raises ValueError |
| Rules.AgeOverridesFeedRecode | main.py:61-63 | '45-59/642' ends as 'agr/45-59-or-64', '60/65 and over3' as 'agr/60-or-65-and-over' and 'All Ages' as 'all'; no overridden raw text survives the override and the Age recode |
| Rules.GeographyCodeTable | main.py:135-138 | the Geography codes are distinct and none of them is itself a Geography label |
| Rules.AgeCodeTable | main.py:139-146 | the Age codes are distinct and none of them is itself an Age label |
| Rules.SexCodeTable | main.py:147-151 | the Sex codes are distinct and none of them is itself a Sex label |
| Rules.RenameCollision | main.py:135-151 | for such a code table, `rename_categories` fails exactly when some label and its own code are both among the categories |
| Rules.GeographyRenameFails | main.py:135-138 | the Geography rename fails exactly when 'United Kingdom' appears together with 'K02000001', or 'England and Wales' together with 'K04000001' |
| Rules.UnmappedUnchanged | main.py:135-151 | a label the table does not map, and any non-string, is left exactly as it was |
| Extraction.Segment | main.py:66-92 | a converted segment is a well-formed table with the segment's columns and no categorical ones, one row per observation. Every row has Measure Type 'Count', Unit 'People (thousands)' and the overridden Age label. Its Revision is 'Original Estimate' in the original-estimates segment and absent in the other |
| Pipeline.Survivors | main.py:118-119 | every observation kept after the '' to NaN replacement and dropna has a value |
| Pipeline.SurvivorsMembers | main.py:118-119 | an observation is kept exactly when it is neither NaN nor empty |
| Pipeline.OutputRowShape | main.py:72-73 | an output row has exactly the ten output columns, Measure Type 'Count' and Unit 'People (thousands)' |
| Pipeline.OutputRowRevision | main.py:103-106 | an output row's Revision is '2011 Census Revision' exactly when the raw CI was ':' and 'Original Estimate' exactly when it was not, whatever the segment set |
| Pipeline.OutputRowLabels | main.py:135-151 | an output row's Value is the observation, and its Geography and Sex are coded when the table maps them and unchanged otherwise |
| Pipeline.Combine | main.py:99-106 | the concat and the Revision apply fail exactly when no observation was extracted, with ValueError; otherwise the table has the nine extracted columns plus Revision, one row per observation, revised first, and every row's Revision comes from its CI, the original estimates' constant being overwritten |
| Pipeline.CategorizeColumns | main.py:128-130 | the loop makes every column other than Value, Year and CI categorical and changes nothing else |
| Pipeline.Encode | main.py:135-155 | the four renames succeed exactly when none merges two categories, and otherwise raise ValueError; the projected table has the output columns in order and each row is the output row of its observation |
| Pipeline.Run | main.py:99-155 | among the modelled steps, the script fails exactly when no observation was extracted, when the text before the final '.0' of some surviving CI is not an integer literal, or when a rename merges two categories, and with no other exception from those steps. An empty extraction raises the ValueError of the Revision assignment, and otherwise an unparsable CI raises the ValueError of `int()`. On success the output has the ten columns in order and one row per surviving observation, in table order, each equal to OutputRow of it |
| Pipeline.RelabelRow | main.py:92 | relabelling a row gives its Revision from the CI, whatever Revision it had before |
| Pipeline.ConcatStage | main.py:99 | the concatenated table has the extracted columns followed by Revision, and one row per observation, revised rows first and then original rows, each holding its own observation's values |
| Pipeline.RelabelStage | main.py:103-106 | the Revision apply cannot raise; its assignment succeeds exactly when the table has rows, and then every row ends with the Revision read from its CI |
| Pipeline.ReplaceStage | main.py:118 | the replacement cannot raise, and turns exactly the empty observations into NaN |
| Pipeline.KeepReplaced | main.py:119 | the rows dropna keeps are those of the surviving observations, in order |
| Pipeline.DropStage | main.py:119 | dropna cannot raise on this table and keeps exactly the surviving observations' rows |
| Pipeline.NoDataMarker | main.py:120-121 | the extracted table has no DATAMARKER column, so the drop is skipped |
| Pipeline.RenameStage | main.py:122 | after the rename the observation sits under Value and every other cell is unchanged |
| Pipeline.CiStage | main.py:124-125 | the CI map succeeds exactly when every surviving CI coerces, fails only with ValueError, and replaces each CI with its coerced value |
| Pipeline.CategorizeStage | main.py:128-130 | after the loop Geography, Age, Sex and Migration Flow are categorical and the cells are unchanged |
| Pipeline.RecodedRow | main.py:135-152 | each rename step replaces one column's label by its code and leaves the other nine cells of the row unchanged |
| Pipeline.RecodeStage | main.py:135-152 | each rename step fails exactly when its renamer merges two of the labels present, with ValueError, and otherwise recodes that column in every row |
| Pipeline.SelectStage | main.py:154-155 | the projection cannot raise and yields the output row of each surviving observation |
| Pipeline.OutputRowOf | main.py:154-155 | projecting a fully recoded row onto the output columns gives exactly its output row |

## Left out

- Fetching the workbook with `Scraper` and picking the sheet (lines 18-25) is network I/O through a library and is not part of this model.
- The databaker region algebra and dimension lookups (lines 28-96) are not part of this model. Their source is not available. The resolved values of each observation are the input (`Extraction.Observation`).
- Extraction.Segment: the column order of the converted segments is taken as observation, then the dimensions in declaration order. Extraction is not modelled as producing a DATAMARKER column. The row order within each segment is taken as given.
- `savepreviewhtml` and `display` (lines 76, 94, 131-132) only show previews and are not modelled.
- Line 102 computes `original_slice`, which nothing reads; it is not modelled.
- Extraction.Segment: a segment with no observations is taken to still have its columns. If the conversion gave such a segment no columns, an empty original-estimates segment would already raise KeyError at line 102, which the model does not report.
- Pipeline.Run: does not model line 111. `pd.to_numeric` on Year is pandas numeric parsing, so Year stays the extracted text. A Year that `pd.to_numeric` cannot parse raises ValueError, even on a row that line 119 later drops, and `Run` does not report that failure.
- Pipeline.Run: does not model line 123. `astype(int)` on Value truncates a non-integral numeric observation toward zero, and raises ValueError for a cell `int()` refuses. The model keeps the extracted cell as Value, so it neither truncates nor reports that error.
- Pipeline.Run: `pathify` (line 152) is a library function whose source is not visible, so it is a parameter of `Run` and `Encode`.
- Pipeline.Run: on failure the contract states the kind of exception (ValueError from the Revision assignment, from `int()` or from a rename), not which row or column raised it.
- Pipeline.Encode: stated only for the table the preceding steps leave, that is CI coerced and the four renamed columns categorical.
- PyInt.Parse: `int()` also accepts non-ASCII Unicode decimal digits. The model accepts only '0'-'9', so such a CI would be modelled as a ValueError.
- Frames.Concat: the result is never categorical, whatever the inputs. Both extracted tables have no categorical column at line 99, so pandas' handling of categorical inputs is not modelled.
- Frames.RenameColumn: requires that the new label is not already a column. pandas would then hold two columns with one label, which the model does not represent.
- Frames.Select: requires the requested labels to be distinct, for the same reason.
- Frames.ApplyRows: follows the pandas releases that probe an empty table with an empty Series. Later releases probe with a row of NaN, and on those the empty extraction does not fail at line 103.
- Pipeline.Run: the in-place calls through a column selection (line 118, `replace(..., inplace=True)` on `tidy['OBS']`, and line 152, assigning `cat.categories`) are modelled as updating `tidy`, as the pandas releases of the script's era do. Under Copy-on-Write line 118 leaves `tidy` unchanged, and pandas 2 no longer has the categories setter; neither is modelled.
- pandas dtypes (object, int64, category codes) are not modelled. A categorical column holds the same cells as an object column, and only which columns are categorical is kept.
- Writing the CSV, creating the output directory, and generating the TriG and CSV-W metadata (lines 158-178) are file I/O through foreign generators and are not modelled.
