# Dealer import scripts: cleaning, record assembly and the Radar mirror

The repository holds four run-once import scripts. Each reads a
spreadsheet of dealers and batch-inserts it into a PostgreSQL table:

- `main.py` and `mainWithRadar.py` fill `dealers`. They use a headerless
  sheet whose first 24 columns are named by position.
- `mainWithRadar.py` also mirrors every inserted dealer into Radar.io as
  a circular geofence.
- `tallyDealers.py` fills `tally_dealers` and `verifiedDealers.py` fills
  `verified_dealers`. Both use a sheet with a header row that is renamed
  from camelCase to snake_case.

This Dafny project models the pure logic the four scripts share and proves
things about:

- the cell cleaners `clean_value`, `clean_boolean`, the `brand_selling`
  rule and the integer default of the numeric columns;
- the column schemas, rename maps and column partitions of each script;
- the tuple each data row becomes, and the length gate in front of
  `records_to_insert`;
- the INSERT statement built from `TARGET_COLUMNS`;
- the geofence request `upsert_radar_geofence` builds from a dealer tuple,
  and the loop that counts successful upserts after the commit.

Modules, one per file:

| module | file | what it holds |
|---|---|---|
| `Wrappers` | wrappers.dfy | `Option` and `Result` |
| `PyText` | text.dfy | Python's `strip()`, `lower()`, `[:n]` and `str(int)` |
| `Clean` | clean.dfy | `Cell`, `clean_value`, the brand rule, `clean_boolean`, the integer default |
| `Records` | records.dfy | tuple values, the length gate, and how `Series.apply` builds a float column |
| `Frame` | frame.dfy | header renames, `df[name]` lookups and header-driven tuple assembly |
| `Sql` | sql.dfy | the INSERT statement and a reference parser that reads it back |
| `Dealers` | dealers.dfy | the `dealers` schema of main.py and mainWithRadar.py, and mainWithRadar.py's tuples |
| `Radar` | radar.dfy | the geofence request, its outcome and the counting loop |
| `Tally` | tally.dfy | tallyDealers.py |
| `Verified` | verified.dfy | verifiedDealers.py |

A spreadsheet cell is `Missing` for anything `pd.isna` accepts (NaN,
None, NaT). Otherwise it is `Text(s)`, where `s` is the `str()` of the
value.

The library parsers are parameters of the model:

- `pd.to_numeric(errors='coerce')` and `pd.to_datetime(errors='coerce')`
  are `Dealers.Parsers`;
- Python's `float()` is `toFloat` in `Tally`;
- `uuid.uuid4()` is `newId`;
- the HTTP status Radar answers with, or `None` when the request raised,
  is a parameter;
- whether the database batch commits is a parameter.

The dealer tuples follow mainWithRadar.py, with the two corrections the
"## Findings" section describes: the phone is cleaned as mainWithRadar.py
cleans it, not as main.py does, and a missing coordinate is `None`, not
the NaN pandas leaves there. The as-written behaviour of both is modelled
alongside (`Dealers.PhoneAsWritten`, `Records.ApplyFloatColumn`). The
tally tuples carry the same coordinate-style correction: a missing
credit limit is `None` (`Tally.TallyRecordElement`), not the NaN
tallyDealers.py:187 leaves there once another row has a value; the
as-written NaN is `Tally.MissingCrLimitBecomesNaN`.

Two things differ from a plain reading of the scripts, and the model
follows the code in both:

- The brand rule does not map a blank cell to `None`. Only a missing cell
  and a variant of "nan" give `None`, so a whitespace-only cell becomes the
  list `[""]` (`Clean.BrandSellingVersusCleanValue`).
- `clean_value` removes ".0" with a regular expression whose `$` also
  matches before a final newline. On stripped text that case cannot arise,
  and `Clean.DropDotZeroOnTrimmed` proves it.

## Model

| member | source | states |
|---|---|---|
| PyText.Strip | mainWithRadar.py:39 | `strip()` leaves no whitespace at either end and never lengthens the text |
| PyText.StripIsSlice | mainWithRadar.py:39 | what `strip()` keeps is a contiguous piece of the input with only whitespace cut off on either side |
| PyText.StripPadded | mainWithRadar.py:39 | text with no whitespace at either end, padded by whitespace on both sides, strips back to exactly that text, so the two contracts above determine `strip()` |
| PyText.StripEmptyIffBlank | mainWithRadar.py:39-40 | the stripped text is empty exactly when the input is whitespace only, which is the `not value_str` test |
| PyText.StripTrimmed | main.py:52 | text already without whitespace at either end is left alone by `strip()` |
| PyText.StripIdempotent | main.py:52 | stripping twice is stripping once |
| PyText.Lower | mainWithRadar.py:40 | `lower()` keeps the length and lowers character by character |
| PyText.Take | mainWithRadar.py:87 | `s[:n]` has length min(len(s), n) and is a prefix of `s` |
| PyText.IntToDecimal | mainWithRadar.py:76 | `str(n)` of an integer starts with '-' exactly when `n` is negative |
| PyText.IntToDecimalRoundTrip | mainWithRadar.py:76 | `str(user_id)` reads back as the same integer, so the metadata user id loses nothing |
| Clean.LowerIsNan | mainWithRadar.py:40 | `value_str.lower() == 'nan'` holds exactly for the case variants of "nan" |
| Clean.RegexDropDotZero | mainWithRadar.py:41 | `re.sub(r'\.0$', '', s)` removes one trailing ".0", or the ".0" just before a final newline while keeping that newline, and otherwise leaves `s` unchanged |
| Clean.DropDotZeroOnTrimmed | mainWithRadar.py:39-41 | on stripped text the substitution only ever removes one trailing ".0" |
| Clean.CleanValue | mainWithRadar.py:37-42 | `clean_value` is `None` exactly for a missing cell, whitespace-only text or a variant of "nan" after trimming; otherwise it is the trimmed text with one trailing ".0" removed when present, and unchanged otherwise (the copies at main.py:43-61, tallyDealers.py:70-82 and verifiedDealers.py:44-57 behave identically) |
| Clean.CleanValueShape | main.py:52-59 | a cleaned string is a prefix of the trimmed input and at most two characters shorter |
| Clean.DotZeroCleansToEmpty | main.py:55-59 | a lone ".0", however padded, cleans to the empty string and not to `None` |
| Clean.CleanValueNotIdempotent | main.py:59 | only one ".0" is removed: `v + ".0.0"` cleans to `v + ".0"`, which cleans again to `v`, so cleaning twice differs from cleaning once |
| Clean.CleanValueFixedPoint | main.py:43-61 | a text is its own cleaning exactly when it is trimmed, non-empty, not a variant of "nan" and has no trailing ".0" |
| Clean.CleanValueOfTrimmed | tallyDealers.py:70-82 | for text whose stripped form `t` is neither empty nor a variant of "nan", the cleaning is `t` with one trailing ".0" removed, or `t` itself |
| Clean.CleanValueOfStripped | tallyDealers.py:70-82 | the cleaning of any text, blank and "nan" included, equals the cleaning of its stripped form |
| Clean.StrippedRejected | tallyDealers.py:70-82 | text that strips to nothing or to a variant of "nan" is rejected, and so is its stripped form |
| Clean.CleanValueDropsAppendedDotZero | verifiedDealers.py:44-57 | appending ".0" to trimmed text is undone by cleaning, even for "NaN" or the empty text |
| Clean.BrandSelling | mainWithRadar.py:226-230 | the brand is `None` exactly for a missing cell or a variant of "nan" after trimming; otherwise it is a one-element list of the trimmed text |
| Clean.BrandSellingVersusCleanValue | main.py:190-195 | whenever `clean_value` keeps a brand cell, the brand rule keeps its trimmed text; whenever the brand rule drops one, `clean_value` does too; a blank cell gives `None` from `clean_value` but `[""]` from the brand rule |
| Clean.CleanBoolean | verifiedDealers.py:60-72 | true exactly for "true", "yes" and "1" after trimming and lower-casing; false exactly for "false", "no" and "0"; `None` for a missing cell and for every other text |
| Clean.BooleanToken | verifiedDealers.py:65-72 | a trimmed, lower-cased token reads as true exactly when it is in the true list, and as false exactly when it is in the false list |
| Clean.CleanBooleanReadsPyBool | verifiedDealers.py:65-68 | a boolean cell, whose `str()` is "True" or "False", reads back as itself however it is padded |
| Clean.BooleanTokensDisjoint | verifiedDealers.py:67-70 | no token is both true and false |
| Clean.CleanBooleanRejectsWhatCleanValueRejects | verifiedDealers.py:60-72 | a cell `clean_value` maps to `None` (missing, blank, "nan") is `None` for `clean_boolean` too |
| Clean.FloatTextIsNoBoolean | verifiedDealers.py:65-72 | a flag stored as a float ("1.0", "0.0") is not recognised and becomes `None` |
| Clean.Truncate | main.py:158 | `astype(int)` truncates toward zero |
| Clean.IntOrZero | main.py:156-158 | an unparseable or missing numeric cell becomes 0; a parsed value becomes its truncation toward zero (`Clean.Truncate`), an integer within 1 of it with the same sign |
| Records.Gate | main.py:225-229 | the gate keeps exactly the tuples of the expected length and never adds any |
| Records.GateAppend | main.py:186-229 | the gate works row by row, so the kept rows stay in input order |
| Records.GateKeepsAll | mainWithRadar.py:263-267 | when every tuple has the expected length, nothing is dropped |
| Records.GateDropsAll | verifiedDealers.py:185-186 | when no tuple has the expected length, nothing is kept |
| Records.ApplyFloatColumn | mainWithRadar.py:202-204 | `Series.apply` returning numbers and `None` yields a float column: numbers are kept, and every `None` becomes NaN as soon as one row holds a number |
| Frame.CellAt | main.py:136-144 | a row shorter than the sheet reads as missing cells beyond its end |
| Frame.Rename | tallyDealers.py:165-176 | `rename(columns=...)` replaces exactly the labels that are keys of the map and keeps every position |
| Frame.ColumnIndex | tallyDealers.py:184-185 | `df[name]` finds the one column with that label; a missing label is a KeyError; a label shared by several columns is an error |
| Frame.ResolveColumns | verifiedDealers.py:156-159 | looking up a list of columns succeeds exactly when every name resolves, and then gives each name's position; a failure is the error of some name |
| Frame.ResolveSameNames | tallyDealers.py:182-197 | two name lists with the same members resolve or fail alike |
| Frame.NamedRecords | tallyDealers.py:182-200 | a header-driven import either fails on a column lookup or gives one tuple per row, in row order, each of the tuple's length, element `j` being the converted cell under column `j` |
| Frame.Tuples | tallyDealers.py:195-197 | each row becomes the tuple of its converted cells, in the given column order |
| Frame.RenameMap | tallyDealers.py:165-176 | a dict literal of label pairs holds exactly the listed keys, each mapped to a value that some pair gives it |
| Frame.RenameMapLast | tallyDealers.py:165-176 | a key listed more than once holds the value of its last pair, as a Python dict literal does |
| Frame.RenameMapOfDistinct | verifiedDealers.py:132-145 | with distinct keys the dictionary has one entry per pair, holding that pair's value |
| Frame.RenamesLandIn | tallyDealers.py:165-176 | renames whose targets are listed columns only ever produce those columns |
| Frame.RenamesInjective | tallyDealers.py:165-176 | renames onto distinct positions of distinct columns never send two headers to the same name |
| Sql.InsertQuery | mainWithRadar.py:120-122 | the statement begins with `INSERT INTO <table> (`; when no column contains a double quote, it reads back as exactly the columns, in order, followed by exactly `n` placeholders |
| Sql.InsertQueryParses | main.py:77-79 | the assembled statement parses back to its columns and placeholder count, in either layout |
| Sql.StatementParses | tallyDealers.py:108-114 | the quoted column list and the placeholders survive any surrounding text that starts with `)` |
| Sql.ParseColumnsAppend | main.py:77 | `", ".join` of the double-quoted columns reads back as the columns, in order |
| Sql.ParsePlaceholdersAppend | main.py:78 | `', '.join(['%s'] * n)` reads back as exactly `n` placeholders |
| Dealers.ColumnListsAtPositions | mainWithRadar.py:189-221 | the 24 sheet labels are distinct, and each conversion list names the labels at fixed positions |
| Dealers.SheetColumnsDistinct | main.py:146-152 | no two sheet labels are equal |
| Dealers.ConversionsPartitionColumns | main.py:156-183 | every one of the 24 columns is in exactly one conversion: numeric, float, phone, date, string or brand |
| Dealers.KindOfAt | mainWithRadar.py:198-221 | choosing a column's conversion by its name agrees with the position lists, and the text columns are exactly the ones `string_cols` names |
| Dealers.TupleOrderIsTargetOrder | mainWithRadar.py:235-261 | the tuple is the id followed by the 24 sheet columns, which is `TARGET_COLUMNS` with `verificationStatus` renamed to `verification_status`; 25 elements |
| Dealers.PhoneAsWritten | main.py:165 | main.py's phone: a missing cell becomes the text "nan"; otherwise the untrimmed text minus a trailing ".0" |
| Dealers.MissingPhoneBecomesNan | main.py:165 | a missing phone reaches the table as "nan" in main.py but as "" in the corrected column |
| Dealers.PhoneText | mainWithRadar.py:206-207 | the phone is always a string: "" for a missing or rejected cell, otherwise the cleaned text |
| Dealers.MissingCoordinateBecomesNaN | mainWithRadar.py:202-204 | in a latitude column with one number and one blank cell, the blank row's latitude is NaN, not `None` |
| Dealers.CoordinateValue | mainWithRadar.py:202-204 | the corrected coordinate the lambda intends (see "## Findings"): `None` exactly when the cell is missing or `to_numeric` cannot read it, otherwise the parsed number |
| Dealers.ParsedColumn | mainWithRadar.py:204 | `to_numeric(errors='coerce')` on a column reads each cell on its own, in row order |
| Dealers.CoordinateValueVersusColumn | mainWithRadar.py:202-204 | row by row, the corrected coordinate is `None` exactly where the column pandas builds holds NaN or `None`, and the same number everywhere else: the two differ only in how a missing value is written |
| Dealers.Convert | mainWithRadar.py:198-230 | each conversion's result type: an integer (0 for a missing cell), a number or `None`, always a string for the phone ("" when missing), a date or `None`, cleaned text that is a prefix of the trimmed cell or `None`, a one-element list or `None`; every nullable kind gives `None` for a missing cell |
| Dealers.DealerRow | mainWithRadar.py:235-261 | a dealer tuple has 25 elements, the id first, and sheet column `j` converted by its list's rule at position `j + 1` (with the corrected coordinates) |
| Dealers.DealerRowShape | mainWithRadar.py:198-230 | integer user id and potentials; a string phone; a brand list of one trimmed string or `None`; coordinates as numbers or `None`; the anniversary date a date or `None` |
| Dealers.NumericFields | main.py:156-158 | `user_id`, `total_potential` and `best_potential` are integers, 0 where unparseable |
| Dealers.PhoneField | mainWithRadar.py:243 | position 7 holds the phone string |
| Dealers.BrandField | mainWithRadar.py:247 | position 11 holds the brand rule's result |
| Dealers.CoordinateAndDateFields | mainWithRadar.py:251-254 | positions 17 and 18 hold the coordinates, and 16 holds a date or `None` |
| Dealers.TextField | mainWithRadar.py:220-221 | a text-converted column holds the `clean_value` of its cell |
| Dealers.RadarTextFields | mainWithRadar.py:53-59 | name, region, area and verification status, as the geofence code reads them, are cleaned text or `None` |
| Dealers.DealerRowText | mainWithRadar.py:215-221 | every column `string_cols` names holds the `clean_value` of its cell |
| Dealers.MaxWidth | mainWithRadar.py:179-185 | the frame's width is the widest row of the sheet: no row is wider, and some row is exactly that wide |
| Dealers.SheetRows | mainWithRadar.py:179-185 | the reader keeps the rows up to the last one holding a cell, in order, and drops only trailing empty rows |
| Dealers.DataRows | mainWithRadar.py:182 | `skiprows=1` keeps every kept row below the first, in order |
| Dealers.DealerRecords | mainWithRadar.py:179-267 | the import fails exactly when the sheet, header row included, is narrower than 24 columns or has no data row below the skipped one once trailing empty rows are dropped; otherwise it gives one 25-element tuple per data row, in order, each with its own id, and the gate drops none |
| Dealers.TrailingEmptyRowsIgnored | mainWithRadar.py:179-189 | a full header row over only an empty row fails, as the empty frame's `df.columns` assignment does, and an empty row after a data row adds no tuple |
| Dealers.HeaderRowSetsWidth | mainWithRadar.py:179-187 | a full header row over a one-cell data row still gives one tuple, whose missing phone is "" |
| Dealers.DealerRows | mainWithRadar.py:223-267 | one tuple per data row, in order, each of the expected length |
| Dealers.InsertQueryMatchesTuples | main.py:77-79 | the statement lists the 25 target columns, double-quoted and in order, then 25 placeholders |
| Radar.FieldsOf | mainWithRadar.py:51-59 | the fields read from a tuple are its elements 0, 1, 4-7, 17-19 |
| Radar.DealerFields | mainWithRadar.py:51-59 | every dealer tuple yields the fields; the coordinates are the parsed cells, and the name, region, area, phone and verification status are the cleaned cells |
| Radar.MetadataEntries | mainWithRadar.py:74-81 | the dictionary's keys in literal order, each with its value: the dealer id and the phone always present, `userId` holding `str(user_id)` exactly when the user id is truthy and `None` otherwise, and region, area and verification status as the fields hold them |
| Radar.DropNone | mainWithRadar.py:83 | the filtered metadata holds exactly the entries whose value is not `None`, never more entries than the dictionary |
| Radar.DropNoneAppend | mainWithRadar.py:83 | the filter distributes over concatenation, so the kept entries stay in the dictionary's order |
| Radar.DropNoneSingle | mainWithRadar.py:83 | a single entry is kept exactly when its value is not `None` |
| Radar.Metadata | mainWithRadar.py:74-83 | the metadata starts with the dealer id and holds exactly the present values of the dictionary |
| Radar.MetadataContents | mainWithRadar.py:74-83 | `dealerId` and `phoneNo` are always present; `userId` is present exactly when the user id is non-zero and then holds `str(user_id)`; a region is present exactly when the fields hold one; no other key appears |
| Radar.MetadataOfTuple | mainWithRadar.py:51-83 | read off the dealer tuple: the id (element 0) and the phone (element 7) are always sent, and a region (element 5), area (element 6) or verification status (element 19) is sent exactly when the tuple holds text there |
| Radar.MetadataAreaValue | mainWithRadar.py:78-83 | an area entry is present exactly when the fields hold an area, with that value |
| Radar.MetadataStatusValue | mainWithRadar.py:80-83 | a verificationStatus entry is present exactly when the fields hold a status, with that value |
| Radar.MetadataUserId | mainWithRadar.py:76 | `userId` is present exactly when `user_id` is truthy |
| Radar.MetadataRegion | mainWithRadar.py:77 | a `region` entry is present exactly when the region is not `None` |
| Radar.GeofenceRequest | mainWithRadar.py:61-94 | no request exactly when a coordinate is missing; otherwise the URL and `externalId` both end in `dealer:<id>`, the description is a prefix of `str(name)` of length min(len, 120), coordinates go longitude first, and the secret key is the Authorization header |
| Radar.GeofenceMetadata | mainWithRadar.py:74-93 | the request carries the filtered metadata: dealer id first, phone always, user id only when non-zero, no `None` value |
| Radar.MissingNameDescription | mainWithRadar.py:87 | a missing name is sent as the description "None" |
| Radar.MissingCoordinateSkipsGeofence | mainWithRadar.py:61-64 | with coordinates built by the corrected column, a dealer whose latitude or longitude cell is missing gets no request |
| Radar.Upsert | mainWithRadar.py:96-106 | the upsert succeeds only with both coordinates, and then exactly when the server answers 200 or 201; a raised request is a failure |
| Radar.UpsertIsRequestOutcome | mainWithRadar.py:61-103 | an upsert succeeds exactly when a request was built and accepted |
| Radar.ImportGeofences | mainWithRadar.py:130-142 | the loop counts the successful upserts, at most the number of dealers with both coordinates |
| Radar.InsertAndMirror | mainWithRadar.py:126-144 | the batch is committed exactly when there are records and the database accepts them; Radar runs only after a commit and with a non-empty key, and then counts the successes; otherwise no geofence is counted |
| Radar.SuccessCountBound | mainWithRadar.py:132-136 | successes never exceed the dealers with both coordinates |
| Tally.Without | tallyDealers.py:182 | `[c for c in cols if c != x]` holds exactly the other members, and is unchanged when `x` is absent |
| Tally.WithoutAppend | tallyDealers.py:182 | the comprehension filters each part of a concatenation separately |
| Tally.TargetColumnsDistinct | tallyDealers.py:19-64 | the 33 target columns are distinct, and `cr_limit` is at position 19 |
| Tally.StringColumnsPartitionTargets | tallyDealers.py:182-187 | the text columns are the target columns with `cr_limit` cut out, in order; together with `cr_limit` they are exactly the 33 target columns |
| Tally.TextColumnAt | tallyDealers.py:182-187 | every position except `cr_limit`'s holds a text column |
| Tally.RenamesIntoTargets | tallyDealers.py:165-176 | 10 renames, each onto a target column, and no two onto the same one |
| Tally.CleanNumeric | tallyDealers.py:85-91 | `clean_numeric` is `None` for a missing cell or when `float()` raises; otherwise it is the float |
| Tally.MissingCrLimitBecomesNaN | tallyDealers.py:187 | in a sheet where one row has a credit limit, a row without one holds NaN, not `None` |
| Tally.TallyRecords | tallyDealers.py:182-200 | a successful import gives one 33-element tuple per row, and every target column was then found after renaming |
| Tally.TallyRecordsSucceed | tallyDealers.py:182-200 | the import succeeds exactly when every target column is found once after renaming; it then gives one 33-element tuple per row, in order |
| Tally.TallyRecordElement | tallyDealers.py:195-200 | element `j` of a row's tuple is its cell under target column `j`: `cr_limit` as a float or `None`, every other column as cleaned text or `None` |
| Tally.ConvertAt | tallyDealers.py:184-187 | the cleaner chosen by column name is `clean_numeric` at position 19 and `clean_value` everywhere else |
| Tally.InsertQueryMatchesTuples | tallyDealers.py:108-114 | the statement lists the 33 target columns, double-quoted and in order, then 33 placeholders |
| Verified.TargetColumnsDistinct | verifiedDealers.py:19-38 | the 16 target columns are distinct, and `is_subdealer` is at position 2 |
| Verified.TupleOrderIsTargetOrder | verifiedDealers.py:166-183 | the tuple literal reads the fields in exactly `TARGET_COLUMNS` order |
| Verified.StringColumnsAndFlagPartitionTargets | verifiedDealers.py:148-159 | `is_subdealer` is not a text column; the text columns and the flag together are exactly the 16 target columns, each once |
| Verified.TextColumnAt | verifiedDealers.py:148-154 | every position except the flag's holds a text column |
| Verified.RenamesIntoTargets | verifiedDealers.py:132-145 | 12 renames, each onto a target column, and no two onto the same one |
| Verified.FlagValue | verifiedDealers.py:159 | `is_subdealer` is `None` exactly when `clean_boolean` is, otherwise the boolean it reads |
| Verified.VerifiedRecords | verifiedDealers.py:156-186 | a successful import gives one 16-element tuple per row, and every tuple column was then found after renaming |
| Verified.VerifiedRecordsSucceed | verifiedDealers.py:156-186 | the import succeeds exactly when every target column is found once after renaming; it then gives one 16-element tuple per row, in order |
| Verified.VerifiedRecordElement | verifiedDealers.py:164-186 | element `j` of a row's tuple is its cell under target column `j`: the flag as a boolean or `None`, every other column as cleaned text or `None` |
| Verified.ConvertAt | verifiedDealers.py:156-159 | the cleaner chosen by column name is `clean_boolean` at position 2 and `clean_value` everywhere else |
| Verified.InsertQueryMatchesTuples | verifiedDealers.py:84-90 | the statement lists the 16 target columns, double-quoted and in order, then 16 placeholders |

## Left out

- Spreadsheet reading is left out: `pd.read_excel`, `iloc` and `iterrows`. A sheet is a sequence of rows of `Cell`s. A header sheet (`Frame.Sheet`, read by tallyDealers.py and verifiedDealers.py) carries the labels pandas gives it, a repeated header cell already made unique ("crLimit", "crLimit.1"), and its rows with trailing empty rows already dropped; for the headerless dealer sheet, `Dealers.SheetRows` drops those rows itself.
- `str()` of a non-text cell value is left out. A cell holds its text already, so how Python renders floats (for example "1e+16") is not modelled.
- `pd.to_numeric`, `pd.to_datetime` and `float()` are function parameters. The rules for which strings they accept are not modelled. The date parameter reads each cell's text on its own, so two behaviours of `pd.to_datetime` on a whole column are not modelled: since pandas 2.0 it guesses one format from the first non-null string and turns cells in other formats into NaT, and it reads a numeric cell as nanoseconds since the epoch, which the cell's `str()` does not show.
- Floating-point rounding is not modelled: `Num` holds a real number.
- `json.dumps` is left out. The coordinates are kept as a pair and the metadata as a list of string pairs, not JSON text.
- `requests.put`, the psycopg2 connection, `execute_batch`, commit, rollback and close are left out. They are network and database I/O, so the model takes the HTTP status and the commit outcome as parameters.
- `uuid.uuid4()` is left out because it is randomness. The id is a parameter.
- `load_dotenv`, `os.getenv`, `exit()` and every `print` are left out. They are environment access and console output.
- The `if records_to_insert` guard of main.py, tallyDealers.py and verifiedDealers.py is left out. It only decides whether database I/O happens. The model keeps mainWithRadar.py's guard in `Radar.InsertAndMirror`.
- `astype(int)` overflow of 64-bit integers is left out, because integers are unbounded here.
- PyText.Lower: only ASCII letters are lowered. No other character lowers to a letter of "nan", "true", "yes", "false" or "no", so the cleaners' results are unaffected.
- PyText.Strip: its own contract only says the result is trimmed and no longer than the input. `PyText.StripIsSlice` and `PyText.StripPadded` state the rest, so the promise is stated in full across three members.
- Radar.FieldsOf: a tuple holding a kind of value the dealer import never places there gives `None`. Python would read such a tuple anyway.
- Radar.Upsert: the server's response text is not modelled. Only its status code and whether the request raised are.
- Dealers.DealerRecords: it gives mainWithRadar.py's tuples. For main.py it therefore holds "" and the trimmed, cleaned phone where main.py stores "nan" and the untrimmed text (`Dealers.PhoneAsWritten`), and `None` for a missing coordinate where both scripts insert NaN once another row has one (see "## Findings"). A wider sheet is cut to 24 columns, as `iloc[:, :24]` does. The exception message is not modelled.
- Dealers.DealerRecords: an infinite number is not modelled, because the parser parameters only return finite numbers. `pd.to_numeric` reads "inf", and `.fillna(0).astype(int)` then raises for it (main.py:158, mainWithRadar.py:200), which aborts the whole import; the model gives a result for such a sheet.
- Dealers.DealerRow: it builds the corrected phone (mainWithRadar.py:206-207) and the corrected coordinates, `None` where pandas leaves NaN (mainWithRadar.py:202-204). `Dealers.CoordinateValueVersusColumn` relates these coordinates to the column pandas builds.
- Dealers.MaxWidth: a sheet row is taken as openpyxl gives it, with its trailing empty cells already dropped. Trailing empty rows have width 0, so they do not change the width, and `Dealers.SheetRows` drops them before `skiprows`.
- Tally.TallyRecordElement: it gives the corrected credit limit, `None` for a missing cell, where tallyDealers.py:187 leaves NaN once another row has a value (see "## Findings"); `Tally.MissingCrLimitBecomesNaN` exhibits the as-written NaN.
- Tally.TallyRecords: an infinite credit limit is not modelled, because `toFloat` only returns finite numbers; `float("inf")` would be inserted as infinity.
- Frame.ColumnIndex: a label on several columns is reported as an error. Since pandas makes repeated header cells unique, only a rename can put one label on two columns. pandas fails later, when cleaning the resulting frame, with an error the model does not name.

## Findings

| source | as written | input that shows it | evidently intended | confidence | as-written member | corrected member |
|---|---|---|---|---|---|---|
| main.py:165 | `astype(str)` runs before `fillna('')`, so a missing phone is already the text "nan" and the fill finds nothing | a row whose phone cell is empty | an empty phone becomes "", as mainWithRadar.py:206-207 does | not executed | Dealers.MissingPhoneBecomesNan | Dealers.PhoneText |
| mainWithRadar.py:202-204 | `.apply(lambda x: None if pd.isna(x) else x)` on a float column re-infers a float column, so `None` turns back into NaN, and the `latitude is None` test at mainWithRadar.py:62 never holds for that row (main.py:160-162 has the same line) | latitude cells 12.5 and blank in two rows | a blank coordinate is `None`: the database gets NULL and Radar skips the dealer | not executed | Dealers.MissingCoordinateBecomesNaN | Radar.MissingCoordinateSkipsGeofence |
| tallyDealers.py:187 | `apply(clean_numeric)` returns `None` for a missing credit limit, but the column is re-inferred as float, so NaN is inserted instead of NULL | crLimit cells 5000 and blank in two rows | a missing credit limit is inserted as NULL | not executed | Tally.MissingCrLimitBecomesNaN | Tally.TallyRecordElement |
