# CSV-to-SQL-Server loader, modelled in Dafny

The repository is an Airflow DAG with two tasks:

- `create_table_if_missed` creates the table `dbo.uinque_values` unless it already exists.
- `load_data` reads a semicolon-separated CSV file of customers, prepares at most 50 records, and inserts them into that table in batches of 50, committing after each batch.

Both tasks build an ODBC connection string from an Airflow connection (`build_pyodbc_conn_str`).

The project models the three functions of `final.py`:

- `wrappers.dfy`: `Option` and `Result`.
- `text.dfy` (module `Text`): Python's `str.strip()` with the full `str.isspace()` set, ASCII `str.lower()`, and `str(int)`.
- `conn_string.dfy` (module `ConnString`): `build_pyodbc_conn_str`.
  - The connection string is produced from its seven attribute pairs.
  - A parser for the `key=value;` format proves the string lists exactly those pairs, in order, when no value contains `;`.
  - Each default applies on its own: the driver name when the `driver` extra is missing, port 1433 when the port is missing or 0 (as `or` treats it), and `Encrypt=no` and `TrustServerCertificate=yes` when those extras are missing.
  - A password containing `;` is read back cut short.
- `batching.dfy` (module `Batching`): the loop `for i in range(0, total, 50)`.
  - It covers the slices `records[i:i+50]` and the logged counts `min(i+50, total)`.
  - The lemmas state that the slices partition the input in order, that the counts increase strictly and end at `total`, and that each count equals the number of records sent so far.
- `prepare.dfy` (module `Preparation`): the data preparation in `load_data`.
  - Headers are normalised and the three required columns are checked.
  - A `birth_date` or `customer_name` that labels several columns is an error: selecting it yields all of them, and the date conversion or the name strip then fails on the resulting frame.
  - A duplicated `address` is not an error here: every copy goes into the record tuples, which the insert then refuses.
  - The projection is by the first matching column.
  - `astype(str).str.strip()` applies to the customer name, and names that are empty after stripping are dropped.
  - `head(50)` caps the records.
  - Missing cells map to `None`.
  - Unparseable dates map to `None` (`errors="coerce"`).
  - The run id is attached to each record.
- `store.dfy` (module `Store`):
  - the table definition;
  - the conditional `CREATE TABLE`;
  - a `SqlServer` class holding the table and the sessions opened, with `executemany` plus `commit` as one step that either appends a batch or leaves the table unchanged;
  - `executemany` refuses tuples whose width is not the four parameter markers of the INSERT.
  - A server starts from a given table and acceptance behaviour with no sessions opened.
- `tasks.dfy` (module `Tasks`): the two tasks as methods on a `SqlServer`.
  - The batch loop is proved against a specification: the rows committed are the batches before the first refused one, and the outcome carries the progress counts logged.
  - With the 50-record cap and batch size 50, a load commits all of its records or none.
  - A duplicated `address` column fails at the first batch, after the connection is opened, and commits nothing.
  - Nothing is de-duplicated: running the load twice appends the records twice.

A CSV file is given as its header and its rows. The header is the column names as `pd.read_csv` returns them, before `load_data` normalises them: a name that appears twice verbatim in the file has already been renamed there (`address`, `address.1`), so two columns can share a name after normalisation only when their raw names differ, such as `Address` and ` address`. Each row is a sequence of cells, with `None` for a missing value. Date parsing (`pd.to_datetime(..., errors="coerce")`) is a parameter `parseDate` that returns `None` for values it cannot parse. Whether the server accepts a batch is the `accepts` function of the `SqlServer`, and no batch is accepted while the table is absent.

## Model

| member | source | states |
|---|---|---|
| Text.Strip | final.py:63 | the result is the input with exactly its leading and trailing whitespace removed: it is the stretch of the input that starts after the leading whitespace, everything cut off on either side is whitespace, and neither end of the result is whitespace |
| Text.StripEmptyIffAllSpace | final.py:75-76 | a value strips to the empty string exactly when every character of it is whitespace |
| Text.StripIdempotent | final.py:75 | stripping an already stripped value changes nothing |
| Text.Lower | final.py:63 | lower-casing keeps the length, leaves no upper-case letter, changes only upper-case letters and maps each to its lower-case form |
| Text.NatToStringRoundTrip | final.py:25 | the decimal text of the port reads back as the same number |
| Text.IntToString | final.py:25 | the text of an integer starts with '-' exactly when it is negative and is otherwise its digits |
| ConnString.PortOrDefault | final.py:25 | `port or 1433`: port 1433 when the port is missing or 0, the given port otherwise |
| ConnString.ConnStrRoundTrip | final.py:15-31 | if no value contains ';', the connection string parses back to exactly DRIVER={driver}, SERVER=host,port, DATABASE, UID, PWD, Encrypt and TrustServerCertificate, in that order |
| ConnString.Defaults | final.py:18-25 | each default applies on its own: no driver extra gives DRIVER={ODBC Driver 18 for SQL Server}, a missing or zero port gives SERVER=host,1433, no Encrypt extra gives Encrypt=no, and no TrustServerCertificate extra gives TrustServerCertificate=yes; the string then starts with the default driver attribute and ends with the two default flags |
| ConnString.DefaultDriverPrefix | final.py:19-24 | without a driver extra the string starts with DRIVER={ODBC Driver 18 for SQL Server}; |
| ConnString.DefaultFlagsSuffix | final.py:20-30 | without Encrypt and TrustServerCertificate extras the string ends with Encrypt=no;TrustServerCertificate=yes; |
| ConnString.SemicolonInPasswordTruncatesIt | final.py:28 | values are not escaped, so the driver sees a password containing ';' only up to that ';' |
| ConnString.ParseRender | final.py:23-31 | any list of `key=value;` pairs whose keys and values are free of separators parses back to itself |
| Batching.FirstRejected | final.py:101-104 | the number of leading batches that are accepted: all before it are accepted and the one at it, if any, is refused |
| Batching.FlattenBatches | final.py:101-102 | the slices records[i:i+bs] for i in range(0, total, bs), concatenated in order, are exactly the records |
| Batching.BatchAt | final.py:101-102 | batch k exists exactly when k*bs < total, and it is the slice from k*bs of at most bs records, never empty |
| Batching.FlattenPrefix | final.py:101-104 | after k batches the records sent are exactly the first min(k*bs, total) records |
| Batching.ProgressShape | final.py:105 | the logged counts rise strictly and the last one equals total |
| Batching.ProgressCountsInserted | final.py:105 | the count logged after batch k is min((k+1)*bs, total), which is the number of records sent up to and including batch k |
| Batching.OneBatch | final.py:94-105 | between 1 and bs records go out as a single batch, and the single count logged is their number |
| Batching.BatchStep | final.py:101-102 | the pass of the loop at offset i sends records[i:min(i+bs,total)], and the remaining batches start at i+bs |
| Batching.ProgressStep | final.py:105 | the pass at offset i logs min(i+bs,total), and the remaining counts start from i+bs |
| Batching.FlattenStep | final.py:101-104 | if the records sent before offset i are records[:i], then after the pass they are records[:min(i+bs,total)] |
| Preparation.NormalizeIdempotent | final.py:63 | normalising a header name twice is the same as normalising it once |
| Preparation.NormalizeHeader | final.py:63 | the normalised header has one entry per column, and each is that column's name stripped and lower-cased |
| Preparation.IndexOf | final.py:70 | the position of the first column with the required name |
| Preparation.PrepareFailsIffMissing | final.py:63-68 | preparation fails with the missing-columns error exactly when some required column matches no normalised header name; the error lists exactly those columns and the normalised header |
| Preparation.Check | final.py:65-75 | the header passes exactly when no required column is missing and neither birth_date nor customer_name labels more than one column |
| Preparation.PrepareFailsOnDuplicate | final.py:70-75 | with all required columns present, a duplicated birth_date fails first, then a duplicated customer_name; preparation succeeds exactly when neither is duplicated, whatever the address columns |
| Preparation.DuplicatedIff | final.py:70 | a name is duplicated exactly when two different columns carry it |
| Preparation.WidthIff | final.py:70-81 | with an address column present, each record tuple has four values exactly when the address is not duplicated |
| Preparation.PreparedRecords | final.py:70-81 | a successful preparation yields min(50, number of rows that pass the name filter) records, each with the run id and a non-empty, stripped customer name |
| Preparation.SourceRowOf | final.py:75-81 | record k comes from the (k+1)-th row that passes the filter, so the records are the first passing rows, in file order |
| Preparation.KeptIff | final.py:75-76 | a row is dropped exactly when its name is present but all whitespace; a missing name becomes the text "nan" and is kept |
| Preparation.NullMapping | final.py:71-79 | the address is null exactly when its cell is missing; the birth date is null exactly when its cell is missing or does not parse, and otherwise it is the parsed date |
| Preparation.FilterMapAt | final.py:76 | element k of a filtered and mapped sequence is the image of the (k+1)-th element that passes the filter |
| Store.InsertFitsSchema | final.py:39-92 | the INSERT names only columns of the table and supplies every NOT NULL column that has neither an identity nor a default |
| Store.CreateKeepsExisting | final.py:37-47 | after the conditional create the table exists; an existing table, with its columns and rows, is left as it was; a new table is empty |
| Store.CreateIdempotent | final.py:37-47 | a second conditional create changes nothing, whatever columns it asks for |
| Store.SqlServer.Connect | final.py:97 | opening a connection records one session with that connection string and changes nothing else |
| Store.SqlServer.ExecuteCreateIfAbsent | final.py:36-53 | the table afterwards is the existing one, or a new empty table with the given columns |
| Store.SqlServer.ExecuteManyAndCommit | final.py:103-104 | the batch succeeds exactly when the table exists, its tuples have one value per insert column and the server accepts it; on success its rows are appended after the existing ones, and on failure the table is unchanged |
| Tasks.CreateTableIfMissed | final.py:34-53 | opens one session with the built connection string and leaves the table created if it was absent, untouched otherwise |
| Tasks.InsertBatches | final.py:94-107 | the table holds exactly the batches before the first refused one (a batch of tuples of the wrong width is refused), appended in order; the outcome is Done with all counts when every batch commits, and otherwise the failure with the number of records committed and the counts logged so far |
| Tasks.WrongWidth | final.py:89-103 | tuples that do not match the four parameter markers are refused at the first batch: nothing commits and the failure reports no records and no counts |
| Tasks.LoadPrepared | final.py:88-107 | with records to insert, one session is opened and the batch loop's guarantees hold; tuples of the wrong width leave the table unchanged |
| Tasks.PreparedWidth | final.py:70-103 | after a successful preparation the tuples are too wide for the INSERT exactly when the address is duplicated |
| Tasks.FullLoad | final.py:101-104 | against an existing table and a server that accepts every batch, tuples of the right width all commit, in order |
| Tasks.LoopStops | final.py:101-104 | if the batch at offset i is refused, exactly the batches before it are committed, and the loop reports i records and the counts logged so far |
| Tasks.LoopEnds | final.py:101-107 | when the loop runs past the last offset, every batch is committed and all counts are reported |
| Tasks.CommittedAll | final.py:101-107 | when every batch commits, the table ends with all records appended in order, and that requires the table to exist |
| Tasks.LoadData | final.py:56-107 | a missing or duplicated column fails before any connection, with the table unchanged; no surviving record ends quietly before any connection; otherwise one session is opened and the batch loop's guarantees hold for the prepared records, and a duplicated address fails at the first batch with nothing committed |
| Tasks.LoadAllOrNothing | final.py:78-105 | because at most 50 records are prepared and a batch holds 50, there is at most one batch, and a load leaves the table either unchanged or with every prepared record appended |
| Tasks.SmallLoad | final.py:94-104 | a load of at most one batch's worth of records commits all of them or none |
| Tasks.LoadOnce | final.py:56-107 | against an existing table whose server accepts every batch, one load appends all prepared records, or none when the address is duplicated, and opens one session when there are records and none otherwise |
| Tasks.LoadTwice | final.py:56-107 | nothing is de-duplicated: two loads append the prepared records twice (or leave the table as it was when the address is duplicated) and open a session each when there are records |

## Left out

- The Airflow DAG definition (`dag_id`, schedule, retries, retry delay, tags, task order) is configuration and is not modelled.
- `BaseHook.get_connection` is replaced by a `Connection` value passed in.
  - Extras are a map from strings to strings, so non-string extra values are not modelled.
  - `extra_dejson` being None is the empty map.
- `pyodbc.connect`:
  - its 30-second timeout, connection failures and autocommit are not modelled;
  - a session is only recorded;
  - the connection string is not interpreted by the server.
- `pd.read_csv` (the `;` separator, quoting, type inference, `na_values`, and the renaming of verbatim duplicate column names to `name.1`, `name.2`, ...) is replaced by the column names it returns and rows of optional text cells.
  - Cells are text, so an address or run id that pandas reads as a number is not distinguished.
  - A row shorter than the header reads as missing cells.
- `pd.to_datetime(..., errors="coerce")` is the `parseDate` parameter; date formats are not modelled, and neither is pandas inferring one format for the whole column (the parameter decides each cell on its own).
- Logging is not modelled; the logged progress counts are part of the outcome instead.
- Text.Lower: `str.lower()` is modelled for ASCII letters only, as Unicode case mapping is out of scope.
- Preparation.ProjectionOf: a duplicated address takes its values from the first address column. Those records are never inserted, since the over-wide tuples are refused at the first batch; the model does not carry the values of the other copies.
- The exceptions pandas raises for a duplicated birth_date or customer_name are one error value, `DuplicateColumn`, without their message text.
- Store.SqlServer.ExecuteManyAndCommit: the reasons a batch can be refused (a name longer than NVARCHAR(150), a constraint, a lost connection) are abstracted into the `accepts` function. A refused batch rolls back as a whole.
- The `id` identity column and the `loaded_at` default timestamp are part of the table definition only. Stored rows hold the four inserted fields.
- ConnString.ConnStrRoundTrip: proved only for values without ';'. ConnString.SemicolonInPasswordTruncatesIt shows what happens otherwise.
- The 32-bit range of the port is not modelled, since ports are unbounded integers here.
