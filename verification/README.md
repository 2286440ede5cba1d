# A verified model of RPostgres

This Dafny project models the hard parts of RPostgres, a PostgreSQL driver for R written in C++ and R, and proves
what they promise. `dafny verify dfyconfig.toml` checks all of it.

## What is modelled

**Fetching** (`Libpq`, `ResultFuture`, `StreamFacts`, `ResultImpl`, `ResultRuns`, `Statements`). libpq is a connection with a queue of
results and one slot for the unnamed prepared statement. The server is an arbitrary function of everything sent so far,
the user's interrupts are an arbitrary function of the waits, and a cancel request leaves an arbitrary rest. `ResultFuture` says what a stream of results amounts to: a
list of rows, how it ends, what will have been sent, and how many rows will have been affected. The class `PqResultImpl`
keeps the fields and methods of the C++ class; its contracts say that bind produces exactly that list and that fetch
takes exactly the next rows off it, for every server, failing ones included. `ResultRuns` carries this over to sequences
of calls on the object. `Statements` is the independent reference: statements, their rows, and how a server reports them.

**Column buffers** (`DataTypes`, `ColumnChain`, `ColumnStorage`, `Column`, `DataFrame`). A column is a chain of arrays
that spill over, promote integers to wider types, and let missing values run past their capacity. The classes refine the
value model `ColumnChain`, which is proved equal to a plain list of cells and within its allocation bounds.
`PqResultImpl.Fetch` fills these buffers, so its contract speaks of the finished frame, cell by cell.

**Ownership** (`Ownership`, `Connection`). One connection, many result objects, created, bound, fetched from and
destroyed in any order, with constructors that fail half way.

**COPY** (`CopyEncode`, `CopyDecode`, `Blob`). The text encoder against a decoder that knows every escape of the
format, and the path of blobs through it.

**Calendar, time stamps and values** (`Digits`, `PqUtils`, `Timestamp`, `PqColumnDataSource`, `ServerValues`). Day numbers
against the calendar itself, POSIX seconds, and the three positional parsers in exact arithmetic. `ServerValues` says for
every type of the server what the R value has to be, without saying how it is read; the frames of `PqResultImpl.Fetch`
keep to it.

**Identifiers** (`Identifier`). Quoting, and the grammar that takes quoted names apart.

**Transactions** (`Transactions`, `WriteTable`). A server with an aborted state and a stack of savepoints, the begin,
commit and rollback functions, and `dbWriteTable`.

## What turned out differently from what one would expect

* **Rows that the server never sent.** All rows announced before an error are rows of the server. After an error of the
  server, asking for more yields one row in which every column is missing. It exists if and only if the query is
  immediate, or the error came before the command it belongs to completed, that is, if the result is not complete
  (`StreamFacts.RowsAreTuples`, `StreamFacts.PhantomRow`, `ResultImpl.PhantomRowIsMissing`). `Statements.ImmediateFailure`
  and `Statements.PreparedFailure` say which rows come before it. A chunk that ends right before an error is lost with it
  (`ResultFuture.Fetched`).
* **Errors that the caller never sees.** An error reported after a statement of a prepared query completed makes a
  difference to the caller if and only if that statement is a query and belongs to the last group of parameters
  (`Statements.LateError`, `Statements.PreparedLateErrors`). An error before the statement completed, and every error
  of an immediate query, reaches the caller unless something else stops the run before: schemas that disagree, whose
  error comes in its place, or an interrupt.
* The documentation asks all queries of a multi-statement call to have the same columns. The code compares only queries
  that return at least one row and one column (`Statements.ImmediateQuery`).
* **Binding an inactive result.** `DbResult::bind` lacks the guard `DbResult::fetch` has. The queue stays owned by the
  current result if and only if the bound result is active, sends nothing, or leaves nothing to read
  (`Connection.DbResult.Bind`). A run of calls keeps it owned whatever the server leaves to be read if and only if every
  bind that sends anything is on the active result (`Ownership.GuardIsExact`, `Connection.RunCalls`). An inactive
  result also executes the wrong statement, the one prepared last (`Connection.BindTheInactive`), and its rows are
  delivered by the current result (`Connection.DeliversWhatIsWaiting`).
* On Redshift, inside an outer transaction, `dbWriteTable` is all or nothing if and only if nothing fails or a check on
  the client stops it before it drops a table (`WriteTable.FailureLeavesTrace`, `WriteTable.RefusedAppendLeavesTrace`).
* A COMMIT that fails because of a deferred constraint leaves the transacting flag set although the transaction is over,
  and of begin, commit and rollback it is the only call that makes the flag wrong (`Transactions.PqConnection.DbCommit`).
  `dbWriteTable` repairs it.
* Quoted identifiers with an empty component cannot be taken apart again (`Identifier.UnquoteInvertsQuote`).

## Model

| member | source | states |
|---|---|---|
| ResultImpl.PqResultImpl.Bind | src/PqResultImpl.cpp:271-302 | A bind is refused for exactly the documented reasons, or because a first send meets results still to be read; otherwise what is left to deliver is exactly the future of the plan, or the bind fails because that future starts with a failure; what it sends, now and later, is for each group in order a command whose values are the elements of that group |
| ResultImpl.PqResultImpl.BindRow | src/PqResultImpl.cpp:353-413 | Each group is sent over a drained connection; only the first send of a result can be refused, exactly if results are still to be read; past the last group nothing is sent |
| ResultImpl.PqResultImpl.AfterBind | src/PqResultImpl.cpp:245-249 | Starting over counts no rows, and the first row is looked at before the bind returns |
| ResultImpl.PqResultImpl.StepDone | src/PqResultImpl.cpp:510-524 | Finishing a statement counts its rows once, moves to the next group and completes exactly when there is none |
| ResultImpl.PqResultImpl.StepRun | src/PqResultImpl.cpp:454-508 | One round keeps the rows ahead, stops only at a row, the end or the failure that is next, and decreases (groups not sent, results pending) |
| ResultImpl.PqResultImpl.Step | src/PqResultImpl.cpp:449-452 | Stepping terminates on every stream and leaves exactly the next undelivered row at hand, or none if and only if complete |
| ResultImpl.PqResultImpl.Fetch | src/PqResultImpl.cpp:304-319 | A fetch takes the next rows off the list as a list cursor would, as a frame in which every cell shows the field of its own row and column as the type of the column demands, reports a failure instead of the chunk that runs into it, counts the rows, and is complete exactly if none is left |
| ResultImpl.PqResultImpl.FetchRows | src/PqResultImpl.cpp:422-447 | The same for a positive or negative number of rows, through the column buffers |
| ResultImpl.PqResultImpl.ReadRows | src/PqResultImpl.cpp:435-442 | The loop hands exactly the fetched rows to the frame and looks one row ahead |
| ResultImpl.PqResultImpl.PeekFirstRow | src/PqResultImpl.cpp:526-537 | Fetching no rows gives an empty frame and consumes nothing |
| ResultImpl.PqResultImpl.NRowsAffected | src/PqResultImpl.cpp:261-269 | Once complete, a command's count is the total announced since the bind |
| ResultImpl.PqResultImpl.Prepare | src/PqResultImpl.cpp:221-243 | The schema cache starts with the description, or empty for immediate queries |
| ResultImpl.GetFrame | src/DbDataFrame.cpp:46-87 | What the column buffers hold is the frame of the rows that went in |
| ResultImpl.FrameColumnOf | src/DbColumn.cpp:82-92 | A fixed-type column flattens to the stored cells of its rows |
| ResultImpl.FrameIsFaithful | src/PqColumnDataSource.cpp:24-71 | Each cell of a frame is the R value its server type demands for the field in its own row and column, or the missing value for NULL |
| ServerValues.ReadShows | src/PqResultImpl.cpp:108-176 | For every type of the server, given by its OID: what R value NULL and each printed value have to become, with every OID not listed read as text |
| ResultImpl.PhantomRowIsMissing | src/PqResultImpl.cpp:492-497 | A row read after an error shows every column as missing |
| ResultFuture.SetCacheOk | src/PqResultImpl.cpp:65-92 | The cache remembers the names and types of the first columns shown, in order; later ones are refused exactly if they differ, with the error for names before that for types |
| ResultRuns.ChunksAreTheRows | src/PqResultImpl.cpp:422-447 | Any sequence of fetches delivers a prefix of the rows in order, none twice and none lost |
| ResultRuns.ChunkSizes | src/PqResultImpl.cpp:304-319 | Each fetch of any run gives the number asked for or what is left, and exactly the fetch that reaches a failure reports it |
| ResultRuns.DrainCoversAll | src/PqResultImpl.cpp:253-255 | The chunks of "while not complete, fetch n" cover all rows, none is empty, and there are no more than needed |
| ResultRuns.FetchUntilComplete | src/PqResultImpl.cpp:253-255 | That loop on the object terminates, its frames are those chunks one for one and everything has been sent, or it ends with the error the rows run into |
| ResultRuns.FetchInChunks | src/PqResultImpl.cpp:304-319 | Any sequence of fetches from the object has the outcomes of the list cursor, as frames, with one schema if it was known |
| StreamFacts.RowsAreTuples | src/PqResultImpl.cpp:492-505 | For every server, all rows announced are real tuples, and of the rows after a failure at most the first is not |
| StreamFacts.PhantomRow | src/PqResultImpl.cpp:492-497 | For every server, a phantom row follows an error if and only if the query is immediate or the error precedes the completion of the last command sent |
| StreamFacts.SentInOrder | src/PqResultImpl.cpp:510-524 | For every server, the groups are sent in order and at most once, and an immediate query is never sent again |
| StreamFacts.BindSendsInOrder | src/PqResultImpl.cpp:288-302 | The commands of a bind are its groups from the first up to some group |
| StreamFacts.BindCarries | src/PqResultImpl.cpp:366-379 | For every server, the commands a bind sends, before and after a failure, carry the elements of the parameter vectors group by group |
| Statements.OneStatement | src/PqResultImpl.cpp:480-507 | A statement contributes exactly its rows if its schema matches and fails at once otherwise |
| Statements.FailingStatement | src/PqResultImpl.cpp:492-497 | A statement that fails after any number of rows contributes those, then the error, then one phantom row, and sends nothing further |
| Statements.ImmediateStatements | src/PqResultImpl.cpp:353-357 | Several statements in one stream contribute their rows in order, whatever follows them |
| Statements.MatchingIsOneSchema | src/PqResultImpl.cpp:74-82 | Checking schemas row by row amounts to comparing every pair of queries that show one |
| Statements.ImmediateQuery | src/PqResultImpl.cpp:353-357 | An immediate query delivers all rows of all statements as one list, with the total count, if and only if the schemas shown agree |
| Statements.ImmediateFailure | src/PqResultImpl.cpp:492-497 | A statement that fails before or between its rows is reported after all rows before it if and only if the schemas up to there agree, and asking on yields one phantom row |
| Statements.PreparedGroups | src/PqResultImpl.cpp:510-524 | Up to any group, the groups before it deliver their rows in order, and whatever the server sends after completing them is discarded |
| Statements.PreparedQuery | src/PqResultImpl.cpp:288-302 | A bind delivers the rows of all groups in order, sends one command for each group, in order and with the elements of that group, and counts all affected rows |
| Statements.PreparedInChunks | src/PqResultImpl.cpp:422-447 | Any chunked run over a bound query delivers the concatenation of the groups' rows |
| Statements.QueryIsShown | src/DbDataFrame.cpp:46-87 | The frame of a query has the server's column names in order, and each cell shows the field of its own row and column |
| Statements.LateError | src/PqResultImpl.cpp:480-483 | An error after a statement completed makes a difference if and only if the statement is a query and its group the last |
| Statements.PreparedLateErrors | src/PqResultImpl.cpp:359-361 | Over a whole bind, of all errors after completed statements the caller sees exactly the one after the last group, if that is a query |
| Statements.PreparedFailure | src/PqResultImpl.cpp:492-497 | If group k fails before or between its rows, the rows of the groups before and its own come first, later groups are never sent, and asking on yields one phantom row |
| Libpq.PGconn.FinishQuery | src/DbConnection.cpp:116-122 | Draining terminates and leaves the connection ready to send |
| ColumnChain.ChainIsPlainColumn | src/DbColumn.cpp:82-92 | Flattening the chain equals the plain list of cells, whatever spills, overflowing nulls or promotions happened |
| ColumnChain.AppendValue | src/DbColumnStorage.cpp:79-121 | One append adds exactly one value at the end of the flattened chain |
| ColumnChain.ColumnValueAt | src/DbColumnStorage.cpp:282-355 | Each cell is read at the type its column had when it arrived, then widened to the final type |
| ColumnChain.PromotionIsLossless | src/DbColumnStorage.cpp:308-345 | An integer survives every promotion exactly, unless it is the missing value |
| ColumnChain.ChainTypesAscend | src/DbColumnStorage.cpp:91-121 | Types along a chain: possibly untyped, then INT, then one wide type for good |
| ColumnChain.FixedTypeColumn | src/PqColumnDataSource.cpp:16-22 | A source with one type never promotes, and every value is stored at that type |
| ColumnChain.BoundedAllocation | src/DbColumnStorage.cpp:68-77 | With a row limit, at most two storages and at most the limit of cells |
| ColumnChain.UnboundedAllocation | src/DbColumnStorage.cpp:111-121 | Without a limit, at most twice the rows plus 100 cells |
| ColumnStorage.DbColumnStorage.AppendCol | src/DbColumnStorage.cpp:18-23 | A cell goes into this storage if it fits and otherwise into exactly the new storage the model says |
| ColumnStorage.DbColumnStorage.AppendNull | src/DbColumnStorage.cpp:79-85 | A null is counted even past the capacity, and stored as the missing value within it |
| ColumnStorage.DbColumnStorage.AppendData | src/DbColumnStorage.cpp:91-109 | Values are stored, spilled or promoted; the recursion terminates and every write is in bounds |
| ColumnStorage.DbColumnStorage.AppendDataToNew | src/DbColumnStorage.cpp:111-121 | The storage that takes over has the promoted type and the capacity of the model |
| ColumnStorage.DbColumnStorage.CopyTo | src/DbColumnStorage.cpp:49-62 | Copying writes the storage's values from the position on, as far as there is room, and leaves what is before |
| ColumnStorage.DbColumnStorage.CopyValue | src/DbColumnStorage.cpp:282-355 | One element is widened and the rest of the target stays |
| Column.DbColumn.SetColValue | src/DbColumn.cpp:22-31 | The column grows by exactly the cell |
| Column.DbColumn.ToVector | src/DbColumn.cpp:82-92 | The vector is the first n plain values at the type all cells seen decide, the peeked one included |
| Column.DbColumn.GetType | src/DbColumn.cpp:94-97 | The type is the last promotion, or the declared one if no value decided |
| DataFrame.DbDataFrame.SetColValues | src/DbDataFrame.cpp:28-34 | Every column grows by its cell of the row, and no column disturbs another |
| DataFrame.DbDataFrame.Advance | src/DbDataFrame.cpp:36-44 | The limit is reached exactly after the last row allowed |
| DataFrame.DbDataFrame.GetData | src/DbDataFrame.cpp:52-87 | Rectangular columns, each the finished frame column of its cells |
| Ownership.OwnedKept | src/DbResult.cpp:42-45 | Every call keeps the queue owned by the current result, except exactly a bind of an inactive one that leaves results behind |
| Ownership.RunOwned | src/DbConnection.cpp:59-88 | Over all interleavings, the queue is owned throughout if and only if no bind intrudes |
| Ownership.GuardIsExact | src/DbResult.cpp:42-53 | Whatever the server leaves to be read, a run keeps the queue owned if and only if each bind that sends anything is on the active result |
| Ownership.OthersDoNotInterfere | src/DbResult.cpp:47-53 | Calls on other results change nothing for the current one |
| Connection.DbConnection.SetCurrentResult | src/DbConnection.cpp:59-78 | Taking over from another result drains the connection; setting the same result changes nothing |
| Connection.DbConnection.ResetCurrentResult | src/DbConnection.cpp:80-88 | Only the current result resets, and leaves an empty queue |
| Connection.DbConnection.CleanupQuery | src/DbConnection.cpp:294-303 | Cleaning up drains the queue, sends nothing, and asks to cancel exactly if the current result is not complete |
| Connection.DbResult.CompleteMeansNothingLeft | src/DbResult.cpp:26-28 | A bound result is complete if and only if no row is left to be delivered |
| Connection.AcceptedBinds | src/PqResultImpl.cpp:271-286 | Which binds are accepted, by the lengths of the parameter vectors, and with which error the others are refused |
| Connection.DbResult.Create | src/PqResult.cpp:7-14 | Creation fails exactly if the connection is blocked for an immediate query, preparing fails, or a query without parameters fails before its first row, with that error, no current result and an empty queue; otherwise the new result has taken the connection over and begun to deliver |
| Connection.DbResult.Destroy | src/DbResult.cpp:16-22 | Destroying an inactive result leaves the connection unchanged |
| Connection.DbResult.Bind | src/DbResult.cpp:42-45 | Active or not, a bind is refused for exactly the stated reasons or delivers its future; the queue stays owned if and only if the result is active, nothing was sent, or nothing is left to read |
| Connection.RunCall | src/DbResult.cpp:8-53 | Each call on any of many results is the step `Made` describes: who owns the queue, which results are alive, which are bound, and whether anything was sent |
| Connection.RunCalls | src/DbConnection.cpp:59-88 | Any calls on any number of results in any order, each making its step; the queue is owned after every call if and only if no bind intrudes, and always with binds guarded, for every server |
| Connection.BindTheInactive | src/DbResult.cpp:42-45 | Creating two results and binding the first leaves its rows in a queue that belongs to the second, and makes the server execute the statement of the second |
| Connection.DeliversWhatIsWaiting | src/PqResultImpl.cpp:435-442 | A result that is not complete delivers the rows waiting on the connection after its own, whoever sent their command |
| Connection.DbResult.ValidateParams | src/DbResult.cpp:73-86 | True exactly if all parameter vectors have the same length |
| Connection.DbResult.Fetch | src/DbResult.cpp:47-53 | An inactive or unbound result is refused and nothing changes; any other fetches as a list cursor, whoever owns the queue |
| CopyEncode.EscapeInBuffer | src/encode.cpp:124-154 | The buffer grows by the escaped text |
| CopyEncode.EncodeInBuffer | src/encode.cpp:57-117 | The buffer grows by the field of the cell; only unknown vector types fail |
| CopyEncode.EncodeRowInBuffer | src/encode.cpp:19-35 | The buffer grows by the line of the row |
| CopyEncode.EncodeDataFrame | src/encode.cpp:38-50 | The result is the lines of all rows |
| CopyEncode.CopyData | src/DbConnection.cpp:147-186 | One message for each row, and success exactly if every column has a supported type and the server goes along; no COPY for a frame without columns |
| CopyEncode.SentIsEncoded | src/DbConnection.cpp:160-173 | Sending row by row sends the encoded frame |
| CopyDecode.FrameRoundTrip | src/encode.cpp:38-50 | A COPY decoder with its own reading of booleans, integers and special doubles reads back every cell of every rectangular frame: logicals, integers, doubles, strings, NULL |
| CopyDecode.DecodeInvertsLines | src/encode.cpp:19-35 | Decoding inverts the lines of any rows that have a column |
| CopyDecode.LineReads | src/encode.cpp:19-35 | A line splits into its fields, is never the end mark and has no bare carriage return |
| CopyDecode.NeverAMark | src/encode.cpp:103-113 | No text is written as the null mark or the end mark |
| CopyDecode.NoRawDelimiters | src/encode.cpp:124-154 | No cell puts a bare tab, newline or carriage return on the wire |
| Blob.BlobRoundTrip | R/tables.R:65-80 | Blobs rendered, encoded, decoded and parsed come back byte for byte, NULL as NULL |
| Blob.PrefixIsDoubled | R/tables.R:74-74 | The prefix of a blob is never read as a hex escape of COPY |
| PqUtils.TomorrowIsOneMore | src/PqUtils.cpp:5-12 | The calendar successor of a date is one day later, in every year |
| PqUtils.DaysOfWalk | src/PqUtils.cpp:5-12 | Walking the calendar n days from 1 January 1970 ends at day number n |
| PqUtils.WalkOfDays | src/PqUtils.cpp:5-12 | Walking as many days as a date is numbered ends at that date: an explicit inverse |
| PqUtils.DaysAscend | src/PqUtils.cpp:5-12 | Day numbers are ordered exactly as dates are, in every year |
| PqUtils.Ranges | src/PqUtils.cpp:8-10 | The ranges given in comments hold, and nothing leaves 32 bits within five million years |
| PqUtils.EraIsFloor | src/PqUtils.cpp:7-8 | Truncating division computes floors, and eras add up to the leap-year count |
| PqUtils.TmIsPosix | src/PqUtils.cpp:14-18 | From 1970 on the result is the POSIX formula for seconds since the epoch |
| PqUtils.TmAscends | src/PqUtils.cpp:14-18 | Times are ordered exactly as their fields are, in every year |
| Timestamp.FetchDate | src/PqColumnDataSource.cpp:73-89 | The parser returns the day number of the date at its positions |
| Timestamp.FetchTime | src/PqColumnDataSource.cpp:99-109 | The parser returns the seconds since midnight, for unsigned decimal seconds |
| Timestamp.ConvertDatetime | src/PqColumnDataSource.cpp:111-167 | On every text with unsigned decimal seconds, a time stamp is its date at midnight plus its time less its offset |
| Timestamp.DatetimeReadsBack | src/PqColumnDataSource.cpp:111-167 | Reading inverts printing for the years 0 to 9999 with any fraction and offset |
| Timestamp.DateReadsBack | src/PqColumnDataSource.cpp:73-89 | Reading a printed date gives its day number, whatever follows |
| Timestamp.TimeReadsBack | src/PqColumnDataSource.cpp:99-109 | Reading a printed time gives its seconds, whatever zone follows |
| Digits.AtoiOfDecimal | src/PqColumnDataSource.cpp:32-38 | Integers of up to 64 bits that the server prints are read back |
| PqColumnDataSource.IntegerReadsBack | src/DbColumnStorage.cpp:129-135 | Printed integers arrive as the same R integers of either width within its range, and as missing if and only if they are the least of the width |
| PqColumnDataSource.BooleanReadsBack | src/PqColumnDataSource.cpp:28-30 | Printed booleans arrive as logicals |
| PqColumnDataSource.TimeReadsBack | src/PqColumnDataSource.cpp:99-109 | Printed times arrive as seconds since midnight, whatever zone follows |
| PqColumnDataSource.DatetimeReadsBack | src/PqColumnDataSource.cpp:91-97 | Printed time stamps of either type arrive as POSIX seconds less their offset |
| PqColumnDataSource.DateReadsBack | src/DbColumnStorage.cpp:149-151 | Printed dates arrive as their day number |
| PqColumnDataSource.BlobReadsBack | src/PqColumnDataSource.cpp:58-71 | Blobs in hex format arrive byte for byte |
| Identifier.UnquoteInvertsQuote | R/dbUnquoteIdentifier_PqConnection_SQL.R:4-32 | Unquoting returns the quoted components if and only if there are at most three and none is empty |
| Identifier.ParseIffAccepted | R/dbUnquoteIdentifier_PqConnection_SQL.R:4-21 | Reading a text follows the grammar of the regular expression exactly |
| Identifier.Unambiguous | R/dbUnquoteIdentifier_PqConnection_SQL.R:6-16 | No text has two parses |
| Identifier.DoubleIsPaired | R/dbUnquoteIdentifier_PqConnection_SQL.R:23-28 | Doubling quotes and undoing it is the identity |
| Identifier.UnquotesComponents | R/dbUnquoteIdentifier_PqConnection_SQL.R:4-28 | One to three components joined by dots, each bare or quoted, come back as table, schema and catalog; a bare one may hold anything but quotes, dots and spaces |
| Identifier.RefusesSpaces | R/dbUnquoteIdentifier_PqConnection_SQL.R:4-21 | A text without quotes that contains a space is refused |
| Identifier.QuotesAreDoubled | R/dbUnquoteIdentifier_PqConnection_SQL.R:24-28 | Each quote becomes two, wherever it is |
| Identifier.NothingToDouble | R/dbUnquoteIdentifier_PqConnection_SQL.R:24-28 | Text without quotes is left alone |
| Transactions.PqConnection.DbBegin | R/dbBegin_PqConnection.R:4-17 | Begin and savepoint; the flag is set exactly by a begin that succeeds, and stays right |
| Transactions.PqConnection.DbCommit | R/dbCommit_PqConnection.R:4-13 | Commit and release; the flag is cleared exactly by a commit that succeeds, and stays right unless a deferred constraint fails the commit |
| Transactions.PqConnection.DbRollback | R/dbRollback_PqConnection.R:4-15 | Rollback, and rolling back to a savepoint and releasing it; the flag is cleared exactly by a rollback that succeeds, stays right, and committed data stays |
| Transactions.RollbackUndoes | R/dbRollback_PqConnection.R:11-14 | Begin, any run above the savepoint, rollback is the identity if and only if the run leaves no savepoint of the same name open |
| Transactions.RollbackAllUndoes | R/dbRollback_PqConnection.R:5-10 | Begin, any run inside, rollback is the identity |
| WriteTable.DbWriteTable | R/dbWriteTable_PqConnection_character_data.frame.R:26-127 | When a call succeeds, in terms of its arguments and the data before it, and when nothing is sent at all; success writes the table and changes nothing else; failure anywhere changes nothing at all, on Postgres always and on Redshift in its own transaction; otherwise exactly under the stated condition |
| WriteTable.WriteInOrder | R/dbWriteTable_PqConnection_character_data.frame.R:69-117 | On a server that refuses nothing, overwriting leaves exactly the new table, writing succeeds exactly on a new name, and appending adds the rows or creates the table |
| WriteTable.WriteBody | R/dbWriteTable_PqConnection_character_data.frame.R:69-117 | The body changes the data as specified, aborts the transaction exactly on errors of the server, and keeps savepoints and committed data |
| WriteTable.BodyWrites | R/dbWriteTable_PqConnection_character_data.frame.R:69-117 | A successful body leaves exactly the rows given, after old rows when appending, and other tables as they were |
| WriteTable.OnExit | R/dbWriteTable_PqConnection_character_data.frame.R:58-67 | Leaving runs the handler installed last: back to the data of the savepoint, or out of the transaction with the committed data |
| WriteTable.SavepointBrackets | R/dbWriteTable_PqConnection_character_data.frame.R:55-61 | The savepoint can be released or rolled back to, even under an outer savepoint of the same name |
| WriteTable.FailureLeavesTrace | R/dbWriteTable_PqConnection_character_data.frame.R:55-61 | Without a savepoint a call succeeds exactly if no check and no statement fails, and is all or nothing exactly if it succeeds or a check stops it before a table is dropped |
| WriteTable.RefusedAppendLeavesTrace | R/dbWriteTable_PqConnection_character_data.frame.R:115-117 | An append the server refuses leaves the new table in an aborted outer transaction |

## Left out

* Sockets, `select()`, notices, LISTEN/NOTIFY, large objects, connection options, reconnecting: foreign I/O. Waiting is an oracle that says whether the user interrupts; a lost connection is not modelled.
* COPY result statuses, and results of cursors and multi-row chunks: libpq does not produce them for the calls modelled.
* R attributes, classes, protection, the warnings about open results and mixed types, and the interrupt check every 1024 rows.
* `n_rows_fetched`, `get_column_info`, `encode_vector`, catalogue queries, string and literal quoting, time zone fixing: easy members.
* Floating-point text: a double read from the server is a token, and the text of a double sent is given. The 24-byte buffer of the encoder for doubles is not modelled.
* CopyDecode.FrameRoundTrip: the text of a finite double is given, and arrives as it is.
* CopyEncode.EncodeInBuffer: the same holds of it.
* ColumnChain.PromotionIsLossless: says nothing of integers outside 32 bits, which atoi never returns.
* Timestamp.DatetimeReadsBack: years 0 to 9999, no BC dates, no infinity and no offsets with seconds, which the positional parsers do not handle.
* Timestamp.FetchDate: texts shorter than the positions read are outside the model.
* Timestamp.FetchTime: seconds are unsigned decimal numbers; the blanks, signs, exponents and special names that strtod reads too do not occur in what the server prints.
* Timestamp.ConvertDatetime: the same holds of its seconds.
* PqColumnDataSource.BlobReadsBack: covers the hex output format only, not the escape format.
* Identifier.UnquoteInvertsQuote: NA components and NUL bytes, which R and libpq turn down, do not occur in the model.
* WriteTable.DbWriteTable: temporary tables, column types and the choice between COPY and INSERT are not part of the data model; a COPY broken off by the client counts as refused by the server, which libpq makes of it with the next command; rolling back is assumed to reach the server.
* Behaviour after disconnecting, and the lifetime of pointers.
