# A verified model of the BigQuery ODBC driver and its idle-connection proxy

The project models the parts of the driver that keep state or do arithmetic, and the proxy that injects connection
faults, and proves what they guarantee in every run. Each module stands for one component.

| modules | component |
|---|---|
| `ChunkedGetData`, `Reassembly`, `Termination`, `StashCoherence` | SQLGetData: a long value is translated once into a stash and handed out in parts |
| `RowsetFetch`, `RowsetDelivery`, `RowsetWrites`, `RowsetStops`, `RowsetLimit` | SQLFetch: rowsets that span pages, rows that cannot be converted, when to stop, and the row limit on pages |
| `HandleGraph`, `HandleLifetimes`, `HandleDriver`, `Transactions` | environments, connections, statements and descriptors with their back-links, and the connections' transactions |
| `HandleLocking`, `LockProtocol`, `LockCoverage` | the scoped lock of every API call, any number of threads using it, and what it does not cover |
| `DataAtExec`, `DataAtExecRuns` | SQLParamData and SQLPutData |
| `ParamArray`, `BindParameter`, `ParameterRuns`, `StatementStates` | parameter arrays, binding and preparing, which write two descriptors, and the states of a statement |
| `Base64`, `NumericEncoding`, `DatetimeRange`, `DateText` | translation of values |
| `RowLimit`, `QueryPaging`, `UrlSegment` | row limits of the catalog functions, result paging, URL segments |
| `IdleProxy`, `ProxyAccounting`, `ProxyLimit` | the proxy's tasks as steps between awaits, its counters, and its limit on kills |
| `SqlTypes` | shared types |

Where the program changes state in place the model does so too: each method is proved against a function of the old
state, and the theorems are about those functions and about runs of them. Where a promise fails, a lemma says exactly
when it holds. The main cases found are these.

- A value whose translation is shorter than the first buffer is lost by SQLGetData (`Reassembly.ReassemblyIff`).
- The wide terminator is stored in units of SQLWCHAR, the characters in units of the wire encoding (`Reassembly.WideTerminatorIff`).
- The row limit cuts every page instead of the result, since the count of fetched rows never advances, and from 2^31 on its conversion to int can end the result early (`RowsetLimit.MaxRowsIff`).
- An empty page in front of one with rows ends the result for an application that stops at SQL_NO_DATA (`RowsetStops.StopsWithEverythingIff`).
- From its second part on a text need not be null-terminated (`Termination.TruncatedCharsIff`, `Termination.LastWideIff`).
- Allocating an environment takes no mutex, against the comment on that call (`LockProtocol.EnvironmentAllocationsOverlap`).
- The mutexes cover neither the association set of a descriptor that two statements use nor a connection's transaction flag and session (`LockCoverage.WriteCommonIff`, `LockCoverage.BeginsRace`).
- Another statement's own descriptor can be attached, and then dangles (`HandleLifetimes.AttachIsSafeIff`).
- A date of ten characters in a buffer of ten loses its last digit under SQL_SUCCESS (`DateText.LastDigitIsLost`).
- A first fraction of nine digits is not normalised, against the comment on the function, and white space before the comma counts as digits (`DatetimeRange.NormalizesAllIff`).
- A second data-at-execution run asks for no parameter of the first, one more SQLParamData executes again, and ordinary lengths are asked for (`DataAtExecRuns.AsksAllIff`, `DataAtExecRuns.AskingAgainExecutesIff`, `DataAtExecRuns.AskedAreAnnouncedIff`).
- SQL_RESET_PARAMS keeps parameters from 32768 on and records looked up above the count, and does not end with a count of 32767 (`BindParameter.ResetUnbindsAllIff`, `BindParameter.ResetEndsIff`).
- Preparing a query, also in SQLExecDirect, drops the IPD records of parameters that the query does not have (`ParameterRuns.ApplyKeepsPairedIff`).
- A preparation that ends at a column of type NULL leaves SQLParamData parameters to look up that the IPD lacks (`ParameterRuns.LookUpsKeepPairsIff`, `ParameterRuns.ApplyKeepsCoverIff`).
- SQLExecDirect that cannot begin a transaction or prepare its query leaves the statement counting as executing, and a failed SQLPrepare leaves it counting as prepared (`StatementStates.RunStrandedIff`, `StatementStates.FailedPrepareExecutes`).
- An array of DML rows that touches nothing reports SQL_NO_DATA although rows failed (`ParamArray.ErrorInRowIff`).
- The proxy can kill more tunnels than `--max-kills` in every configuration that kills at all (`ProxyLimit.LimitKeptIff`).

Parameters stand for what the model does not look into: the translation of a cell, the conversion of a row, the type
checks of a binding, the outcome of a row of a parameter array, the replies of the server and the clock.

## Model

| member | source | states |
|---|---|---|
| `ChunkedGetData.TranslatedData.GetData` | google/cloud/odbc/bq_driver/odbc_sql_results.cc:778-913 | Outcome, new stash and caller memory of one SQLGetData call are those of the step function: first-call translation, refusal of a changed C type, truncated part, final part, or nothing copied |
| `ChunkedGetData.TranslatedData.Deliver` | google/cloud/odbc/bq_driver/odbc_sql_results.cc:855-913 | Answering from the stash: HY000, 01004 with the next part, the rest of the value, or the fall-through without a copy |
| `ChunkedGetData.CopyTruncated` | google/cloud/odbc/bq_driver/odbc_sql_results.cc:865-890 | The truncated copies for binary, wide and other C types: payload, terminator and advance of the offset |
| `ChunkedGetData.CopyTruncatedWide` | google/cloud/odbc/bq_driver/odbc_sql_results.cc:871-884 | The wide copy keeps whole characters and writes the terminator in units of SQLWCHAR |
| `Reassembly.ReassemblyIff` | google/cloud/odbc/bq_driver/odbc_sql_results.cc:778-913 | For any buffers and widths, the parts of a value read back from caller memory concatenate to exactly the translated value, iff that value is empty, or is at least as long as the first buffer and no terminator of a narrower SQLWCHAR falls on a part's non-zero bytes |
| `Reassembly.WideEnoughReassemblesIff` | google/cloud/odbc/bq_driver/odbc_sql_results.cc:778-913 | With an SQLWCHAR no narrower than a character on the wire: iff the value is empty or at least as long as the first buffer |
| `Reassembly.DirectIff` | google/cloud/odbc/bq_driver/odbc_sql_results.cc:797-852 | On a fresh stash or a new column the buffer is filled directly iff the cell's type may not be chunked, or the cell takes no more bytes than the buffer has, wide characters counted with their width on the wire |
| `Reassembly.FirstAnswer` | google/cloud/odbc/bq_driver/odbc_sql_results.cc:797-913 | A cell that may be chunked and does not fit is answered from its translation: with 01004 if that is no shorter than the buffer, else with its length and nothing copied |
| `Reassembly.LaterAnswer` | google/cloud/odbc/bq_driver/odbc_sql_results.cc:855-913 | In the middle of a value: HY000 for another C type, 01004 iff what is left is no shorter than the buffer, else the rest |
| `Reassembly.PartIsLargest` | google/cloud/odbc/bq_driver/odbc_sql_results.cc:865-898 | A part is the whole buffer for binary data, all but one byte for narrow text, and for wide text the most whole characters that leave room for one more |
| `Reassembly.FinalWrites` | google/cloud/odbc/bq_driver/odbc_sql_results.cc:900-907 | The last part is copied whole, with one byte more unless it is binary, and nothing behind that changes |
| `Reassembly.SkippedClears` | google/cloud/odbc/bq_driver/odbc_sql_results.cc:839 | Where nothing is copied the buffer's start is zeroed, as many bytes as it holds characters, and nothing behind |
| `Reassembly.OthersLeaveMemory` | google/cloud/odbc/bq_driver/odbc_sql_results.cc:855-861 | A refused call, and one that GetColumnData answers, leaves the caller's memory to others |
| `Reassembly.CollectsTheRest` | google/cloud/odbc/bq_driver/odbc_sql_results.cc:863-912 | From any offset inside the value, further calls collect as many bytes as are left, and exactly those iff every part is left intact |
| `Reassembly.PartialCollects` | google/cloud/odbc/bq_driver/odbc_sql_results.cc:865-898 | What one 01004 part leaves in memory stands in front of what the later calls collect, and is the part iff the terminator leaves it intact |
| `Reassembly.StepKeepsValid` | google/cloud/odbc/bq_driver/odbc_sql_results.cc:781-912 | The offset stays within the value, wide offsets stay on character boundaries, and what remains falls strictly with every 01004 |
| `Reassembly.CallStaysInBuffer` | google/cloud/odbc/bq_driver/odbc_sql_results.cc:839-907 | No call writes behind the caller's buffer when SQLWCHAR is no wider than a character on the wire |
| `Reassembly.TruncatedWriteDelivers` | google/cloud/odbc/bq_driver/odbc_sql_results.cc:867-890 | A truncated copy leaves its payload at the start of the buffer iff the terminator falls behind it or on bytes that are zero |
| `Reassembly.WideTerminatorIff` | google/cloud/odbc/bq_driver/odbc_sql_results.cc:880-884 | The terminator leaves the buffer iff SQLWCHAR is wider than the wire character, and overwrites delivered characters iff it is narrower |
| `Reassembly.ShortTranslationIsLost` | google/cloud/odbc/bq_driver/odbc_sql_results.cc:863-913 | A concrete value that is lost: a base64 text of one byte read into two bytes |
| `Reassembly.FinalCallRepeats` | google/cloud/odbc/bq_driver/odbc_sql_results.cc:900-912 | After SQL_SUCCESS the offset stays, so the same call returns the same tail and total again |
| `Termination.TruncatedCharsIff` | google/cloud/odbc/bq_driver/odbc_sql_results.cc:839-890 | A truncated part of SQL_C_CHAR is null-terminated iff it is the first of its value, or the caller's last byte was zero before |
| `Termination.LastCharsIff` | google/cloud/odbc/bq_driver/odbc_sql_results.cc:900-907 | The last part of SQL_C_CHAR is null-terminated iff the translation left a zero behind the value |
| `Termination.TruncatedWideIff` | google/cloud/odbc/bq_driver/odbc_sql_results.cc:871-884 | A truncated part of wide text, for any widths, is null-terminated iff those bytes of its next character that the terminator misses were zero before |
| `Termination.TruncatedWideIsTerminated` | google/cloud/odbc/bq_driver/odbc_sql_results.cc:871-884 | With equal widths it always is |
| `Termination.LastWideIff` | google/cloud/odbc/bq_driver/odbc_sql_results.cc:900-907 | The last part of wide text is null-terminated iff the translation left a zero there and the caller's remaining bytes of that character were zero |
| `Termination.SecondPartRunsOn` | google/cloud/odbc/bq_driver/odbc_sql_results.cc:886-890 | A second part of three characters that runs on into the caller's own byte |
| `StashCoherence.NoStaleBytes` | google/cloud/odbc/bq_driver/odbc_sql_results.cc:781-912 | After any interleaving of reads and fetches, whatever a call hands out is a slice of the translation of the cell and C type now asked for, at the right offset |
| `StashCoherence.RunKeepsCoherent` | google/cloud/odbc/bq_driver/odbc_sql_results.cc:196-200 | Over every run a non-zero offset means that the stash is the translation of the current row's last column |
| `StashCoherence.RestartsAtZero` | google/cloud/odbc/bq_driver/odbc_sql_results.cc:266-270 | After a fetch or a change of column the next call behaves as on a fresh stash |
| `StashCoherence.RunOfMore` | google/cloud/odbc/bq_driver/odbc_sql_results.cc:196-200 | A run is its calls and fetches one after the other |
| `StashCoherence.TypeChangeIsRefused` | google/cloud/odbc/bq_driver/odbc_sql_results.cc:855-861 | In the middle of a value a call is refused iff its C type differs, and a refused call moves nothing |
| `RowsetFetch.Statement.SQLFetch` | google/cloud/odbc/bq_driver/odbc_sql_results.cc:168-222 | State, rows written and status of SQLFetch are those of the fetch function |
| `RowsetFetch.Statement.WriteRows` | google/cloud/odbc/bq_driver/internal/odbc_sql_fetch.cc:152-244 | The rowset loop, with its step back of the cursor and the turning of SQL_NO_DATA into success behind a written row |
| `RowsetFetch.Statement.NextRow` | google/cloud/odbc/bq_driver/internal/odbc_sql_fetch.cc:168-212 | One turn of that loop: a new page where the old one is used up, and the conversion of a row |
| `RowsetFetch.Statement.FetchNextResultSet` | google/cloud/odbc/bq_driver/internal/odbc_sql_fetch.cc:246-302 | The next page, cut to SQL_ATTR_MAX_ROWS as a 32-bit integer, or no page where that is not positive, or the end, or a failure that drops the result set |
| `RowsetDelivery.FetchConserves` | google/cloud/odbc/bq_driver/odbc_sql_results.cc:168-222 | One SQLFetch neither loses nor repeats a row, whatever the rowset size, pages and failures, except a row whose conversion fails first in its rowset |
| `RowsetDelivery.WriteRowsetConserves` | google/cloud/odbc/bq_driver/internal/odbc_sql_fetch.cc:152-244 | Rows ahead of a rowset are the rows written, the one lost, and the rows pending afterwards |
| `RowsetDelivery.FillConserves` | google/cloud/odbc/bq_driver/internal/odbc_sql_fetch.cc:162-225 | The loop keeps written rows followed by rows ahead constant across pages |
| `RowsetDelivery.FillStops` | google/cloud/odbc/bq_driver/internal/odbc_sql_fetch.cc:162-225 | Where each way of ending the loop leaves the cursor |
| `RowsetDelivery.CursorOnLastRow` | google/cloud/odbc/bq_driver/internal/odbc_sql_fetch.cc:226-243 | After a successful rowset the cursor is on the last row written iff the page at hand still has rows, always so for rowsets of one |
| `RowsetDelivery.FetchProgresses` | google/cloud/odbc/bq_driver/odbc_sql_results.cc:196-221 | While rows are pending every call delivers some or uses up a page |
| `RowsetDelivery.DeliversEverything` | google/cloud/odbc/bq_driver/odbc_sql_results.cc:168-222 | Enough calls of any rowset sizes, also behind SQL_NO_DATA, deliver every pending row exactly once and in order |
| `RowsetWrites.FetchWrites` | google/cloud/odbc/bq_driver/internal/odbc_sql_fetch.cc:152-244 | For every conversion: SQLFetch writes the rows within reach in front of the first that cannot be converted, up to the rowset size, and the status says which of these, a failed page or the end stopped it |
| `RowsetWrites.RowErrorIff` | google/cloud/odbc/bq_driver/internal/odbc_sql_fetch.cc:205-217 | It reports a conversion error iff one of the next rows within reach, up to the rowset size, cannot be converted; every row written was converted, and they are the rows in front of it |
| `RowsetWrites.ErrorLeaves` | google/cloud/odbc/bq_driver/internal/odbc_sql_fetch.cc:205-243 | The row that cannot be converted stays pending behind rows that could, and is lost if it is the first of its rowset |
| `RowsetWrites.ReachIsPending` | google/cloud/odbc/bq_driver/internal/odbc_sql_fetch.cc:162-302 | The rows within reach of one call are the first of those pending |
| `RowsetStops.StopsWithEverythingIff` | google/cloud/odbc/bq_driver/odbc_sql_results.cc:168-222 | An application that stops at the first answer other than success has every pending row iff no empty page precedes one with rows, or pages are no longer fetched |
| `RowsetStops.FetchDecides` | google/cloud/odbc/bq_driver/internal/odbc_sql_fetch.cc:152-302 | A successful call keeps that condition, and SQL_NO_DATA comes with nothing pending iff it holds |
| `RowsetStops.StoppedResultIff` | google/cloud/odbc/bq_driver/internal/odbc_sql_fetch.cc:255-300 | The same for a whole result, whose first page may be empty |
| `RowsetStops.EmptyPageHidesRow` | google/cloud/odbc/bq_driver/internal/odbc_sql_fetch.cc:285-295 | One empty page in front of a row: SQL_NO_DATA while the row is pending |
| `RowsetLimit.FitsIff` | google/cloud/odbc/bq_driver/internal/odbc_sql_fetch.cc:255-300 | Cutting each later page to the limit as an int delivers the first rows of the result iff the page sizes fit |
| `RowsetLimit.MaxRowsIff` | google/cloud/odbc/bq_driver/internal/odbc_sql_fetch.cc:255-300 | For every limit: the application gets the first max_rows rows iff the page sizes fit, because the counter of fetched rows never advances and the limit is converted to int; for limits above 2^32 the other direction needs distinct rows |
| `RowsetLimit.SmallMaxRowsIff` | google/cloud/odbc/bq_driver/internal/odbc_sql_fetch.cc:255-300 | Below 2^31: iff there is no limit, or the result does not exceed it, or one page held it all |
| `RowsetLimit.MaxRowsExceeded` | google/cloud/odbc/bq_driver/internal/odbc_sql_fetch.cc:255-300 | Two pages of one row under a limit of one: both rows arrive |
| `RowsetLimit.BarredDelivers` | google/cloud/odbc/bq_driver/internal/odbc_sql_fetch.cc:255-263 | Under a limit that is not positive as an int only the first page arrives |
| `RowsetLimit.MaxRowsBarred` | google/cloud/odbc/bq_driver/internal/odbc_sql_fetch.cc:255-263 | Two pages of one row under a limit of 2^31: one row arrives |
| `RowsetLimit.MaxRowsCutsShort` | google/cloud/odbc/bq_driver/internal/odbc_sql_fetch.cc:255-300 | Under a limit of 2^32 + 1 a later page is cut to one row |
| `HandleGraph.AddEnvKeeps` | google/cloud/odbc/bq_driver/odbc_environment.cc:29-36 | A new environment keeps the graph invariant: child in parent's set iff live and pointing back, association iff slot, slots live |
| `HandleGraph.AddConnKeeps` | google/cloud/odbc/bq_driver/odbc_connection.cc:240-254 | A new connection keeps the graph invariant |
| `HandleGraph.AddStmtKeeps` | google/cloud/odbc/bq_driver/odbc_statement.cc:63-105 | A new statement, listed by its connection and associated with its own four descriptors, keeps the graph invariant |
| `HandleGraph.AddDescKeeps` | google/cloud/odbc/bq_driver/odbc_descriptor.cc:134-151 | A new user descriptor keeps the graph invariant |
| `HandleGraph.SetSlotKeeps` | google/cloud/odbc/bq_driver/internal/odbc_stmt_handle.cc:127-146 | Moving a slot's association to a user's or the statement's own descriptor, or back, keeps the graph invariant |
| `HandleGraph.RemoveStmtsKeeps` | google/cloud/odbc/bq_driver/odbc_commons.cc:68-95 | Freeing statements with their descriptors keeps the graph invariant |
| `HandleGraph.RemoveDescsKeeps` | google/cloud/odbc/bq_driver/odbc_commons.cc:96-123 | Freeing user descriptors, which restores the slots that used them, keeps the graph invariant |
| `HandleLifetimes.RunKeepsGraph` | google/cloud/odbc/bq_driver/odbc_commons.cc:31-129 | Over every run of allocating, connecting, setting descriptors, freeing and disconnecting, the graph invariant holds and nothing live refers to a freed handle |
| `HandleLifetimes.RunFromNothing` | google/cloud/odbc/bq_driver/odbc_commons.cc:31-129 | The same for every run from the start of the driver |
| `HandleLifetimes.ApplyKeepsWired` | google/cloud/odbc/bq_driver/odbc_commons.cc:31-129 | Each operation keeps the graph invariant |
| `HandleLifetimes.FreeIsSafeIff` | google/cloud/odbc/bq_driver/odbc_commons.cc:31-129 | Freeing a live handle leaves no dangling pointer iff the handle owns no other |
| `HandleLifetimes.FreeKeeps` | google/cloud/odbc/bq_driver/odbc_commons.cc:31-129 | Freeing a handle that owns no other keeps the graph invariant |
| `HandleLifetimes.ClosedIsFreeable` | google/cloud/odbc/bq_driver/odbc_connection.cc:496-535 | A connection that is not connected owns nothing, so it may be freed |
| `HandleLifetimes.AttachIsSafeIff` | google/cloud/odbc/bq_driver/odbc_statement.cc:107-137 | Attaching a descriptor leaves every statement free to be deleted iff the descriptor is a user's or the statement's own; the code accepts any live one |
| `HandleLifetimes.DisconnectFreesExactly` | google/cloud/odbc/bq_driver/odbc_connection.cc:514-534 | SQLDisconnect frees exactly the connection's statements and descriptors, empties its sets, resets just the slots that used a freed descriptor, and leaves other connections as they were |
| `HandleLifetimes.DisconnectKeeps` | google/cloud/odbc/bq_driver/odbc_connection.cc:514-534 | SQLDisconnect keeps the graph invariant |
| `HandleLifetimes.WiredHasNoDangling` | google/cloud/odbc/bq_driver/odbc_commons.cc:31-129 | The graph invariant implies that every stored pointer leads to a live handle |
| `HandleLifetimes.EarlyConnectionFreeDangles` | google/cloud/odbc/bq_driver/odbc_commons.cc:48-67 | Freeing a connection with a statement leaves that statement dangling |
| `HandleLifetimes.NewConnection` | google/cloud/odbc/bq_driver/odbc_connection.cc:240-254 | A new connection is listed by its environment and refuses statements, descriptors and SQLDisconnect, until it connects |
| `HandleLifetimes.ConnectedAccepts` | google/cloud/odbc/bq_driver/odbc_connection.cc:496-535 | A connected one accepts all three; SQLDisconnect iff it is in no transaction |
| `HandleLifetimes.NewStatement` | google/cloud/odbc/bq_driver/odbc_statement.cc:63-105 | A new statement is listed by its connection, has no explicit descriptor, and each of its four descriptors knows it by its own role and no other |
| `HandleLifetimes.NewDescriptor` | google/cloud/odbc/bq_driver/odbc_descriptor.cc:134-151 | A new user descriptor is listed by its connection and used by nothing |
| `HandleLifetimes.WorkLeaves` | google/cloud/odbc/bq_driver/internal/odbc_transactions.cc:28-61 | Preparing and executing set the two flags of the statement's connection as the server grants, and change nothing else |
| `HandleLifetimes.EndLeaves` | google/cloud/odbc/bq_driver/internal/odbc_transactions.cc:63-90 | Ending transactions clears the flag of just those connections that were in one and are granted it, and changes nothing else but their session flag |
| `HandleLifetimes.DescriptorSet` | google/cloud/odbc/bq_driver/internal/odbc_stmt_handle.cc:127-146 | Setting a descriptor changes the slot of its role and no other, and none for an implementation descriptor |
| `HandleDriver.Driver.SQLFreeHandleInternal` | google/cloud/odbc/bq_driver/odbc_commons.cc:31-129 | The graph afterwards is the old one without the handle, and has no dangling pointer iff the handle owned no other; a wrong type changes nothing |
| `HandleDriver.Driver.FreeStmt` | google/cloud/odbc/bq_driver/odbc_commons.cc:68-95 | Erasing the four pairs, unlisting and deleting amounts to removing the statement from the graph |
| `HandleDriver.Driver.DissociateAll` | google/cloud/odbc/bq_driver/odbc_commons.cc:77-83 | The loop over the four descriptor types erases just this statement's pairs from the descriptors in effect |
| `HandleDriver.Driver.FreeDesc` | google/cloud/odbc/bq_driver/odbc_commons.cc:96-123 | Resetting each associated slot, unlisting and deleting amounts to removing the descriptor from the graph |
| `HandleDriver.Driver.FreeConn` | google/cloud/odbc/bq_driver/odbc_commons.cc:48-67 | Unlisting and deleting amounts to removing the connection from the graph |
| `HandleDriver.Driver.FreeEnv` | google/cloud/odbc/bq_driver/odbc_commons.cc:34-47 | Deletes the environment whether or not it has connections: afterwards no pointer dangles iff it had none, and then the graph invariant holds |
| `HandleDriver.Driver.SetDescriptorHandle` | google/cloud/odbc/bq_driver/internal/odbc_stmt_handle.cc:127-146 | Dissociates the old explicit descriptor, stores the new one, associates it; IRD and IPD are refused |
| `HandleDriver.Driver.SetDescriptorAttribute` | google/cloud/odbc/bq_driver/odbc_statement.cc:107-137 | HY017 for implementation descriptors, HY024 for another handle type, otherwise the slot is set |
| `HandleDriver.Driver.SQLAllocEnvHandle` | google/cloud/odbc/bq_driver/odbc_environment.cc:29-36 | A new environment; the graph invariant holds afterwards |
| `HandleDriver.Driver.SQLAllocConnHandle` | google/cloud/odbc/bq_driver/odbc_connection.cc:240-254 | A new connection listed by its environment, or SQL_INVALID_HANDLE |
| `HandleDriver.Driver.SQLAllocStmtHandle` | google/cloud/odbc/bq_driver/odbc_statement.cc:63-105 | A new statement with its four descriptors, only on a connected connection and only if its attributes can be copied; otherwise nothing is linked |
| `HandleDriver.Driver.SQLAllocDescHandle` | google/cloud/odbc/bq_driver/odbc_descriptor.cc:134-151 | A new user descriptor, only on a connected connection |
| `HandleDriver.Driver.SQLDisconnectInternal` | google/cloud/odbc/bq_driver/odbc_connection.cc:496-535 | An unconnected connection or an open transaction is refused with nothing changed; otherwise both snapshot loops free just the connection's descriptors and statements |
| `HandleDriver.Driver.FreeDescs` | google/cloud/odbc/bq_driver/odbc_connection.cc:516-524 | The loop over the snapshot of descriptors frees exactly those |
| `HandleDriver.Driver.FreeStmts` | google/cloud/odbc/bq_driver/odbc_connection.cc:525-533 | The loop over the snapshot of statements frees exactly those |
| `Transactions.BeginTransactionIfNeeded` | google/cloud/odbc/bq_driver/internal/odbc_transactions.cc:28-61 | The connection's flag is set iff no transaction is active, autocommit is off, transactions are not ignored and the server grants it; what counts as failure |
| `Transactions.FinishTransactionIfNeeded` | google/cloud/odbc/bq_driver/internal/odbc_transactions.cc:63-90 | The flag is reset iff a transaction is active, the code is valid and the server grants it |
| `Transactions.EndOnEnvironment` | google/cloud/odbc/bq_driver/odbc_statement.cc:413-428 | The loop over an environment's connections ends all active transactions iff each can be ended, and otherwise those before the first that cannot |
| `Transactions.SQLEndTranInternal` | google/cloud/odbc/bq_driver/odbc_statement.cc:388-429 | SQLEndTran amounts to one operation on the handle graph, keeps its invariant, and with success leaves no transaction active on the handle |
| `HandleLocking.GetParentHandles` | google/cloud/odbc/bq_driver/odbc_lock.cc:127-190 | Rewrites handle and type to those of the parent, the connection for any user descriptor, or selects the driver's mutex |
| `HandleLocking.FindUser` | google/cloud/odbc/bq_driver/odbc_lock.cc:173-180 | The search for an associated statement of the descriptor's type finds one iff there is one |
| `HandleLocking.HandleLock.constructor` | google/cloud/odbc/bq_driver/odbc_lock.cc:192-196 | Locks exactly the mutex that the handle, or its parent, stands for; reports a lock also where there was nothing to lock |
| `HandleLocking.HandleLock.Acquire` | google/cloud/odbc/bq_driver/odbc_lock.cc:200-217 | The lock's fields afterwards name the mutex that was locked |
| `HandleLocking.HandleLock.AcquireHandleMutex` | google/cloud/odbc/bq_driver/odbc_lock.cc:33-87 | Locks the driver's or the handle's mutex; a null handle and success have the same code |
| `HandleLocking.HandleLock.Release` | google/cloud/odbc/bq_driver/odbc_lock.cc:219-224 | Unlocks exactly the mutex that this lock holds |
| `HandleLocking.HandleLock.ReleaseHandleMutex` | google/cloud/odbc/bq_driver/odbc_lock.cc:89-125 | The rewritten fields lead back to the mutex that was locked |
| `HandleLocking.SQLFreeHandle` | google/cloud/odbc/bq_driver/odbc_api.cc:3887-3902 | The whole call: the mutex table is as before, the handle is gone iff its type fits, and the mutex held meanwhile survives |
| `HandleLocking.UnlockedIff` | google/cloud/odbc/bq_driver/odbc_lock.cc:33-190 | A call goes on without any mutex iff its handle is null, or is a statement's own descriptor that nothing uses |
| `HandleLocking.LockRefusedIff` | google/cloud/odbc/bq_driver/odbc_lock.cc:33-190 | The lock is refused iff the handle is of another type, unless an environment's parent is asked for |
| `HandleLocking.LocksTaken` | google/cloud/odbc/bq_driver/odbc_lock.cc:127-190 | The mutex for every kind of handle: its own, that of its environment, connection or statement, or the driver's |
| `HandleLocking.ParentSurvives` | google/cloud/odbc/bq_driver/odbc_lock.cc:127-190 | The mutex held across a deletion is the driver's, iff an environment is freed, or that of the parent whose set lists the handle, and that parent stays live |
| `LockProtocol.RunKeepsOwners` | google/cloud/odbc/bq_driver/odbc_lock.cc:192-224 | In every interleaving a mutex has one owner, the thread that locked it, and no thread holds two or waits while it holds one |
| `LockProtocol.KeepsUntilExit` | google/cloud/odbc/bq_driver/odbc_lock.cc:192-224 | From the return of lock() to the release no other thread can own the mutex, and the release frees that one alone |
| `LockProtocol.BodyApplies` | google/cloud/odbc/bq_driver/odbc_api.cc:3887-3902 | The body of a call is one operation on the handle graph |
| `LockProtocol.OwnerCanStep` | google/cloud/odbc/bq_driver/odbc_lock.cc:33-125 | A waiting thread can go on, or the owner of its mutex can: there is no cycle of waiting threads |
| `LockProtocol.CallsComplete` | google/cloud/odbc/bq_driver/odbc_lock.cc:192-224 | With no new calls every run is finite and stops only with all threads back and every mutex free |
| `LockProtocol.RunKeepsInv` | google/cloud/odbc/bq_driver/odbc_lock.cc:192-224 | While deletions leave the calls in flight alone, no call ever uses a freed handle or a freed mutex |
| `LockProtocol.StepKeepsInv` | google/cloud/odbc/bq_driver/odbc_lock.cc:192-224 | Each step of a thread keeps that invariant |
| `LockProtocol.ActIsSafeIff` | google/cloud/odbc/bq_driver/odbc_api.cc:3887-3902 | Under the parent's mutex a deletion leaves the other calls in flight safe iff none of them concerns what is deleted |
| `LockProtocol.LiveAfter` | google/cloud/odbc/bq_driver/odbc_commons.cc:31-129 | A handle is live after an operation iff it was and is not deleted, or is created |
| `LockProtocol.TogetherIff` | google/cloud/odbc/bq_driver/odbc_lock.cc:33-224 | From rest two calls can be under way together iff they do not ask for the same mutex |
| `LockProtocol.EnvironmentAllocationsOverlap` | google/cloud/odbc/bq_driver/odbc_api.cc:134-148 | Two allocations of environments can always overlap, although the comment there says the driver's mutex serialises them |
| `LockCoverage.WritesCover` | google/cloud/odbc/bq_driver/odbc_commons.cc:31-129 | Every operation changes only the handles in its write set |
| `LockCoverage.OwnersAreCovered` | google/cloud/odbc/bq_driver/odbc_lock.cc:33-224 | Two calls whose mutexes let them overlap never write to a common environment, and to a common connection only if one of them works on one of its statements or ends transactions on its environment |
| `LockCoverage.WriteCommonIff` | google/cloud/odbc/bq_driver/odbc_lock.cc:33-224 | They write to a common handle iff both write one connection, at least one of them without its mutex, or one statement, or the association set of one user descriptor |
| `LockCoverage.WorksShareIff` | google/cloud/odbc/bq_driver/internal/odbc_transactions.cc:28-61 | Preparing or executing two statements: iff both are of one connection and both set its transaction flag or open its session |
| `LockCoverage.AttachmentsShareIff` | google/cloud/odbc/bq_driver/internal/odbc_stmt_handle.cc:127-146 | Two SQLSetStmtAttr calls on different statements do so iff a user descriptor that one takes out or puts in is one that the other takes out or puts in |
| `LockCoverage.AttachmentsRace` | google/cloud/odbc/bq_driver/internal/odbc_stmt_handle.cc:127-146 | Attaching one user descriptor to two statements: both threads can be in their calls, and both write its association set |
| `LockCoverage.BeginsRace` | google/cloud/odbc/bq_driver/odbc_api.cc:1411-1425 | Two statements of one connection that begin its transaction: both threads can be in their calls, and both set its flag |
| `LockCoverage.EndRaces` | google/cloud/odbc/bq_driver/odbc_api.cc:3800-3810 | SQLEndTran on an environment and a call that works on a statement of one of its connections: both can be under way, and both write the statement |
| `Base64.Base64Decode` | google/cloud/odbc/bq_driver/internal/data_translation.cc:1953-1973 | The loop with a wrapping 32-bit accumulator computes the bytes of the text's bit string |
| `Base64.TakeDigit` | google/cloud/odbc/bq_driver/internal/data_translation.cc:1964-1971 | Only the waiting bits of the accumulator matter: shifting six bits in and taking a byte out are exact on them |
| `Base64.DecodeUndoesEncode` | google/cloud/odbc/bq_driver/internal/data_translation.cc:1953-1973 | Any text with the bits of an encoding by section 4 of RFC 4648, with other characters anywhere between, decodes to what was encoded |
| `Base64.EncodeUndoesDecodeIff` | google/cloud/odbc/bq_driver/internal/data_translation.cc:1953-1973 | Encoding gives back the bits of a text iff decoding dropped no whole character and only zero bits |
| `Base64.Base64ToASCIIHexFormat` | google/cloud/odbc/bq_driver/internal/data_translation.cc:1976-1988 | Two upper-case digits for every byte |
| `Base64.HexToBytes` | google/cloud/odbc/bq_driver/internal/data_translation.cc:2005-2020 | Every pair of digits becomes a byte |
| `Base64.FromHexUndoesToHex` | google/cloud/odbc/bq_driver/internal/data_translation.cc:1976-2020 | The hexadecimal copy is the identity |
| `Base64.ToHexAt` | google/cloud/odbc/bq_driver/internal/data_translation.cc:1976-1988 | Digit 2k of the hexadecimal text is the high half of byte k, digit 2k + 1 its low half, from 0 to 9 and A to F |
| `Base64.HexCharIs` | google/cloud/odbc/bq_driver/internal/data_translation.cc:2005-2020 | Both cases are read, and any other character as zero |
| `Base64.ConvertBytesToBinary` | google/cloud/odbc/bq_driver/internal/data_translation.cc:1992-2037 | Delivers the longest prefix of the decoded value that fits, leaves the rest of the buffer, and reports 01004 iff the prefix is proper |
| `Base64.ConvertFromBytesDSValue` | google/cloud/odbc/bq_driver/internal/data_translation.cc:2115-2130 | Refuses exactly a null buffer and a negative length, and otherwise delivers that prefix |
| `UrlSegment.UrlEncodeSegment` | google/cloud/odbc/bq_client_interface/utils.h:41-52 | The loop computes the encoding of every byte in turn |
| `UrlSegment.EncodeIsInjective` | google/cloud/odbc/bq_client_interface/utils.h:41-52 | Percent-decoding inverts the encoder on every byte string, so it is injective |
| `UrlSegment.SegmentIff` | google/cloud/odbc/bq_client_interface/utils.h:41-52 | The output is a sequence of plain characters, a dot not among them, and upper-case triplets for other bytes; every such sequence is an output |
| `UrlSegment.CopiedIff` | google/cloud/odbc/bq_client_interface/utils.h:41-52 | A byte is copied iff it is a letter, a digit, a hyphen, an underscore or a tilde; any other becomes a percent sign and its two upper-case digits |
| `UrlSegment.DelimitersAreEncoded` | google/cloud/odbc/bq_client_interface/utils.h:41-52 | Slash, dot, colon and percent sign are never copied |
| `NumericEncoding.ConvertToBinary` | google/cloud/odbc/bq_driver/internal/data_translation.cc:187-225 | Writes the two's-complement bytes of the value, or refuses with 22003 and writes nothing iff the buffer is too small for them |
| `NumericEncoding.BinaryIsShortest` | google/cloud/odbc/bq_driver/internal/data_translation.cc:190-219 | The bytes sign-extend back to the value and no shorter byte string does |
| `NumericEncoding.SignedBytesHoldIff` | google/cloud/odbc/bq_driver/internal/data_translation.cc:190-219 | n bytes sign-extend back to a value iff the signed range of n bytes holds it |
| `NumericEncoding.FillMagnitude` | google/cloud/odbc/bq_driver/internal/data_translation.cc:1648-1671 | The shifting loop leaves the low bytes of the number and overflows iff they cannot hold it |
| `NumericEncoding.ConvertToNumeric` | google/cloud/odbc/bq_driver/internal/data_translation.h:293-314 | For every 64-bit value the bytes denote its magnitude exactly, the upper half is zero and the overflow exit is never taken |
| `NumericEncoding.LowBytesHoldIff` | google/cloud/odbc/bq_driver/internal/data_translation.h:300-304 | The low bytes denote a number iff it is below 256 to their count |
| `DatetimeRange.NormalizeDatetimeRange` | google/cloud/odbc/bq_driver/internal/data_translation.cc:2191-2220 | The in-place insertions and erasures compute the normalised string, including the wrapping search position and the throwing erase |
| `DatetimeRange.NormalizedRange` | google/cloud/odbc/bq_driver/internal/data_translation.cc:2191-2220 | The whole result for every range of the caller's pattern: a first fraction that is met gets six characters, counting the white space before the comma, a second one six digits, and nothing else changes |
| `DatetimeRange.NormalizesAllIff` | google/cloud/odbc/bq_driver/internal/data_translation.cc:2191-2228 | Both fractions come out with six digits iff each is met by its search or had six, and no white space that is met follows fewer than six digits |
| `DatetimeRange.MatchGetsSixIff` | google/cloud/odbc/bq_driver/internal/data_translation.cc:2226-2245 | For a text that the pattern matches: iff there is no first fraction, or digits and spaces number at most eight with no space or at least six digits, or else the digits are six |
| `DatetimeRange.NormalizedTwice` | google/cloud/odbc/bq_driver/internal/data_translation.cc:2191-2220 | Normalising again changes nothing, white space or not |
| `DatetimeRange.NineDigitsStay` | google/cloud/odbc/bq_driver/internal/data_translation.cc:2195-2208 | A first fraction of nine digits or more leaves the first end as it is, whatever the second |
| `DatetimeRange.ZerosBehindSpace` | google/cloud/odbc/bq_driver/internal/data_translation.cc:2195-2201 | White space behind fewer than six digits: the zeros come behind the white space |
| `DatetimeRange.SpaceInFraction` | google/cloud/odbc/bq_driver/internal/data_translation.cc:2195-2245 | A matching text with ".123 " before the comma does not come out with six digits |
| `DatetimeRange.UnclosedIsCut` | google/cloud/odbc/bq_driver/internal/data_translation.cc:2208-2220 | Without a closing parenthesis the text is cut behind six characters of the second fraction, and a shorter one makes erase() throw |
| `DateText.PrintFields` | google/cloud/odbc/bq_driver/internal/data_translation.cc:1337-1354 | SQL_C_CHAR from a date or a time: HY090, the cut pattern with 01004, or what snprintf lets fit, and the reported length |
| `DateText.ParseUndoesText` | google/cloud/odbc/bq_driver/internal/data_translation.cc:514-550 | Reading the printed form back gives the same fields, for every 16-bit value of each, signed years included |
| `DateText.RoundTripIff` | google/cloud/odbc/bq_driver/internal/data_translation.cc:855-873 | What was delivered with success reads back unchanged iff the buffer had room for the terminator, or only zeros of a zero last field are missing |
| `DateText.CutTextIff` | google/cloud/odbc/bq_driver/internal/data_translation.cc:514-550 | A cut text reads back as the same fields iff its last field is zero and one of its digits is left |
| `DateText.LastDigitIsLost` | google/cloud/odbc/bq_driver/internal/data_translation.cc:1339-1350 | A buffer of exactly the pattern's length loses the last digit of a usual date or time under SQL_SUCCESS; one more byte is enough |
| `DateText.UsualText` | google/cloud/odbc/bq_driver/internal/data_translation.cc:1337-1354 | Fields of the usual widths are printed as YYYY-MM-DD and HH:MM:SS |
| `DateText.SignedYear` | google/cloud/odbc/bq_driver/internal/data_translation.cc:1337-1354 | The sign of a year before the common era counts towards its four characters |
| `DateText.ReadSkips` | google/cloud/odbc/bq_driver/internal/data_translation.cc:514-550 | In front of a number white space and a plus sign are taken, and anything but a digit or a sign fails |
| `DateText.ReadsInRangeIff` | google/cloud/odbc/bq_driver/internal/data_translation.cc:514-550 | Digits are read iff their number fits 32 bits |
| `DataAtExec.Statement.SQLPutDataInternal` | google/cloud/odbc/bq_driver/odbc_sql_requests.cc:1429-1535 | Every check in order, null data, the declared size, the appended bytes and the change of state |
| `DataAtExec.Statement.SQLParamDataInternal` | google/cloud/odbc/bq_driver/odbc_sql_requests.cc:1537-1595 | Sequence and bounds checks, the search, which ends and creates only default records, then the parameter asked for, or the execution's result and the state it leaves |
| `DataAtExecRuns.PutAccumulates` | google/cloud/odbc/bq_driver/odbc_sql_requests.cc:1498-1532 | Over any run of pieces the buffer ends up with the accepted ones behind what it held, and the state says whether the declared size is reached |
| `DataAtExecRuns.PutOne` | google/cloud/odbc/bq_driver/odbc_sql_requests.cc:1506-1529 | A piece is appended iff it does not exceed the declared size; otherwise nothing changes |
| `DataAtExecRuns.AcceptedIff` | google/cloud/odbc/bq_driver/odbc_sql_requests.cc:1440-1522 | A call of SQLPutData is accepted iff data is wanted for a bound parameter, pointer and length agree, and the data fits the declared size |
| `DataAtExecRuns.RefusedWith` | google/cloud/odbc/bq_driver/odbc_sql_requests.cc:1440-1487 | Which error each refused call gets |
| `DataAtExecRuns.AcceptedPut` | google/cloud/odbc/bq_driver/odbc_sql_requests.cc:1489-1532 | What an accepted call leaves: null data or no bytes replace the buffer by four zeros, anything else is appended, and the state advances iff the declared size is reached |
| `DataAtExecRuns.DeclaredSizeIs` | google/cloud/odbc/bq_driver/odbc_sql_requests.cc:1498-1507 | The indicators that declare a size, and the size they declare |
| `DataAtExecRuns.TakenFits` | google/cloud/odbc/bq_driver/odbc_sql_requests.cc:1508-1522 | A buffer within the declared size stays within it |
| `DataAtExecRuns.DeclaredSizeHolds` | google/cloud/odbc/bq_driver/odbc_sql_requests.cc:1498-1532 | Under SQL_LEN_DATA_AT_EXEC(n), from an empty buffer: never more than n bytes, the next SQLParamData is in order iff there are n, and all the data is there if it fits |
| `DataAtExecRuns.AllTakenIff` | google/cloud/odbc/bq_driver/odbc_sql_requests.cc:1508-1522 | All pieces are accepted iff no size is declared or their total does not exceed it |
| `DataAtExecRuns.RefusedOrIgnored` | google/cloud/odbc/bq_driver/odbc_sql_requests.cc:1479-1532 | A refused call changes nothing; SQL_NTS is accepted but stores nothing |
| `DataAtExecRuns.NullDataLeavesFourZeros` | google/cloud/odbc/bq_driver/odbc_sql_requests.cc:1489-1497 | Null data drops the pieces so far and leaves four zero bytes, behind which later pieces are appended |
| `DataAtExecRuns.AskAdvances` | google/cloud/odbc/bq_driver/odbc_sql_requests.cc:1549-1587 | SQLParamData is answered iff it is in order; it moves strictly forward to the next wanted parameter, skipping none, and hands out that parameter's data pointer, or executes when none is left |
| `DataAtExecRuns.SessionAsksWanted` | google/cloud/odbc/bq_driver/odbc_sql_requests.cc:1537-1595 | A session asks for wanted parameters in order; when it comes to executing it has asked for all behind its start |
| `DataAtExecRuns.SessionPointers` | google/cloud/odbc/bq_driver/odbc_sql_requests.cc:1577-1583 | The pointers handed out in a session are those bound for the parameters asked for, in order |
| `DataAtExecRuns.AskCreates` | google/cloud/odbc/bq_driver/odbc_sql_requests.cc:1565-1570 | Looking parameters up creates just the missing records up to the one asked for |
| `DataAtExecRuns.SessionExecutesIff` | google/cloud/odbc/bq_driver/odbc_sql_requests.cc:1537-1595 | A session comes to executing iff its first SQLParamData is in order and every wanted parameter behind the start gets at least one accepted piece |
| `DataAtExecRuns.SessionDelivers` | google/cloud/odbc/bq_driver/odbc_sql_requests.cc:1498-1595 | A parameter asked for in a session ends up with the pieces accepted for it behind what it held |
| `DataAtExecRuns.ExecutedLeaves` | google/cloud/odbc/bq_driver/odbc_sql_requests.cc:1575-1595 | What is executed are the parameters as the session leaves them; neither the position nor the flag of SQLPutData is reset |
| `DataAtExecRuns.AsksAllIff` | google/cloud/odbc/bq_driver/odbc_sql_requests.cc:1537-1595 | A session asks for all wanted parameters and executes iff its first call is in order, no wanted parameter lies at or before its start, and each gets at least one accepted piece |
| `DataAtExecRuns.AskingAgainExecutesIff` | google/cloud/odbc/bq_driver/odbc_sql_requests.cc:1549-1595 | After a session that executed, one more SQLParamData executes again iff a parameter had been asked for, or the flag had been set before |
| `DataAtExecRuns.SecondSessionAsksNone` | google/cloud/odbc/bq_driver/odbc_sql_requests.cc:1557-1590 | That position is never reset: after a session that executed, the next one executes without asking for anything, whatever is delivered |
| `DataAtExecRuns.AskedAreAnnouncedIff` | google/cloud/odbc/bq_driver/odbc_sql_requests.cc:1568-1576 | The parameters asked for are those announced as data-at-execution iff no other has an ordinary length or SQL_NULL_DATA as indicator |
| `ParamArray.RunRows` | google/cloud/odbc/bq_driver/odbc_sql_requests.cc:283-365 | The loop writes each row's status and the count of rows processed, and tallies results and errors |
| `ParamArray.ProcessExecute` | google/cloud/odbc/bq_driver/odbc_sql_requests.cc:247-436 | Outcome, stored results and statement state are those of the tally and the steps behind the rows, scripts included, and never the state of executing; status i is success iff row i built and ran; rows processed ends at the array size |
| `ParamArray.FailsIff` | google/cloud/odbc/bq_driver/odbc_sql_requests.cc:367-411 | Failure is reported iff no row ran, with the error of the last row and nothing stored, or a step behind the rows failed |
| `ParamArray.StateLeft` | google/cloud/odbc/bq_driver/odbc_sql_requests.cc:367-431 | The state left behind: failure iff no row ran or a later step failed, with results iff it went well and yields rows, never still executing |
| `ParamArray.StoresLastSuccess` | google/cloud/odbc/bq_driver/odbc_sql_requests.cc:360-373 | The stored results are those of the last success with the affected rows of all successes |
| `ParamArray.ErrorInRowIff` | google/cloud/odbc/bq_driver/odbc_sql_requests.cc:380-436 | 01S01 is reported iff some rows ran, some failed and the steps behind them went well, unless a DML statement touched no row in total |
| `ParamArray.NoDataIff` | google/cloud/odbc/bq_driver/odbc_sql_requests.cc:421-436 | SQL_NO_DATA is reported iff some row ran, the steps behind the rows went well, and a DML statement touched no row in total |
| `ParamArray.SuccessIff` | google/cloud/odbc/bq_driver/odbc_sql_requests.cc:421-436 | Success is reported iff every row ran, the steps behind them went well, and it is not a DML statement that touched no row |
| `ParamArray.AfterErrorIs` | google/cloud/odbc/bq_driver/odbc_sql_requests.cc:380-411 | Of the steps behind the rows, finding a script's sub-statements fails first |
| `ParamArray.FailedWith` | google/cloud/odbc/bq_driver/odbc_sql_requests.cc:380-411 | A step behind the rows that fails is what is reported once a row ran |
| `ParamArray.TallyMeans` | google/cloud/odbc/bq_driver/odbc_sql_requests.cc:283-365 | What each variable of the loop stands for after n rows |
| `StatementStates.Statement.SQLPrepareInternal` | google/cloud/odbc/bq_driver/odbc_sql_requests.cc:941-996 | The statement counts as prepared whatever PrepareQuery returned; a cancelled one is skipped |
| `StatementStates.Statement.SQLExecuteInternal` | google/cloud/odbc/bq_driver/odbc_sql_requests.cc:1030-1126 | The refusals in order, the skipped call after SQLCancel, and the state behind the execution |
| `StatementStates.Statement.SQLExecDirectInternal` | google/cloud/odbc/bq_driver/odbc_sql_requests.cc:1153-1281 | Refusals, the skipped call, and the state of executing that is kept when the transaction or the preparation fails |
| `StatementStates.Statement.CloseTheCursor` | google/cloud/odbc/bq_driver/internal/odbc_stmt_handle.cc:567-579 | Back to prepared, if the statement ever was, or to not prepared |
| `StatementStates.Statement.SQLCancelInternal` | google/cloud/odbc/bq_driver/odbc_statement.cc:464-487 | Marks the statement as cancelled iff there is something to cancel |
| `StatementStates.StrandedIff` | google/cloud/odbc/bq_driver/odbc_sql_requests.cc:440-482 | Behind any call a statement counts as executing iff that call was SQLExecDirect failing to begin a transaction or to prepare the query with parameter 1 bound, or the statement did before and the call leaves it so |
| `StatementStates.RunStrandedIff` | google/cloud/odbc/bq_driver/odbc_sql_requests.cc:440-482 | The same over every run: some call stranded the statement and every later one left it stranded |
| `StatementStates.StrandedRefuses` | google/cloud/odbc/bq_driver/odbc_sql_requests.cc:1046-1053 | While it is stranded every SQLExecute is refused with HY010 |
| `StatementStates.PreparedIsStranded` | google/cloud/odbc/bq_driver/odbc_sql_requests.cc:461-466 | A prepared statement, SQLExecDirect that cannot begin a transaction, and SQLExecute is refused |
| `StatementStates.ExecutesIff` | google/cloud/odbc/bq_driver/odbc_sql_requests.cc:1030-1062 | SQLExecute executes iff the statement is prepared or counts as such, and not executing or executed with results |
| `StatementStates.FailedPrepareExecutes` | google/cloud/odbc/bq_driver/odbc_sql_requests.cc:991-996 | Behind a failed SQLPrepare it does |
| `StatementStates.ExecutionLeaves` | google/cloud/odbc/bq_driver/odbc_sql_requests.cc:1100-1126 | The state and the answer of every execution by its rows, its kind and the steps behind them, SQL_NEED_DATA included |
| `StatementStates.PrepareLeaves` | google/cloud/odbc/bq_driver/odbc_sql_requests.cc:941-996 | Every answer of SQLPrepare, and the state it leaves |
| `StatementStates.ExecuteLeaves` | google/cloud/odbc/bq_driver/odbc_sql_requests.cc:1030-1126 | Every answer of SQLExecute, and the state it leaves |
| `StatementStates.ExecDirectLeaves` | google/cloud/odbc/bq_driver/odbc_sql_requests.cc:1153-1281 | Every answer of SQLExecDirect, and the state it leaves |
| `StatementStates.OthersLeave` | google/cloud/odbc/bq_driver/odbc_statement.cc:464-487 | SQLCancel marks a statement that is prepared, executing or waiting for data; closing the cursor and binding leave the mark |
| `BindParameter.Statement.SQLBindParameterInternal` | google/cloud/odbc/bq_driver/odbc_sql_requests.cc:701-797 | Outcome and both descriptors after the call, including the state change before the checks and the record created by the lookup |
| `BindParameter.Statement.PrepareQuery` | google/cloud/odbc/bq_driver/internal/odbc_stmt_handle.cc:296-352 | The checks of the result columns in order, the number of parameters taken over before the second, the IPD cleared and refilled record by record |
| `BindParameter.Statement.ActuallyProcessExecDirect` | google/cloud/odbc/bq_driver/odbc_sql_requests.cc:440-480 | Without parameter 1 bound the IPD is cleared and the query counts as one without parameters, once a transaction is begun; otherwise the query is prepared |
| `BindParameter.Statement.ResetParams` | google/cloud/odbc/bq_driver/internal/odbc_desc_handle.cc:94-112 | SQL_RESET_PARAMS ends within so many turns of its loop iff the count is below 32767 and not above them; then records 1 to the count are gone and nothing else is touched |
| `BindParameter.RefusedChangesNothingIff` | google/cloud/odbc/bq_driver/odbc_sql_requests.cc:750-786 | A refused call leaves both descriptors unchanged iff the IPD has a record wherever the lookup in the APD finds one |
| `BindParameter.BoundInBoth` | google/cloud/odbc/bq_driver/odbc_sql_requests.cc:788-796 | An accepted call binds the parameter in both descriptors and no other parameter in either |
| `BindParameter.RecordsBound` | google/cloud/odbc/bq_driver/odbc_sql_requests.cc:770-796 | Which record goes where: the APD gets the first of the checked records with the call's pointers and length, the IPD the second, and the checks start from the old records or new ones |
| `BindParameter.RefusalsIff` | google/cloud/odbc/bq_driver/odbc_sql_requests.cc:703-765 | The refusals in order, and the state change that comes before the last |
| `BindParameter.RefillsIff` | google/cloud/odbc/bq_driver/internal/odbc_stmt_handle.cc:296-352 | The IPD is refilled iff the server answers and each result column is of a known type, or an array of NULL |
| `BindParameter.TakesIff` | google/cloud/odbc/bq_driver/internal/odbc_stmt_handle.cc:296-326 | The number of parameters is taken over iff the server answers and each result column's type is in the table of result types |
| `BindParameter.ExecDirectLeaves` | google/cloud/odbc/bq_driver/odbc_sql_requests.cc:440-480 | SQLExecDirect leaves the APD alone; with parameter 1 bound it prepares, without it the IPD is cleared |
| `BindParameter.ResetUnbindsAllIff` | google/cloud/odbc/bq_driver/internal/odbc_desc_handle.cc:94-112 | For any descriptor: resetting unbinds every parameter iff each number lies between 1 and SQL_DESC_COUNT |
| `BindParameter.CountedResetIff` | google/cloud/odbc/bq_driver/internal/odbc_desc_handle.cc:94-112 | Where the count is the highest number: iff no number is negative as a short, that is 32768 or more |
| `BindParameter.LookedUpSurvives` | google/cloud/odbc/bq_driver/odbc_sql_requests.cc:1568 | Parameter 1 bound and parameter 2 looked up: resetting keeps parameter 2 |
| `BindParameter.ResetEndsIff` | google/cloud/odbc/bq_driver/internal/odbc_desc_handle.cc:102-105 | The erasing loop ends iff the count is below 32767 |
| `ParameterRuns.PreparedNumbers` | google/cloud/odbc/bq_driver/internal/odbc_stmt_handle.cc:511-565 | A refilled IPD has a record for each parameter of the query and no other |
| `ParameterRuns.PrepareKeepsPairedIff` | google/cloud/odbc/bq_driver/internal/odbc_stmt_handle.cc:208-352 | Preparing keeps an IPD record for every record of the APD iff it does not refill the IPD or the APD has no number but those of the query's parameters |
| `ParameterRuns.ExecDirectKeepsPairedIff` | google/cloud/odbc/bq_driver/odbc_sql_requests.cc:440-480 | Executing directly does so iff it fails early, or with parameter 1 bound as preparing does, or nothing is bound |
| `ParameterRuns.ApplyKeepsPairedIff` | google/cloud/odbc/bq_driver/odbc_sql_requests.cc:1566-1569 | The same for every operation; a lookup of SQLParamData iff one of the descriptors has the record |
| `ParameterRuns.RunKeepsPairedIff` | google/cloud/odbc/bq_driver/odbc_sql_requests.cc:750-796 | Over any run of binding, resetting, preparing, executing directly and looking records up, the pairs hold throughout iff each step keeps them |
| `ParameterRuns.LookUpsKeepPairsIff` | google/cloud/odbc/bq_driver/odbc_sql_requests.cc:1565-1569 | SQLParamData can look up a record that breaks the pairs iff the IPD lacks one of the query's parameters |
| `ParameterRuns.ApplyKeepsCoverIff` | google/cloud/odbc/bq_driver/internal/odbc_stmt_handle.cc:296-338 | An operation keeps the IPD complete for the query iff it is not a preparation that ends at a column without an SQL type and brings more parameters than the IPD has |
| `ParameterRuns.RunKeepsCoverIff` | google/cloud/odbc/bq_driver/internal/odbc_stmt_handle.cc:296-338 | The same over every run |
| `ParameterRuns.RunFromFresh` | google/cloud/odbc/bq_driver/odbc_sql_requests.cc:750-796 | Both run results hold of every run from a new statement |
| `ParameterRuns.PrepareDropsSecond` | google/cloud/odbc/bq_driver/internal/odbc_stmt_handle.cc:334-336 | Parameters 1 and 2 bound, then a query with one marker prepared or executed directly: parameter 2 has no IPD record |
| `ParameterRuns.NullColumnUncovers` | google/cloud/odbc/bq_driver/internal/odbc_stmt_handle.cc:376-382 | A query with two markers and a column of type NULL, then parameter 1 bound: looking up parameter 2 leaves it in the APD alone |
| `RowLimit.SQLColumnsRows` | google/cloud/odbc/bq_driver/odbc_driver_metadata.cc:809-836 | The first max_rows rows of all objects; fails iff an object that cannot be read comes before the limit |
| `RowLimit.SQLProcedureColumnsRows` | google/cloud/odbc/bq_driver/odbc_driver_metadata.cc:1080-1102 | The same rows; fails iff any object cannot be read |
| `RowLimit.SQLGetTypeInfoRows` | google/cloud/odbc/bq_driver/odbc_sql_results.cc:389-406 | The same rows, counted in a separate variable |
| `RowLimit.SQLPrimaryKeysRows` | google/cloud/odbc/bq_driver/odbc_driver_metadata.cc:325-330 | The same rows by erasing the tail |
| `RowLimit.SQLStatisticsRows` | google/cloud/odbc/bq_driver/odbc_driver_metadata.cc:1196-1204 | The same rows by resizing, with an unreadable limit taken as none |
| `RowLimit.FormsAgreeIff` | google/cloud/odbc/bq_driver/odbc_driver_metadata.cc:809-836 | The two nested loops agree on failing iff the first object that cannot be read comes before the limit |
| `QueryPaging.GetAllQueryResults` | google/cloud/odbc/bq_client_interface/jobs.cc:345-395 | Requests carry the token of the page before; rows come back in the order of the accepted pages; the loop stops at the first timeout, failure or last page |
| `QueryPaging.Turn` | google/cloud/odbc/bq_client_interface/jobs.cc:349-391 | One turn of the loop: timeout, failure, another poll, or a page |
| `QueryPaging.Merge` | google/cloud/odbc/bq_client_interface/jobs.cc:376-383 | The kept rows are those of all pages so far, under the header of the first page that had rows |
| `QueryPaging.WholeTable` | google/cloud/odbc/bq_client_interface/jobs.cc:345-395 | Against a server that pages through a table, the accepted pages are the whole table, however often the job was polled |
| `IdleProxy.Proxy.Kill` | tools/idle_connect_proxy/idle_connect_proxy.py:118-162 | Does nothing unless the tunnel is open; otherwise one kill, a reason, and the state of the mode |
| `IdleProxy.Proxy.WatchRound` | tools/idle_connect_proxy/idle_connect_proxy.py:377-391 | A round of the watchdog kills exactly the open, monitored tunnels that are idle |
| `IdleProxy.Proxy.RelayData` | tools/idle_connect_proxy/idle_connect_proxy.py:165-213 | What a relay does with a chunk up to its next await |
| `IdleProxy.Proxy.OpenConnection` | tools/idle_connect_proxy/idle_connect_proxy.py:314-325 | Counters and the reconnect flag when a tunnel is established |
| `IdleProxy.Proxy.FinishClient` | tools/idle_connect_proxy/idle_connect_proxy.py:344-361 | The clean-up: server drop, reset of the flag, or neither |
| `ProxyAccounting.CountersInOrder` | tools/idle_connect_proxy/idle_connect_proxy.py:118-391 | At every await of every run: reconnects, with a pending one, do not exceed kills and server drops, which do not exceed storage tunnels, which do not exceed tunnels |
| `ProxyAccounting.StepKeepsInv` | tools/idle_connect_proxy/idle_connect_proxy.py:118-391 | Every step keeps each counter equal to the number of tunnels of its kind |
| `ProxyAccounting.KindsAreDisjoint` | tools/idle_connect_proxy/idle_connect_proxy.py:344-354 | No tunnel is counted both as killed and as dropped by the server |
| `ProxyAccounting.OpenReconnects` | tools/idle_connect_proxy/idle_connect_proxy.py:314-325 | Opening a monitored tunnel with a drop pending counts exactly one reconnect and clears the flag; no other tunnel does either |
| `ProxyAccounting.CleanUpDrops` | tools/idle_connect_proxy/idle_connect_proxy.py:344-361 | The clean-up counts a drop and sets the flag iff the server ended first a monitored tunnel that was not killed; when the flag is cleared instead |
| `ProxyAccounting.KillLeaves` | tools/idle_connect_proxy/idle_connect_proxy.py:118-162 | A kill takes an open tunnel to the state of the mode, and leaves others and every counter but that of kills |
| `ProxyAccounting.ReadLeaves` | tools/idle_connect_proxy/idle_connect_proxy.py:165-213 | What becomes of a chunk in every state of tunnel and proxy, and when it ends in a kill |
| `ProxyAccounting.DrainLeaves` | tools/idle_connect_proxy/idle_connect_proxy.py:199-213 | A write that has drained is counted in its direction; the last before a kill ends the relay and kills an open tunnel |
| `ProxyAccounting.EndsLeave` | tools/idle_connect_proxy/idle_connect_proxy.py:326-343 | A client outlives the downward relay of a swallowing tunnel, and otherwise ends both relays, noting whether the server ended first |
| `ProxyAccounting.WatchKills` | tools/idle_connect_proxy/idle_connect_proxy.py:377-391 | The watchdog kills an open tunnel iff it is live, monitored and idle, and counts each |
| `ProxyAccounting.RunIsForward` | tools/idle_connect_proxy/idle_connect_proxy.py:118-182 | A reason is never taken back, it is set iff the tunnel is no longer open, and states change only from open, or from stale to killed |
| `ProxyAccounting.RunStaysBelow` | tools/idle_connect_proxy/idle_connect_proxy.py:186-211 | While the kill limit is not used up, no monitored open tunnel goes on relaying once it has sent as many bytes as the larger of the two thresholds |
| `ProxyAccounting.RunSwallows` | tools/idle_connect_proxy/idle_connect_proxy.py:172-185 | A blackholed or stale tunnel passes no byte on, stays blackholed for good, and leaves stale only for killed |
| `ProxyLimit.LimitKeptIff` | tools/idle_connect_proxy/idle_connect_proxy.py:187-211 | Every interleaving keeps the kill limit iff neither an idle timeout nor a byte threshold is configured |
| `ProxyLimit.MostKills` | tools/idle_connect_proxy/idle_connect_proxy.py:187-211 | Without the watchdog the most kills with p kills ever pending together is the limit plus p less one: reached, and never exceeded |
| `ProxyLimit.OvershootBound` | tools/idle_connect_proxy/idle_connect_proxy.py:187-211 | The upper bound; with at most one kill pending at a time the limit is kept |
| `ProxyLimit.OvershootReached` | tools/idle_connect_proxy/idle_connect_proxy.py:165-211 | For every byte threshold, limit and p a run of reads of at most 64 KiB that reaches the bound: p relays decide before any of them kills |
| `ProxyLimit.WatchReached` | tools/idle_connect_proxy/idle_connect_proxy.py:377-391 | One round of the watchdog kills any number of tunnels |
| `ProxyLimit.WatchdogIgnoresLimit` | tools/idle_connect_proxy/idle_connect_proxy.py:377-391 | The watchdog kills every idle tunnel it monitors, whatever the limit |

## Left out

- GetColumnData: a cell's translation is an arbitrary function of cell and C type, together with the byte it leaves behind the value; that it fits the stash's allocation is not modelled, and neither is its status on the fall-through.
- SQLGetData buffers of length zero and length indicators: lengths are those for which the copy arithmetic is defined, and the indicator is part of the outcome.
- SQLFetchScroll: only its reset of the stash is modelled, not the choice of a row by orientation and offset.
- Writing a converted row into bound buffers, row status arrays and the count of rows processed by a fetch: a row is converted or not, by an arbitrary predicate.
- The streaming variant of fetching through the storage read API, and its Arrow batches.
- Freeing implicit descriptors, which live inside their statement; the driver does not guard against it.
- HandleDriver.Driver.SQLAllocStmtHandle: whether the connection's attributes can be copied is a parameter; the statement that is then created but linked to nothing is not part of the graph, and the cursor name is left out.
- The connection pointer that catalog functions store in a statement's IRD.
- HandleLocking.HandleLock.Acquire: describes the moment when lock() returns; waiting is a step of LockProtocol.
- Asynchronous execution, where caller and worker write the statement's state in an unspecified order.
- Calls on a handle that is already freed, or whose address is reused while a call on it is in flight.
- DataAtExec.Statement.SQLParamDataInternal: the execution is an arbitrary function of the parameters, and its final state is one value, since all its final states refuse the same calls here.
- DataAtExec.Statement.SQLPutDataInternal: the indicator of the parameter asked for must still be there, since the code follows it unchecked.
- The jobs of a script: finding them is a step behind the rows that succeeds or fails, and so is turning the results into rows, whose cut is in RowsetFetch.
- The checks inside SQLBindParameter: SetParameterType, SetConciseType and ConfigureIpdRecord are one arbitrary function.
- BindParameter.Statement.PrepareQuery: the dry run itself, the IRD, and the fields of the IPD's new records, which come with the answer; changes of the descriptors through SQLSetDescField and SQLCopyDesc, or through another statement that shares the APD, are left out of ParameterRuns.
- DateText.PrintFields: the wide and binary forms are not modelled, and reading follows the default locale.
- NumericEncoding.ConvertToBinary: starts from the 32-bit integer, not from the text and the floating-point number before it.
- NumericEncoding.ConvertToNumeric: negating the smallest value is taken to wrap, as on two's-complement hardware.
- RowsetLimit.MaxRowsIff: for limits above 2^32 the rows must be distinct for one direction, because a page cut short can be made up for by equal rows of the next.
- ProxyLimit.OvershootBound: the bound speaks of the kills pending together in a run; LimitKeptIff speaks of the configuration alone.
- StatementStates: calls that fetch, read the catalog, deliver data at execution or move to the next result, which set states of their own, are not among the calls.
- LockCoverage.WriteCommonIff: what calls read, and what calls other than the listed operations write under the mutex of the handle they name, is left out, and so are the diagnostic records that every call leaves on a handle.
- QueryPaging.GetAllQueryResults: works on a finite prefix of rounds, since the loop need not end while a job runs; the pauses between polls are left out.
- IdleProxy: byte contents, ping-flood counting, status reports and the writing of statistics files are left out; a cancelled relay counts as ended at once, and the cancellation of a client itself is not modelled.
- The attribute tables, SQLSTATE tables, Unicode entry points, authentication, dialogs and the command-line client: one-branch facts or plumbing.
