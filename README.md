# Network logger: a Dafny model of the partitioned log store

The network logger is the backend of a mobile network-event logger. A client
uploads batches of network events (connection changes, subnet changes,
reachability) together with device information. The server stores each batch
in one JSON partition file inside a log directory. The file is named after
the caller's address and, when an event of the batch names a user in its
session context, after that user. Each file holds its entries newest first
and keeps at most `max_logs` of them. Queries read every file whose name
matches:

- by address, a prefix test;
- by user, a substring test;
- by session attribute, every file.

A query returns the entries newest first by their timestamp string, cut to an
optional limit. Clearing overwrites the selected files with an empty list.

The model has six modules:

- `Results`: the `Option` and `Result` wrappers.
- `Text`: Python's one-character `str.replace`, `startswith`, `endswith` and
  the substring test `t in s`.
- `Models`: the `NetworkLogEntry` record and its keyword-argument
  construction from an uploaded JSON object, with the `TypeError`s Python
  raises for unknown and missing keywords, plus one error of the model's own
  (`TimestampNotText`, see "Left out").
- `Helpers`: naming the partition file, extracting the user id, loading and
  saving one file with bounded retention, and the per-address count. The log
  directory is the class `LogDirectory`. Its `names` field is the listing
  order and its `files` field maps each file name to the entries it holds, or
  to `Corrupt` when the file cannot be read back as entries.
- `Sorting`: Python's string order and the stable descending sort of
  `list.sort(key=..., reverse=True)`.
- `Logger`: the class `NetworkLogger`, covering upload, the three queries,
  clearing and the total count. Each query is proved equal to a
  specification built from `Gather`, which collects the picked files'
  entries in listing order, then `KeepSession` and `Ordered`.

The user query matches the raw user id, while the file name holds the
sanitised id, so an id with `/` is never found
(`Logger.SlashedUserIdIsNotFound`).

An upload's `total_stored` counts the address-only file of the caller, not
the partition the batch was written to.

The server clock is a parameter `clock: nat -> string`, where `clock(k)` is
the ISO-8601 text of the `k`-th clock reading during one upload.

## Model

| member | source | states |
|---|---|---|
| Text.ReplaceChar | NetworkLoggerBackend/helper_functions.py:16 | `replace` of one character keeps the length and changes exactly the occurrences of that character |
| Text.ReplaceEither | NetworkLoggerBackend/helper_functions.py:16 | replacing either of two characters keeps the length and changes exactly their occurrences |
| Text.ReplaceEitherIsChained | NetworkLoggerBackend/helper_functions.py:16 | one pass that replaces either character is the two chained `replace` calls |
| Text.StartsWith | NetworkLoggerBackend/network_logger.py:96 | `str.startswith`, the address test of the scans; stated by `Helpers.PartitionNameShape` and `Logger.AddressQueryPicksLongerAddresses` |
| Text.EndsWith | NetworkLoggerBackend/network_logger.py:96 | `str.endswith('.json')` of every scan; stated by `Helpers.PartitionNameShape` |
| Text.Contains | NetworkLoggerBackend/network_logger.py:193 | the substring test `t in s`; stated by `Text.ContainsAt`, `Text.ContainsInfix` and `Text.ContainsKeepsChars` |
| Text.ContainsAt | NetworkLoggerBackend/network_logger.py:193 | the substring test holds exactly when the string occurs at some position |
| Text.ContainsInfix | NetworkLoggerBackend/network_logger.py:193 | a string contains whatever occurs inside it |
| Text.ContainsKeepsChars | NetworkLoggerBackend/network_logger.py:148 | a string that contains `t` contains every character of `t` |
| Models.ToStr | NetworkLoggerBackend/helper_functions.py:33 | Python's `str()` of a JSON value; stated by `Models.StrIsLoose` and `Logger.SessionMatchIsLoose` |
| Models.StrIsLoose | NetworkLoggerBackend/network_logger.py:219 | `str()` makes the int 5 and the string "5" equal, and null equal to "None"; a negative int prints with a minus sign |
| Models.UnknownNames | NetworkLoggerBackend/models.py:9-41 | the unexpected keys are exactly the keys that name no field, and there are none exactly when every key is a field |
| Models.Absent | NetworkLoggerBackend/models.py:12-16 | the missing fields are exactly the required fields left out, and there are none exactly when all are present |
| Models.KeyOf | NetworkLoggerBackend/models.py:9-41 | a JSON key stands for a field exactly when it spells that field's name; any other key is kept as unknown text |
| Models.Get | NetworkLoggerBackend/models.py:17-41 | the `None` default of a field left out; stated by `Models.EntryOf` and `Models.ConstructEntry` |
| Models.EntryOf | NetworkLoggerBackend/models.py:11-41 | the entry of an accepted object holds each field's uploaded value, `None` for a field left out, and the uploaded session context |
| Models.ConstructEntry | NetworkLoggerBackend/models.py:9-41 | construction succeeds exactly when every key is a field, every required field is present and the timestamp is text; the unexpected-key error lists the unknown keys and comes before the missing-key error, which lists the missing required fields; the timestamp error arises only when every key is a field, every required field is present and the timestamp is not text; on success every field holds the uploaded value, or null when it was left out |
| Models.NoDefaultForNetworkState | NetworkLoggerBackend/models.py:12-16 | leaving out `networkType`, `isConnected` or `isInternetReachable` is a missing-field error naming that field |
| Helpers.SafeIp | NetworkLoggerBackend/helper_functions.py:16 | same length as the address; every `:` and `.` becomes `_`; every other character is kept, so none of `:` or `.` remain |
| Helpers.SafeUserId | NetworkLoggerBackend/helper_functions.py:20 | same length as the id; every `/` and `\` becomes `_`; every other character is kept |
| Helpers.SafeUserIdKeepsPlainIds | NetworkLoggerBackend/helper_functions.py:20 | an id without `/` or `\` is unchanged by sanitising |
| Helpers.Truthy | NetworkLoggerBackend/helper_functions.py:19 | Python truthiness of an optional id; stated by `Helpers.UserPartitionExample` (an empty id falls back to the address-only file) and `Logger.NetworkLogger.ClearLogs` |
| Helpers.ClientFileName | NetworkLoggerBackend/helper_functions.py:13-21 | the partition file name; its properties are stated by `Helpers.PartitionNameShape`, `Helpers.UserPartitionName`, `Helpers.NoneUserPartition` and the examples |
| Helpers.JoinPath | NetworkLoggerBackend/helper_functions.py:23 | POSIX `os.path.join` (`posixpath.join`) of two parts; stated by `Helpers.JoinPathExample` |
| Helpers.ClientFilePath | NetworkLoggerBackend/helper_functions.py:13-23 | the partition name joined to the log directory; stated by `Helpers.JoinPathExample` and `Helpers.PartitionNameShape` |
| Helpers.PartitionNameShape | NetworkLoggerBackend/helper_functions.py:13-23 | every partition name of an address starts with the sanitised address and ends in `.json` |
| Helpers.UserPartitionName | NetworkLoggerBackend/helper_functions.py:19-21 | with a truthy user id the name differs from the address-only name and contains `_user_` followed by the sanitised id |
| Helpers.SafeIpExample | NetworkLoggerBackend/helper_functions.py:16 | the address 5.6.7.8 is sanitised to `5_6_7_8` |
| Helpers.SafeUserIdExamples | NetworkLoggerBackend/helper_functions.py:20 | the id `a/b` is sanitised to `a_b`, and `u9` is kept |
| Helpers.UserPartitionExample | NetworkLoggerBackend/helper_functions.py:13-23 | 5.6.7.8 with user u9 gives `5_6_7_8_user_u9.json`; with no user, or the empty id, it gives `5_6_7_8.json` |
| Helpers.UserIdSanitisedExample | NetworkLoggerBackend/helper_functions.py:20-21 | the user id `a/b` is written as `a_b` in the file name |
| Helpers.JoinPathExample | NetworkLoggerBackend/helper_functions.py:21-23 | the file name is joined to the directory with exactly one `/`, whether or not the directory ends in one |
| Helpers.SanitisedAddressesCollide | NetworkLoggerBackend/helper_functions.py:16 | `1.2.3.4` and `1:2:3:4` share one partition file |
| Helpers.CarriesUserId | NetworkLoggerBackend/helper_functions.py:32 | an event's non-empty session context holds `userId`; stated by `Helpers.ExtractUserId` and `Helpers.NullUserIdIsNone` |
| Helpers.ExtractUserId | NetworkLoggerBackend/helper_functions.py:26-34 | `None` exactly when no event has a non-empty session context with `userId`; otherwise `str()` of the `userId` of the first event that has one |
| Helpers.ExtractUserIdIgnoresLater | NetworkLoggerBackend/helper_functions.py:29-33 | events after the first one that carries a user id do not change the result |
| Helpers.NullUserIdIsNone | NetworkLoggerBackend/helper_functions.py:32-33 | a null `userId` gives the truthy user id "None" |
| Helpers.NoneUserPartition | NetworkLoggerBackend/helper_functions.py:19-21 | the user "None" is stored in the partition `<address>_user_None.json` |
| Helpers.LoadLogs | NetworkLoggerBackend/helper_functions.py:59-69 | a readable file gives its entries; a missing or corrupt file gives `[]`; a non-empty result comes from a readable file |
| Helpers.Retained | NetworkLoggerBackend/helper_functions.py:44-48 | the saved list is the new entries followed by the existing ones, cut to its first `min(max_logs, total)` entries |
| Helpers.RetentionOrder | NetworkLoggerBackend/helper_functions.py:43-48 | new entries come first in batch order; an existing entry survives exactly when fewer than `max_logs` entries precede it; nothing is dropped while the total fits |
| Helpers.RetentionScenario | NetworkLoggerBackend/helper_functions.py:44-48 | with a cap of 2, saves of T1, T2, T3 leave [T1], [T2, T1], [T3, T2] |
| Helpers.LogDirectory.constructor | NetworkLoggerBackend/network_logger.py:26 | the directory as found, with a duplicate-free listing that names exactly its files |
| Helpers.LogDirectory.Write | NetworkLoggerBackend/helper_functions.py:51-52 | the file now holds exactly the written entries; a new file joins the end of the listing; nothing else changes |
| Helpers.SaveLogsToFile | NetworkLoggerBackend/helper_functions.py:37-56 | only the named file changes, and it holds the retained list built from its previous readable content |
| Helpers.SaveReplacesUnreadable | NetworkLoggerBackend/helper_functions.py:41-48 | saving over a missing or corrupt file keeps only the new entries, up to the cap |
| Helpers.ClientLogCount | NetworkLoggerBackend/helper_functions.py:72-76 | the length of the address-only file as loaded; stated by `Helpers.ClientLogCountIgnoresUserFiles` and by `total_stored` in `Logger.NetworkLogger.HandleLogUpload` |
| Helpers.ClientLogCountIgnoresUserFiles | NetworkLoggerBackend/helper_functions.py:72-76 | the count reads only the address-only file, so rewriting a user partition of the address leaves it unchanged |
| Sorting.StrLeq | NetworkLoggerBackend/network_logger.py:102 | Python's code-point string order used by the sort key; stated by `Sorting.StrLeqReflexive`, `Sorting.StrLeqTotal`, `Sorting.StrLeqTransitive` and `Sorting.StrLeqAntisymmetric` |
| Sorting.StrLeqReflexive | NetworkLoggerBackend/network_logger.py:102 | Python's string `<=` is reflexive |
| Sorting.StrLeqTotal | NetworkLoggerBackend/network_logger.py:102 | any two strings are ordered one way or the other |
| Sorting.StrLeqTransitive | NetworkLoggerBackend/network_logger.py:102 | string `<=` is transitive |
| Sorting.StrLeqAntisymmetric | NetworkLoggerBackend/network_logger.py:102 | strings ordered both ways are equal |
| Sorting.InsertDesc | NetworkLoggerBackend/network_logger.py:102 | inserting adds exactly the one entry |
| Sorting.SortDesc | NetworkLoggerBackend/network_logger.py:102 | the sort is a permutation of its input |
| Sorting.InsertDescSorted | NetworkLoggerBackend/network_logger.py:102 | inserting into a newest-first list keeps it newest first |
| Sorting.SortDescSorted | NetworkLoggerBackend/network_logger.py:102 | the sorted list is newest first |
| Sorting.WithTimestampMembers | NetworkLoggerBackend/network_logger.py:102 | the entries selected for a timestamp are exactly the entries of the list that have it |
| Sorting.WithTimestampCons | NetworkLoggerBackend/network_logger.py:102 | selecting from a list with one more entry in front selects that entry first when it has the timestamp |
| Sorting.InsertBehindOther | NetworkLoggerBackend/network_logger.py:102 | inserting an entry of another timestamp behind a newer head leaves the selection for a timestamp unchanged |
| Sorting.InsertBehindSame | NetworkLoggerBackend/network_logger.py:102 | inserting an entry behind a newer head of another timestamp puts it first among the entries of its own timestamp |
| Sorting.InsertDescStable | NetworkLoggerBackend/network_logger.py:102 | insertion puts an entry ahead of the entries with an equal timestamp |
| Sorting.SortDescStable | NetworkLoggerBackend/network_logger.py:102 | entries with equal timestamps keep their input order |
| Sorting.SortDescUnique | NetworkLoggerBackend/network_logger.py:102 | any newest-first permutation that keeps the order of equal timestamps is the sort's result |
| Sorting.SortedSameKeysHead | NetworkLoggerBackend/network_logger.py:102 | two non-empty newest-first lists with the same entries per timestamp, in the same order, start with the same entry |
| Sorting.SortedSameKeysEqual | NetworkLoggerBackend/network_logger.py:102 | two newest-first lists with the same entries per timestamp, in the same order, are equal |
| Logger.LogsOf | NetworkLoggerBackend/network_logger.py:37 | `logs` defaults to the empty list; used by `Logger.NetworkLogger.HandleLogUpload`, whose contract states the upload in its terms |
| Logger.DeviceInfoOf | NetworkLoggerBackend/network_logger.py:38 | `deviceInfo` defaults to `{}`; used by `Logger.NetworkLogger.HandleLogUpload` |
| Logger.Stamp | NetworkLoggerBackend/network_logger.py:47-49 | sets exactly the three server fields; stated by `Logger.BuiltEntriesCarryServerFields` |
| Logger.BuildEntries | NetworkLoggerBackend/network_logger.py:43-50 | the batch builds exactly when every event can be constructed; otherwise the error names the first event that cannot; entry `i` is event `i`'s entry stamped with `clock(i)`, the caller's address and the device info |
| Logger.BuiltEntriesCarryServerFields | NetworkLoggerBackend/network_logger.py:46-49 | every built entry carries the caller's address, the batch's device info and its own receive time; restoring the three uploaded fields gives the constructed entry |
| Logger.StampAll | NetworkLoggerBackend/network_logger.py:43-50 | given each event's construction result, the batch succeeds exactly when every construction did; the error is the first failed one's, at its index; entry `i` is result `i` stamped with `clock(i)`, the address and the device info |
| Logger.StampAllStep | NetworkLoggerBackend/network_logger.py:44-50 | one more constructed event appends its stamped entry |
| Logger.StampAllFailsAt | NetworkLoggerBackend/network_logger.py:44-46 | the first event that could not be constructed fails the whole batch with its error |
| Logger.BuildBatch | NetworkLoggerBackend/network_logger.py:43-50 | the conversion loop, which stops at the first malformed event, gives exactly `BuildEntries` |
| Logger.Matches | NetworkLoggerBackend/network_logger.py:96 | the file-name test of the scans at lines 96, 131, 148, 164 and 193; stated by `Logger.UploadedPartitionIsQueried`, `Logger.SlashedUserIdIsNotFound`, `Logger.AddressQueryPicksLongerAddresses` and `Logger.UserQueryPicksLongerIds` |
| Logger.UploadedPartitionIsQueried | NetworkLoggerBackend/network_logger.py:96 | the partition an upload writes is picked by the address query for its address, and by the user query when the id has no `/` or `\` |
| Logger.SlashedUserIdIsNotFound | NetworkLoggerBackend/network_logger.py:193 | the user query for an id with `/` never picks that id's partition, because the name holds the sanitised id |
| Logger.AddressQueryPicksLongerAddresses | NetworkLoggerBackend/network_logger.py:96 | the address query also picks the files of every longer address with the same prefix |
| Logger.UserQueryPicksLongerIds | NetworkLoggerBackend/network_logger.py:193 | the user query for an id also picks the partitions of every plain id that extends it, so `u1` picks `u10` |
| Logger.Gather | NetworkLoggerBackend/network_logger.py:95-99 | the entries of the picked files in listing order; stated by `Logger.GatherMembership`, `Logger.GatherLength` and `Logger.GatherStep` |
| Logger.StoredCount | NetworkLoggerBackend/network_logger.py:181-186 | the summed lengths of the picked files; stated by `Logger.GatherLength` and `Logger.GatherStep` |
| Logger.GatherStep | NetworkLoggerBackend/network_logger.py:95-99 | scanning one more listed name appends that file's entries, and adds its length to the count, exactly when it is picked |
| Logger.GatherLength | NetworkLoggerBackend/network_logger.py:181-186 | the gathered entries number the sum of the picked files' lengths |
| Logger.GatherMembership | NetworkLoggerBackend/network_logger.py:95-99 | an entry is gathered exactly when a picked, listed file holds it |
| Logger.Cleared | NetworkLoggerBackend/network_logger.py:130-137 | clearing keeps the set of files |
| Logger.ClearedUpTo | NetworkLoggerBackend/network_logger.py:130-137 | a clear part-way through keeps the set of files |
| Logger.ClearedUpToStep | NetworkLoggerBackend/network_logger.py:130-137 | scanning one more name empties it exactly when it is picked |
| Logger.ClearedUpToUnscanned | NetworkLoggerBackend/network_logger.py:130-137 | a file not yet scanned still holds what it held |
| Logger.ClearedUpToAll | NetworkLoggerBackend/network_logger.py:130-137 | once every file has been scanned, the clear is complete |
| Logger.ClearedGathersNothing | NetworkLoggerBackend/network_logger.py:130-137 | after a clear, the same selection gathers nothing |
| Logger.ClearedTotalIsZero | NetworkLoggerBackend/network_logger.py:160-186 | right after clearing every file, the total count is 0 |
| Logger.ClearedKeepsOthers | NetworkLoggerBackend/network_logger.py:130-137 | a selection that picks none of the cleared files gathers what it gathered before |
| Logger.PrefixSlice | NetworkLoggerBackend/network_logger.py:104-105 | `s[:n]` is a prefix of `s`, of length `min(n, len)` for `n >= 0`, and `max(len + n, 0)` for negative `n` |
| Logger.LimitSet | NetworkLoggerBackend/network_logger.py:104 | `if limit:` is false for `None` and `0`; stated by `Logger.OrderedResult` |
| Logger.Ordered | NetworkLoggerBackend/network_logger.py:101-105 | sort newest first, then cut when the limit is truthy; stated by `Logger.OrderedResult` |
| Logger.OrderedResult | NetworkLoggerBackend/network_logger.py:101-107 | a query result is newest first and holds only found entries; without a set limit (`None` or `0`) it holds all of them; with a set limit it is a prefix of the sorted entries, so the oldest are dropped, and a positive limit gives `min(limit, found)` entries |
| Logger.SessionMatches | NetworkLoggerBackend/network_logger.py:216-219 | the session test of one entry; stated by `Logger.SessionMatchIsLoose` and `Logger.KeepSession` |
| Logger.KeepSession | NetworkLoggerBackend/network_logger.py:214-219 | an entry is kept exactly when it is in the input and its non-empty session context maps the field to a value whose `str()` is the given value |
| Logger.KeepSessionLast | NetworkLoggerBackend/network_logger.py:215-220 | filtering a list is filtering all but its last entry, then adding the last entry when it matches |
| Logger.AppendMatching | NetworkLoggerBackend/network_logger.py:215-220 | the per-file loop appends exactly the file's matching entries, in file order |
| Logger.KeepSessionAppend | NetworkLoggerBackend/network_logger.py:209-219 | filtering two lists one after the other is filtering their concatenation |
| Logger.KeepSessionStep | NetworkLoggerBackend/network_logger.py:214-219 | filtering one more entry appends it exactly when it matches |
| Logger.KeepSessionExtend | NetworkLoggerBackend/network_logger.py:214-219 | the filter grows by the next entry exactly when it matches |
| Logger.SessionMatchIsLoose | NetworkLoggerBackend/network_logger.py:214-219 | a stored int 5 matches the value "5", a stored null matches "None", and a missing field matches nothing |
| Logger.NetworkLogger.constructor | NetworkLoggerBackend/network_logger.py:19-26 | a logger over a well-formed directory, `max_logs` defaulting to 100 |
| Logger.NetworkLogger.HandleLogUpload | NetworkLoggerBackend/network_logger.py:33-85 | a batch with a malformed event fails with that event's error, the caller's address and the next clock reading, and writes nothing; otherwise the one partition named by address and user holds the retained list, and the result gives the batch size, the address-only count, the path, the user id and the final clock reading; that count is the retained length without a user, and unchanged with one |
| Logger.NetworkLogger.GetLogsIp | NetworkLoggerBackend/network_logger.py:89-107 | the entries of every listed `.json` file starting with the sanitised address, sorted newest first, cut to the limit when set |
| Logger.NetworkLogger.GetLogsUser | NetworkLoggerBackend/network_logger.py:188-204 | the entries of every listed `.json` file containing `_user_` and the raw id, sorted newest first, cut to the limit when set |
| Logger.NetworkLogger.GetLogsSessionContext | NetworkLoggerBackend/network_logger.py:206-227 | the session-matching entries of all listed `.json` files, sorted newest first, cut to the limit when set |
| Logger.NetworkLogger.GetTotalLogCount | NetworkLoggerBackend/network_logger.py:178-186 | the sum of the lengths of all `.json` files |
| Logger.NetworkLogger.ClearMatching | NetworkLoggerBackend/network_logger.py:125-175 | returns the total length the picked files held; afterwards exactly the picked files are empty; the listing is unchanged |
| Logger.NetworkLogger.ClearLogs | NetworkLoggerBackend/network_logger.py:109-175 | with both an address and a user, empties that one partition, creating it if needed, and returns its previous length; with only an address, only a user, or neither, clears what the address query, the raw-id user query or every `.json` file would read |

## Left out

- HTTP and Socket.IO transport, and the example server in `Example.py`: Example.py is not part of this model.
- JSON encoding and decoding of files and requests. A file is either a list of entries or `Corrupt`.
- Console logging and `enable_console_logging`, which have no effect on results.
- Asynchrony and concurrent callers. The model has one caller at a time and no per-partition locking.
- Creating the directory (`os.makedirs`). The directory is given as found.
- Write failures in `save_logs_to_file` (disk full, permission denied) and the failure response they cause.
- Write failures in `clear_logs`. It has no `try`, so a failed `open(..., 'w')` raises out of it after the files scanned before were already emptied; the model's writes always succeed.
- The order `os.listdir` returns, which Python leaves unspecified. The model fixes it as the `names` field, with a new file added at the end.
- Subdirectories and non-file entries in the log directory. Names are plain file names.
- Logger.NetworkLogger.HandleLogUpload: an address containing `/` is not sanitised (only `:` and `.` are), so the partition name is really a path. Python then writes outside the log directory when the address starts with `/` (and later queries do not list that file), or fails to open the file when the address has an inner `/` whose directory does not exist. The model treats the name as a plain file of the log directory: it reports success and lists the file. Callers pass the peer's IP address, which has no `/`.
- Logger.NetworkLogger.ClearLogs: with both an address and a user, the same applies to the single partition it truncates or creates: for an address starting with `/` Python writes outside the log directory, and for an inner `/` without that directory it raises; the model empties or creates a listed file of the log directory.
- An upload whose `logs` is null or not a list, an event that is not an object, and a `sessionContext` that is neither an object nor null. These cannot be represented here. Python accepts and stores some of them and fails on others: a `sessionContext` of `false`, `0`, `""`, `[]`, or a list or string without `userId` passes the user-id extraction and the dataclass, so the upload succeeds and stores it; `logs` given as `{}` or `""` loops over nothing and succeeds with `received: 0`; a null `logs` or a non-object event raises inside the `try` and gives a failure response. A stored list or string `sessionContext` that contains the queried field makes a later `get_logs_session_context` raise `TypeError` at the indexing of network_logger.py:219.
- `str()` of floats, lists and nested objects. These are `Other` values carrying their printed text.
- Negative `max_logs`. The cap is a natural number.
- The text of error messages. An error is the index of the failing event and its reason. For unknown keys Python's `TypeError` names only the first one; the model's `UnexpectedFields` carries the whole set.
- Decoding JSON object keys to keyword names. An uploaded object's keys are `Key` values: a field, or the text of a key that names no field (`Models.KeyOf` says which).
- Models.ConstructEntry: rejects a non-string `timestamp` (`TimestampNotText`). Python's dataclass stores any value there, and the later sort would then compare mixed types; the model keeps timestamps as text.
- Per-partition locks and atomic writes: the code has neither, and neither does the model.
