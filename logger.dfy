/** The `NetworkLogger` engine: ingestion of an uploaded batch into one
    partition file, the three queries (by address, by user, by session
    attribute), clearing, and the total count. Every query and clear scans
    the directory listing and selects files by name. */
module Logger {
  import opened Results
  import opened Text
  import opened Models
  import opened Helpers
  import opened Sorting

  /** The decoded JSON body of an upload; a key left out of the body is `None`. */
  datatype Request = Request(logs: Option<seq<RawEvent>>, deviceInfo: Option<Value>)

  /** The empty JSON object `{}`, the default device info. */
  const EmptyObject: Value := Other("{}")

  /** `request_data.get('logs', [])` */
  function LogsOf(request: Request): seq<RawEvent>
  {
    request.logs.GetOr([])
  }

  /** `request_data.get('deviceInfo', {})` */
  function DeviceInfoOf(request: Request): Value
  {
    request.deviceInfo.GetOr(EmptyObject)
  }

  /** Why an upload failed: the event at `index` could not become an entry. */
  datatype UploadError = MalformedEvent(index: nat, reason: Malformed)

  /** The dictionary `handle_log_upload` returns, for success and failure. */
  datatype UploadResult =
    | Uploaded(received: nat, totalStored: nat, savedTo: string, userId: Option<string>, timestamp: string)
    | UploadFailed(error: UploadError, clientIp: string, timestamp: string)

  /** An entry with its three server fields set: the time it was received,
      the caller's address and the batch's device info. */
  function Stamp(e: Entry, receivedAt: string, ip: string, device: Value): Entry
  {
    e.(serverReceivedAt := Str(receivedAt), clientIp := Str(ip), deviceInfo := device)
  }

  /** What constructing each event of a batch gives, in batch order. */
  function Constructed(logs: seq<RawEvent>): seq<Result<Entry, Malformed>>
  {
    seq(|logs|, i requires 0 <= i < |logs| => ConstructEntry(logs[i]))
  }

  /** The conversion of a batch given what constructing each event gave:
      the stamped entries, or the first construction error. `clock(i)` is
      the server time read for the `i`-th entry. */
  function StampAll(results: seq<Result<Entry, Malformed>>, ip: string, device: Value, clock: nat -> string)
    : (r: Result<seq<Entry>, UploadError>)
    ensures r.Ok? <==> forall i :: 0 <= i < |results| ==> results[i].Ok?
    ensures r.Err? ==> && r.error.index < |results|
                       && results[r.error.index] == Err(r.error.reason)
                       && forall i :: 0 <= i < r.error.index ==> results[i].Ok?
    ensures r.Ok? ==> && |r.value| == |results|
                      && forall i :: 0 <= i < |results| ==>
                           r.value[i] == Stamp(results[i].value, clock(i), ip, device)
  {
    if results == [] then Ok([])
    else
      var n := |results| - 1;
      var prefix := StampAll(results[..n], ip, device, clock);
      assert forall i :: 0 <= i < n ==> results[..n][i] == results[i];
      if prefix.Err? then prefix
      else
        match results[n]
        case Err(m) => Err(MalformedEvent(n, m))
        case Ok(e) => Ok(prefix.value + [Stamp(e, clock(n), ip, device)])
  }

  /** The entries an upload builds before it writes anything, or the first
      event that cannot be built. */
  function BuildEntries(logs: seq<RawEvent>, ip: string, device: Value, clock: nat -> string)
    : (r: Result<seq<Entry>, UploadError>)
    ensures r.Ok? <==> forall i :: 0 <= i < |logs| ==> ConstructEntry(logs[i]).Ok?
    ensures r.Err? ==> && r.error.index < |logs|
                       && ConstructEntry(logs[r.error.index]) == Err(r.error.reason)
                       && forall i :: 0 <= i < r.error.index ==> ConstructEntry(logs[i]).Ok?
    ensures r.Ok? ==> && |r.value| == |logs|
                      && forall i :: 0 <= i < |logs| ==>
                           r.value[i] == Stamp(ConstructEntry(logs[i]).value, clock(i), ip, device)
  {
    var results := Constructed(logs);
    assert forall i :: 0 <= i < |logs| ==> results[i] == ConstructEntry(logs[i]);
    StampAll(results, ip, device, clock)
  }

  /** Every entry of a built batch has the caller's address, the batch's
      device info and its own receive time; putting back the three fields as
      uploaded gives the entry the event was built into. */
  lemma BuiltEntriesCarryServerFields(logs: seq<RawEvent>, ip: string, device: Value, clock: nat -> string, i: nat)
    requires BuildEntries(logs, ip, device, clock).Ok? && i < |logs|
    ensures var e := BuildEntries(logs, ip, device, clock).value[i];
      && e.clientIp == Str(ip)
      && e.deviceInfo == device
      && e.serverReceivedAt == Str(clock(i))
      && e.sessionContext == logs[i].sessionContext
      && e.(serverReceivedAt := Get(logs[i].fields, ServerReceivedAt),
            clientIp := Get(logs[i].fields, ClientIp),
            deviceInfo := Get(logs[i].fields, DeviceInfo)) == ConstructEntry(logs[i]).value
  {
    var built := ConstructEntry(logs[i]).value;
    assert built.serverReceivedAt == FieldValue(built, ServerReceivedAt);
    assert built.clientIp == FieldValue(built, ClientIp);
    assert built.deviceInfo == FieldValue(built, DeviceInfo);
  }

  /** One more event that was constructed extends the stamped batch by its
      stamped entry. */
  lemma StampAllStep(results: seq<Result<Entry, Malformed>>, i: nat, ip: string, device: Value, clock: nat -> string)
    requires i < |results| && StampAll(results[..i], ip, device, clock).Ok? && results[i].Ok?
    ensures StampAll(results[..i + 1], ip, device, clock)
            == Ok(StampAll(results[..i], ip, device, clock).value + [Stamp(results[i].value, clock(i), ip, device)])
  {
    assert results[..i + 1][..i] == results[..i];
  }

  /** The first event that could not be constructed fails the whole batch. */
  lemma StampAllFailsAt(results: seq<Result<Entry, Malformed>>, i: nat, ip: string, device: Value, clock: nat -> string)
    requires i < |results| && StampAll(results[..i], ip, device, clock).Ok? && results[i].Err?
    ensures StampAll(results, ip, device, clock) == Err(MalformedEvent(i, results[i].error))
  {
    assert forall j :: 0 <= j < i ==> results[..i][j] == results[j];
  }

  /** The conversion loop of an upload: each event becomes an entry, which
      then gets the server fields. The first event that cannot be
      constructed stops the loop with its error. */
  method BuildBatch(logs: seq<RawEvent>, clientIp: string, device: Value, clock: nat -> string)
    returns (r: Result<seq<Entry>, UploadError>)
    ensures r == BuildEntries(logs, clientIp, device, clock)
  {
    ghost var results := Constructed(logs);
    var newLogs: seq<Entry> := [];
    var i := 0;
    while i < |logs|
      invariant 0 <= i <= |logs|
      invariant StampAll(results[..i], clientIp, device, clock) == Ok(newLogs)
    {
      var constructed := ConstructEntry(logs[i]);
      assert results[i] == constructed;
      if constructed.Err? {
        StampAllFailsAt(results, i, clientIp, device, clock);
        return Err(MalformedEvent(i, constructed.error));
      }
      var log := constructed.value;
      log := log.(serverReceivedAt := Str(clock(i)));
      log := log.(clientIp := Str(clientIp));
      log := log.(deviceInfo := device);
      assert log == Stamp(constructed.value, clock(i), clientIp, device);
      StampAllStep(results, i, clientIp, device, clock);
      newLogs := newLogs + [log];
      i := i + 1;
    }
    assert results[..|logs|] == results;
    return Ok(newLogs);
  }

  // ---------------------------------------------------------------------
  // File selection, shared by the queries and by clearing.

  /** Which files a scan of the directory picks. */
  datatype Selector =
    | ByAddress(safeIp: string)   // name starts with the sanitised address
    | ByUser(userId: string)      // name contains `_user_` and the raw user id
    | AllJson                     // every file

  /** A file is picked when its name ends in `.json` and passes the
      selector's test. */
  predicate Matches(sel: Selector, name: string)
  {
    EndsWith(name, ".json") &&
    match sel
    case ByAddress(safeIp) => StartsWith(name, safeIp)
    case ByUser(userId) => Contains(name, "_user_" + userId)
    case AllJson => true
  }

  /** Every partition an upload writes is read back by the address query of
      its address, and by the user query of its user when the id has no
      path separator. */
  lemma UploadedPartitionIsQueried(ip: string, user: Option<string>)
    ensures Matches(ByAddress(SafeIp(ip)), ClientFileName(ip, user))
    ensures Truthy(user) && '/' !in user.value && '\\' !in user.value ==>
              Matches(ByUser(user.value), ClientFileName(ip, user))
  {
    PartitionNameShape(ip, user);
    if Truthy(user) && '/' !in user.value && '\\' !in user.value {
      SafeUserIdKeepsPlainIds(user.value);
      UserPartitionName(ip, user);
    }
  }

  /** The user query looks for the id as given while the file name holds the
      sanitised id: a batch whose user id holds `/` is stored under a name
      the user query for that id never picks. */
  lemma SlashedUserIdIsNotFound(ip: string, user: string)
    requires '/' in user && '/' !in ip
    ensures !Matches(ByUser(user), ClientFileName(ip, Some(user)))
  {
    var name := ClientFileName(ip, Some(user));
    assert name == SafeIp(ip) + "_user_" + SafeUserId(user) + ".json";
    assert '/' !in name;
    if Contains(name, "_user_" + user) {
      assert '/' in "_user_" + user;
      ContainsKeepsChars(name, "_user_" + user, '/');
    }
  }

  /** The address query tests a prefix, so the query for an address also
      picks the files of every longer address that starts with it (the
      query for 1.2.3.4 reads the partition of 1.2.3.45). */
  lemma AddressQueryPicksLongerAddresses(ip: string, more: string)
    ensures Matches(ByAddress(SafeIp(ip)), ClientFileName(ip + more, None))
  {
    var name := ClientFileName(ip + more, None);
    PartitionNameShape(ip + more, None);
    assert name == SafeIp(ip + more) + ".json";
    assert name[..|ip|] == SafeIp(ip);
  }

  /** The user query tests a substring, so the query for a user id also
      picks the partitions of every id that extends it: the query for `u1`
      picks the partitions of `u10`. */
  lemma UserQueryPicksLongerIds(ip: string, user: string, more: string)
    requires user + more != [] && '/' !in user + more && '\\' !in user + more
    ensures Matches(ByUser(user), ClientFileName(ip, Some(user + more)))
  {
    var safe := SafeIp(ip);
    SafeUserIdKeepsPlainIds(user + more);
    var name := ClientFileName(ip, Some(user + more));
    assert name == safe + ("_user_" + user) + (more + ".json");
    ContainsInfix(safe, "_user_" + user, more + ".json");
    PartitionNameShape(ip, Some(user + more));
  }

  /** The entries of the picked files, file after file in listing order,
      each file's entries in stored order. */
  function Gather(files: Files, names: seq<string>, sel: Selector): seq<Entry>
    decreases |names|
  {
    if names == [] then []
    else
      var last := names[|names| - 1];
      Gather(files, names[..|names| - 1], sel) + (if Matches(sel, last) then LoadLogs(files, last) else [])
  }

  /** The sum of the lengths of the picked files. */
  function StoredCount(files: Files, names: seq<string>, sel: Selector): nat
    decreases |names|
  {
    if names == [] then 0
    else
      var last := names[|names| - 1];
      StoredCount(files, names[..|names| - 1], sel) + (if Matches(sel, last) then |LoadLogs(files, last)| else 0)
  }

  /** Scanning one more name of the listing appends that file's entries
      when it is picked. */
  lemma GatherStep(files: Files, names: seq<string>, i: nat, sel: Selector)
    requires i < |names|
    ensures Gather(files, names[..i + 1], sel)
            == Gather(files, names[..i], sel) + (if Matches(sel, names[i]) then LoadLogs(files, names[i]) else [])
    ensures StoredCount(files, names[..i + 1], sel)
            == StoredCount(files, names[..i], sel) + (if Matches(sel, names[i]) then |LoadLogs(files, names[i])| else 0)
  {
    assert names[..i + 1][..i] == names[..i];
  }

  /** The gathered entries number exactly the sum of the picked files' lengths. */
  lemma {:induction false} GatherLength(files: Files, names: seq<string>, sel: Selector)
    ensures |Gather(files, names, sel)| == StoredCount(files, names, sel)
    decreases |names|
  {
    if names != [] {
      GatherLength(files, names[..|names| - 1], sel);
    }
  }

  /** An entry is gathered exactly when some picked file of the listing
      holds it. */
  lemma {:induction false} GatherMembership(files: Files, names: seq<string>, sel: Selector, x: Entry)
    ensures x in Gather(files, names, sel) <==>
              exists n :: n in names && Matches(sel, n) && x in LoadLogs(files, n)
    decreases |names|
  {
    if names != [] {
      var front, last := names[..|names| - 1], names[|names| - 1];
      GatherMembership(files, front, sel, x);
      assert names == front + [last];
      if n :| n in names && Matches(sel, n) && x in LoadLogs(files, n) {
        if n != last {
          assert n in front;
        }
      }
    }
  }

  /** The state of the directory after the picked files are overwritten
      with `[]`: the picked files are empty, the others unchanged. */
  function Cleared(files: Files, sel: Selector): (r: Files)
    ensures r.Keys == files.Keys
  {
    map n | n in files :: if Matches(sel, n) then Entries([]) else files[n]
  }

  /** The directory part-way through a clear: the picked files among the
      names scanned so far are empty, every other file is unchanged. */
  function ClearedUpTo(files: Files, scanned: seq<string>, sel: Selector): (r: Files)
    ensures r.Keys == files.Keys
  {
    map n | n in files :: if n in scanned && Matches(sel, n) then Entries([]) else files[n]
  }

  /** Scanning one more name empties that file when it is picked. */
  lemma ClearedUpToStep(files: Files, names: seq<string>, i: nat, sel: Selector)
    requires i < |names| && names[i] in files
    ensures ClearedUpTo(files, names[..i + 1], sel)
            == if Matches(sel, names[i]) then ClearedUpTo(files, names[..i], sel)[names[i] := Entries([])]
               else ClearedUpTo(files, names[..i], sel)
  {
    assert names[..i + 1] == names[..i] + [names[i]];
  }

  /** A file not yet scanned still holds what it held before the clear. */
  lemma ClearedUpToUnscanned(files: Files, scanned: seq<string>, sel: Selector, name: string)
    requires name !in scanned
    ensures LoadLogs(ClearedUpTo(files, scanned, sel), name) == LoadLogs(files, name)
  {
  }

  /** Once every file of the directory has been scanned, the clear is done. */
  lemma ClearedUpToAll(files: Files, names: seq<string>, sel: Selector)
    requires forall n :: n in files ==> n in names
    ensures ClearedUpTo(files, names, sel) == Cleared(files, sel)
  {
  }

  /** After a clear, the same selection gathers nothing. */
  lemma {:induction false} ClearedGathersNothing(files: Files, names: seq<string>, sel: Selector)
    ensures Gather(Cleared(files, sel), names, sel) == []
    decreases |names|
  {
    if names != [] {
      ClearedGathersNothing(files, names[..|names| - 1], sel);
    }
  }

  /** Right after clearing every file, the total count is 0. */
  lemma ClearedTotalIsZero(files: Files, names: seq<string>)
    ensures StoredCount(Cleared(files, AllJson), names, AllJson) == 0
  {
    ClearedGathersNothing(files, names, AllJson);
    GatherLength(Cleared(files, AllJson), names, AllJson);
  }

  /** Clearing leaves the entries of every file it does not pick, so a
      selection that picks none of the cleared files gathers what it did
      before. */
  lemma {:induction false} ClearedKeepsOthers(files: Files, names: seq<string>, sel: Selector, other: Selector)
    requires forall n :: n in names && Matches(other, n) ==> !Matches(sel, n)
    ensures Gather(Cleared(files, sel), names, other) == Gather(files, names, other)
    decreases |names|
  {
    if names != [] {
      ClearedKeepsOthers(files, names[..|names| - 1], sel, other);
    }
  }

  // ---------------------------------------------------------------------
  // Result ordering and the limit.

  /** `if limit:` */
  predicate LimitSet(limit: Option<int>)
  {
    limit.Some? && limit.value != 0
  }

  /** `s[:n]` with Python's slice bounds: a negative `n` drops `-n` entries
      from the end. */
  function PrefixSlice(s: seq<Entry>, n: int): (r: seq<Entry>)
    ensures |r| <= |s| && r == s[..|r|]
    ensures n >= 0 ==> |r| == if n < |s| then n else |s|
    ensures n < 0 ==> |r| == if |s| + n > 0 then |s| + n else 0
  {
    if n >= 0 then (if n < |s| then s[..n] else s)
    else (if |s| + n > 0 then s[..|s| + n] else [])
  }

  /** Every query's last steps: sort newest first, then cut to `limit`
      only when the limit is set. */
  function Ordered(found: seq<Entry>, limit: Option<int>): seq<Entry>
  {
    var sorted := SortDesc(found);
    if LimitSet(limit) then PrefixSlice(sorted, limit.value) else sorted
  }

  /** A query result is newest first, holds only entries that were found,
      and holds all of them when no limit is set (`None` or `0`); with a
      positive limit it holds the first `limit` of the sorted entries. */
  lemma OrderedResult(found: seq<Entry>, limit: Option<int>)
    ensures var r := Ordered(found, limit);
      && SortedDesc(r)
      && multiset(r) <= multiset(found)
      && (!LimitSet(limit) ==> r == SortDesc(found) && multiset(r) == multiset(found))
      && (LimitSet(limit) ==> r == SortDesc(found)[..|r|])
      && (LimitSet(limit) && limit.value > 0 ==>
            |r| == (if limit.value < |found| then limit.value else |found|))
  {
    var sorted := SortDesc(found);
    SortDescSorted(found);
    var r := Ordered(found, limit);
    assert r == sorted[..|r|];
    assert sorted == r + sorted[|r|..];
    assert multiset(sorted) == multiset(r) + multiset(sorted[|r|..]);
  }

  // ---------------------------------------------------------------------
  // Session-context matching.

  /** The entry's non-empty session context has `field`, and the value's
      `str()` equals `value`. */
  predicate SessionMatches(e: Entry, field: string, value: string)
  {
    e.sessionContext.Some? && e.sessionContext.value != map[]
    && field in e.sessionContext.value && ToStr(e.sessionContext.value[field]) == value
  }

  /** The entries of `s` that match the session attribute, in order. */
  function KeepSession(s: seq<Entry>, field: string, value: string): (r: seq<Entry>)
    ensures forall x :: x in r <==> x in s && SessionMatches(x, field, value)
    decreases |s|
  {
    if s == [] then []
    else
      var last := s[|s| - 1];
      assert s == s[..|s| - 1] + [last];
      KeepSession(s[..|s| - 1], field, value) + (if SessionMatches(last, field, value) then [last] else [])
  }

  lemma KeepSessionStep(s: seq<Entry>, j: nat, field: string, value: string)
    requires j < |s|
    ensures KeepSession(s[..j + 1], field, value)
            == KeepSession(s[..j], field, value) + (if SessionMatches(s[j], field, value) then [s[j]] else [])
  {
    assert s[..j + 1][..j] == s[..j];
  }

  /** The filter over a prefix of `s`, after some entries already kept,
      grows by the next entry exactly when it matches. */
  lemma KeepSessionExtend(kept: seq<Entry>, s: seq<Entry>, j: nat, field: string, value: string)
    requires j < |s|
    ensures kept + KeepSession(s[..j + 1], field, value)
            == (kept + KeepSession(s[..j], field, value))
               + (if SessionMatches(s[j], field, value) then [s[j]] else [])
  {
    KeepSessionStep(s, j, field, value);
  }

  /** Filtering a non-empty list is filtering all but its last entry, then
      the last entry when it matches. */
  lemma KeepSessionLast(s: seq<Entry>, field: string, value: string)
    requires s != []
    ensures KeepSession(s, field, value)
            == KeepSession(s[..|s| - 1], field, value)
               + (if SessionMatches(s[|s| - 1], field, value) then [s[|s| - 1]] else [])
  {
  }

  lemma {:induction false} KeepSessionAppend(a: seq<Entry>, b: seq<Entry>, field: string, value: string)
    ensures KeepSession(a + b, field, value) == KeepSession(a, field, value) + KeepSession(b, field, value)
    decreases |b|
  {
    if b == [] {
      assert a + b == a;
    } else {
      var front := b[..|b| - 1];
      KeepSessionAppend(a, front, field, value);
      var ab := a + b;
      assert ab[..|ab| - 1] == a + front && ab[|ab| - 1] == b[|b| - 1];
      KeepSessionLast(ab, field, value);
      KeepSessionLast(b, field, value);
    }
  }

  /** The inner loop of `get_logs_session_context`: appends to `kept` the
      entries of one file that match, in file order. */
  method AppendMatching(kept: seq<Entry>, fileLogs: seq<Entry>, field: string, value: string)
    returns (r: seq<Entry>)
    ensures r == kept + KeepSession(fileLogs, field, value)
  {
    r := kept;
    var j := 0;
    assert fileLogs[..j] == [];
    while j < |fileLogs|
      invariant 0 <= j <= |fileLogs|
      invariant r == kept + KeepSession(fileLogs[..j], field, value)
    {
      var log := fileLogs[j];
      KeepSessionExtend(kept, fileLogs, j, field, value);
      if SessionMatches(log, field, value) {
        r := r + [log];
      }
      j := j + 1;
    }
    assert fileLogs[..j] == fileLogs;
  }

  /** Matching compares strings: the string "5" matches a stored int 5, and
      the string "None" matches a stored null. */
  lemma SessionMatchIsLoose(e: Entry)
    requires e.sessionContext == Some(map["plan" := Int(5), "userId" := Null])
    ensures SessionMatches(e, "plan", "5")
    ensures SessionMatches(e, "userId", "None")
    ensures !SessionMatches(e, "tier", "5")
  {
    var context := e.sessionContext.value;
    assert "plan" in context && "userId" in context;
    StrIsLoose();
  }

  // ---------------------------------------------------------------------
  // The engine.

  class NetworkLogger {
    const directory: LogDirectory
    const maxLogs: nat

    ghost predicate Valid()
      reads this, directory
    {
      directory.Valid()
    }

    constructor (directory: LogDirectory, maxLogs: nat := 100)
      requires directory.Valid()
      ensures Valid()
      ensures this.directory == directory && this.maxLogs == maxLogs
    {
      this.directory := directory;
      this.maxLogs := maxLogs;
    }

    /** `handle_log_upload`: build every entry, then write the whole batch to
        the one partition chosen by the caller's address and the batch's user
        id. A malformed event fails the upload before anything is written.
        `clock(k)` is the server time at the `k`-th reading of this call. */
    method HandleLogUpload(request: Request, clientIp: string, clock: nat -> string) returns (r: UploadResult)
      requires Valid()
      modifies directory
      ensures Valid()
      ensures var logs := LogsOf(request);
              var user := ExtractUserId(logs);
              var built := BuildEntries(logs, clientIp, DeviceInfoOf(request), clock);
              var name := ClientFileName(clientIp, user);
              if built.Err? then
                && r == UploadFailed(built.error, clientIp, clock(built.error.index))
                && directory.files == old(directory.files)
                && directory.names == old(directory.names)
              else
                && directory.files == old(directory.files)[name :=
                     Entries(Retained(built.value, LoadLogs(old(directory.files), name), maxLogs))]
                && directory.names == (if name in old(directory.files) then old(directory.names)
                                       else old(directory.names) + [name])
                && r == Uploaded(|logs|, ClientLogCount(directory.files, clientIp),
                                 ClientFilePath(directory.path, clientIp, user), user, clock(|logs|))
                // the reported total is that of the address-only partition:
                // the retained batch without a user, the untouched count with one
                && r.totalStored == if Truthy(user) then ClientLogCount(old(directory.files), clientIp)
                                    else |Retained(built.value, LoadLogs(old(directory.files), name), maxLogs)|
    {
      var logs := LogsOf(request);
      var device := DeviceInfoOf(request);
      var user := ExtractUserId(logs);

      var built := BuildBatch(logs, clientIp, device, clock);
      if built.Err? {
        return UploadFailed(built.error, clientIp, clock(built.error.index));
      }
      var newLogs := built.value;

      var clientFile := ClientFileName(clientIp, user);
      ghost var before := directory.files;
      SaveLogsToFile(directory, newLogs, clientFile, maxLogs);
      if Truthy(user) {
        ClientLogCountIgnoresUserFiles(before, clientIp, user, directory.files[clientFile]);
      }
      var totalStored := ClientLogCount(directory.files, clientIp);
      r := Uploaded(|newLogs|, totalStored, ClientFilePath(directory.path, clientIp, user), user, clock(|logs|));
    }

    /** `get_logs_ip`: the entries of every `.json` file whose name starts
        with the sanitised address, newest first, cut to `limit` if set. */
    method GetLogsIp(clientIp: string, limit: Option<int>) returns (logs: seq<Entry>)
      ensures logs == Ordered(Gather(directory.files, directory.names, ByAddress(SafeIp(clientIp))), limit)
    {
      var safeIp := SafeIp(clientIp);
      var allLogs: seq<Entry> := [];
      var i := 0;
      while i < |directory.names|
        invariant 0 <= i <= |directory.names|
        invariant allLogs == Gather(directory.files, directory.names[..i], ByAddress(safeIp))
      {
        var filename := directory.names[i];
        GatherStep(directory.files, directory.names, i, ByAddress(safeIp));
        if EndsWith(filename, ".json") && StartsWith(filename, safeIp) {
          allLogs := allLogs + LoadLogs(directory.files, filename);
        }
        i := i + 1;
      }
      assert directory.names[..i] == directory.names;
      allLogs := SortDesc(allLogs);
      if LimitSet(limit) {
        allLogs := PrefixSlice(allLogs, limit.value);
      }
      logs := allLogs;
    }

    /** `get_logs_user`: the entries of every `.json` file whose name
        contains `_user_` followed by the user id as given, newest first. */
    method GetLogsUser(userId: string, limit: Option<int>) returns (logs: seq<Entry>)
      ensures logs == Ordered(Gather(directory.files, directory.names, ByUser(userId)), limit)
    {
      var userLogs: seq<Entry> := [];
      var i := 0;
      while i < |directory.names|
        invariant 0 <= i <= |directory.names|
        invariant userLogs == Gather(directory.files, directory.names[..i], ByUser(userId))
      {
        var filename := directory.names[i];
        GatherStep(directory.files, directory.names, i, ByUser(userId));
        if EndsWith(filename, ".json") && Contains(filename, "_user_" + userId) {
          userLogs := userLogs + LoadLogs(directory.files, filename);
        }
        i := i + 1;
      }
      assert directory.names[..i] == directory.names;
      userLogs := SortDesc(userLogs);
      if LimitSet(limit) {
        userLogs := PrefixSlice(userLogs, limit.value);
      }
      logs := userLogs;
    }

    /** `get_logs_session_context`: the entries of all `.json` files whose
        session context has `field` with a value that prints as `value`,
        newest first. */
    method GetLogsSessionContext(field: string, value: string, limit: Option<int>) returns (logs: seq<Entry>)
      ensures logs == Ordered(KeepSession(Gather(directory.files, directory.names, AllJson), field, value), limit)
    {
      var files, names := directory.files, directory.names;
      var matching: seq<Entry> := [];
      var i := 0;
      while i < |names|
        invariant 0 <= i <= |names|
        invariant matching == KeepSession(Gather(files, names[..i], AllJson), field, value)
      {
        var filename := names[i];
        ghost var before := Gather(files, names[..i], AllJson);
        GatherStep(files, names, i, AllJson);
        if EndsWith(filename, ".json") {
          var fileLogs := LoadLogs(files, filename);
          KeepSessionAppend(before, fileLogs, field, value);
          matching := AppendMatching(matching, fileLogs, field, value);
          assert Gather(files, names[..i + 1], AllJson) == before + fileLogs;
        } else {
          assert Gather(files, names[..i + 1], AllJson) == before;
        }
        i := i + 1;
      }
      assert names[..i] == names;
      matching := SortDesc(matching);
      if LimitSet(limit) {
        matching := PrefixSlice(matching, limit.value);
      }
      logs := matching;
    }

    /** `get_total_log_count`: the sum of the lengths of all `.json` files. */
    method GetTotalLogCount() returns (total: nat)
      ensures total == StoredCount(directory.files, directory.names, AllJson)
    {
      total := 0;
      var i := 0;
      while i < |directory.names|
        invariant 0 <= i <= |directory.names|
        invariant total == StoredCount(directory.files, directory.names[..i], AllJson)
      {
        var filename := directory.names[i];
        GatherStep(directory.files, directory.names, i, AllJson);
        if EndsWith(filename, ".json") {
          total := total + |LoadLogs(directory.files, filename)|;
        }
        i := i + 1;
      }
      assert directory.names[..i] == directory.names;
    }

    /** Overwrites every picked file with `[]` and returns how many entries
        they held before; the other files are left as they were. */
    method ClearMatching(sel: Selector) returns (count: nat)
      requires Valid()
      modifies directory
      ensures Valid()
      ensures count == StoredCount(old(directory.files), old(directory.names), sel)
      ensures directory.files == Cleared(old(directory.files), sel)
      ensures directory.names == old(directory.names)
    {
      count := 0;
      var i := 0;
      while i < |directory.names|
        invariant 0 <= i <= |directory.names|
        invariant directory.Valid()
        invariant directory.names == old(directory.names)
        invariant directory.files == ClearedUpTo(old(directory.files), directory.names[..i], sel)
        invariant count == StoredCount(old(directory.files), directory.names[..i], sel)
      {
        var filename := directory.names[i];
        GatherStep(old(directory.files), directory.names, i, sel);
        ClearedUpToStep(old(directory.files), directory.names, i, sel);
        if Matches(sel, filename) {
          assert filename !in directory.names[..i];
          ClearedUpToUnscanned(old(directory.files), directory.names[..i], sel, filename);
          var logs := LoadLogs(directory.files, filename);
          count := count + |logs|;
          directory.Write(filename, []);
        }
        i := i + 1;
      }
      assert directory.names[..i] == directory.names;
      ClearedUpToAll(old(directory.files), directory.names, sel);
    }

    /** `clear_logs`: with both an address and a user, clear that one
        partition (creating it empty if it did not exist); with only one of
        them, clear every file its query would read; with neither, clear
        every `.json` file. Returns the number of entries removed. */
    method ClearLogs(clientIp: Option<string>, userId: Option<string>) returns (count: nat)
      requires Valid()
      modifies directory
      ensures Valid()
      ensures Truthy(clientIp) && Truthy(userId) ==>
                var name := ClientFileName(clientIp.value, userId);
                && count == |LoadLogs(old(directory.files), name)|
                && directory.files == old(directory.files)[name := Entries([])]
                && directory.names == (if name in old(directory.files) then old(directory.names)
                                       else old(directory.names) + [name])
      ensures !(Truthy(clientIp) && Truthy(userId)) ==>
                var sel := if Truthy(clientIp) then ByAddress(SafeIp(clientIp.value))
                           else if Truthy(userId) then ByUser(userId.value)
                           else AllJson;
                && count == StoredCount(old(directory.files), old(directory.names), sel)
                && directory.files == Cleared(old(directory.files), sel)
                && directory.names == old(directory.names)
    {
      if Truthy(clientIp) && Truthy(userId) {
        var clientFile := ClientFileName(clientIp.value, userId);
        var logs := LoadLogs(directory.files, clientFile);
        count := |logs|;
        directory.Write(clientFile, []);
      } else if Truthy(clientIp) {
        count := ClearMatching(ByAddress(SafeIp(clientIp.value)));
      } else if Truthy(userId) {
        count := ClearMatching(ByUser(userId.value));
      } else {
        count := ClearMatching(AllJson);
      }
    }
  }
}
