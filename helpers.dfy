/** Partition resolution and the partition store: which file a batch belongs
    to, and how one file is read and rewritten with bounded retention. The
    log directory is a `LogDirectory` object whose files map a file name to
    either a list of entries or an unreadable (corrupt) content. */
module Helpers {
  import opened Results
  import opened Text
  import opened Models

  /** The client address with `:` and `.` replaced by `_`: the same as
      `ip.replace(':', '_').replace('.', '_')` (`ReplaceEitherIsChained`). */
  function SafeIp(ip: string): (r: string)
    ensures |r| == |ip|
    ensures ':' !in r && '.' !in r
    ensures forall i :: 0 <= i < |ip| ==> r[i] == (if ip[i] == ':' || ip[i] == '.' then '_' else ip[i])
  {
    ReplaceEither(ip, ':', '.', '_')
  }

  /** The user id with `/` and `\` replaced by `_`, as
      `user.replace('/', '_').replace('\\', '_')` does. */
  function SafeUserId(user: string): (r: string)
    ensures |r| == |user|
    ensures '/' !in r && '\\' !in r
    ensures forall i :: 0 <= i < |user| ==> r[i] == (if user[i] == '/' || user[i] == '\\' then '_' else user[i])
  {
    ReplaceEither(user, '/', '\\', '_')
  }

  /** An id without `/` or `\` is left as it is. */
  lemma SafeUserIdKeepsPlainIds(user: string)
    requires '/' !in user && '\\' !in user
    ensures SafeUserId(user) == user
  {
  }

  /** Python truthiness of an optional string: present and non-empty. */
  predicate Truthy(s: Option<string>)
  {
    s.Some? && s.value != ""
  }

  /** The name of the partition file for an address and an optional user. */
  function ClientFileName(ip: string, user: Option<string>): string
  {
    if Truthy(user) then SafeIp(ip) + "_user_" + SafeUserId(user.value) + ".json"
    else SafeIp(ip) + ".json"
  }

  /** POSIX `os.path.join(dir, name)` (`posixpath.join`). */
  function JoinPath(dir: string, name: string): string
  {
    if StartsWith(name, "/") then name
    else if dir == [] || EndsWith(dir, "/") then dir + name
    else dir + "/" + name
  }

  /** `get_client_file_path`: the partition file's path inside the log directory. */
  function ClientFilePath(dir: string, ip: string, user: Option<string>): string
  {
    JoinPath(dir, ClientFileName(ip, user))
  }

  /** Every partition file of an address starts with the sanitised address
      and ends in `.json`. */
  lemma PartitionNameShape(ip: string, user: Option<string>)
    ensures StartsWith(ClientFileName(ip, user), SafeIp(ip))
    ensures EndsWith(ClientFileName(ip, user), ".json")
  {
    var safe := SafeIp(ip);
    var name := ClientFileName(ip, user);
    var middle := if Truthy(user) then "_user_" + SafeUserId(user.value) else "";
    assert name == safe + middle + ".json";
    assert name[..|safe|] == safe;
    assert name[|name| - 5..] == ".json";
  }

  /** A user partition is never the address-only partition of the same
      address, and its name holds `_user_` followed by the sanitised id. */
  lemma UserPartitionName(ip: string, user: Option<string>)
    requires Truthy(user)
    ensures ClientFileName(ip, user) != ClientFileName(ip, None)
    ensures Contains(ClientFileName(ip, user), "_user_" + SafeUserId(user.value))
  {
    var safe := SafeIp(ip);
    var middle := "_user_" + SafeUserId(user.value);
    assert ClientFileName(ip, user) == safe + middle + ".json";
    assert |ClientFileName(ip, user)| > |ClientFileName(ip, None)|;
    ContainsInfix(safe, middle, ".json");
  }

  /** The sanitised address used by the examples below. */
  lemma SafeIpExample()
    ensures SafeIp("5.6.7.8") == "5_6_7_8"
  {
    var ip := SafeIp("5.6.7.8");
    assert ip[1] == '_' && ip[3] == '_' && ip[5] == '_';
  }

  /** The sanitised user ids used by the examples below. */
  lemma SafeUserIdExamples()
    ensures SafeUserId("a/b") == "a_b"
    ensures SafeUserId("u9") == "u9"
  {
    var user := SafeUserId("a/b");
    assert user[1] == '_';
  }

  /** The file names of the examples below, spelled out. */
  lemma SpelledNames()
    ensures "5_6_7_8" + "_user_" + "u9" + ".json" == "5_6_7_8_user_u9.json"
    ensures "5_6_7_8" + "_user_" + "a_b" + ".json" == "5_6_7_8_user_a_b.json"
    ensures "5_6_7_8" + ".json" == "5_6_7_8.json"
    ensures "_user_" + "None" + ".json" == "_user_None.json"
  {
  }

  /** A batch from 5.6.7.8 whose user id is u9 goes to its own partition,
      next to the address-only one. */
  lemma UserPartitionExample()
    ensures ClientFileName("5.6.7.8", Some("u9")) == "5_6_7_8_user_u9.json"
    ensures ClientFileName("5.6.7.8", None) == "5_6_7_8.json"
    ensures ClientFileName("5.6.7.8", Some("")) == "5_6_7_8.json"
  {
    SafeIpExample();
    SafeUserIdExamples();
    SpelledNames();
    assert ClientFileName("5.6.7.8", Some("u9")) == "5_6_7_8" + "_user_" + "u9" + ".json";
    assert ClientFileName("5.6.7.8", None) == "5_6_7_8" + ".json";
  }

  /** The user id is sanitised inside the file name. */
  lemma UserIdSanitisedExample()
    ensures ClientFileName("5.6.7.8", Some("a/b")) == "5_6_7_8_user_a_b.json"
  {
    SafeIpExample();
    SafeUserIdExamples();
    SpelledNames();
    assert Truthy(Some("a/b"));
    assert ClientFileName("5.6.7.8", Some("a/b")) == "5_6_7_8" + "_user_" + "a_b" + ".json";
  }

  /** The file name is joined to the directory with exactly one separator. */
  lemma JoinPathExample(name: string)
    requires name != [] && name[0] != '/'
    ensures JoinPath("logs", name) == "logs/" + name
    ensures JoinPath("logs/", name) == "logs/" + name
  {
    assert "logs"[3..] != "/";
    assert "logs/"[4..] == "/";
  }

  /** Sanitising is not injective: an IPv4 address and a colon-separated
      string with the same digits share one partition file. */
  lemma SanitisedAddressesCollide()
    ensures ClientFileName("1.2.3.4", None) == ClientFileName("1:2:3:4", None)
  {
    assert SafeIp("1.2.3.4") == SafeIp("1:2:3:4");
  }

  /** The uploaded event names a user: it has a non-empty session context
      with a `userId` key. */
  predicate CarriesUserId(raw: RawEvent)
  {
    raw.sessionContext.Some? && raw.sessionContext.value != map[] && "userId" in raw.sessionContext.value
  }

  /** `extract_user_id_from_logs`: `str()` of the `userId` of the first event
      that carries one, or `None`. */
  function ExtractUserId(logs: seq<RawEvent>): (r: Option<string>)
    ensures r.None? <==> forall i :: 0 <= i < |logs| ==> !CarriesUserId(logs[i])
    ensures r.Some? ==> exists i :: 0 <= i < |logs| && CarriesUserId(logs[i])
                           && (forall j :: 0 <= j < i ==> !CarriesUserId(logs[j]))
                           && r.value == ToStr(logs[i].sessionContext.value["userId"])
  {
    if logs == [] then None
    else if CarriesUserId(logs[0]) then Some(ToStr(logs[0].sessionContext.value["userId"]))
    else
      var rest := ExtractUserId(logs[1..]);
      assert rest.Some? ==>
               exists i :: 1 <= i < |logs| && CarriesUserId(logs[i])
                           && (forall j :: 1 <= j < i ==> !CarriesUserId(logs[j]))
                           && rest.value == ToStr(logs[i].sessionContext.value["userId"]) by {
        if rest.Some? {
          var k :| 0 <= k < |logs[1..]| && CarriesUserId(logs[1..][k])
                   && (forall j :: 0 <= j < k ==> !CarriesUserId(logs[1..][j]))
                   && rest.value == ToStr(logs[1..][k].sessionContext.value["userId"]);
          assert forall j :: 1 <= j < k + 1 ==> !CarriesUserId(logs[j]) by {
            forall j | 1 <= j < k + 1 ensures !CarriesUserId(logs[j]) {
              assert logs[j] == logs[1..][j - 1];
            }
          }
        }
      }
      rest
  }

  /** The user id is decided by the first event that carries one: events
      appended after it do not change it, whatever user they name. */
  lemma {:induction false} ExtractUserIdIgnoresLater(a: seq<RawEvent>, b: seq<RawEvent>)
    requires exists i :: 0 <= i < |a| && CarriesUserId(a[i])
    ensures ExtractUserId(a + b) == ExtractUserId(a)
  {
    assert a != [];
    if !CarriesUserId(a[0]) {
      var i :| 0 <= i < |a| && CarriesUserId(a[i]);
      assert CarriesUserId(a[1..][i - 1]);
      assert (a + b)[1..] == a[1..] + b;
      ExtractUserIdIgnoresLater(a[1..], b);
    }
  }

  /** A null `userId` is stringified to "None", which is a truthy user id:
      the batch goes to a partition named after the user "None". */
  lemma NullUserIdIsNone(other: map<Key, Value>)
    requires WellKeyed(other)
    ensures ExtractUserId([RawObject(other, Some(map["userId" := Null]))]) == Some("None")
  {
    var raw: RawEvent := RawObject(other, Some(map["userId" := Null]));
    assert "userId" in raw.sessionContext.value;
    assert CarriesUserId(raw);
  }

  /** The partition of the user "None". */
  lemma NoneUserPartition(ip: string)
    ensures ClientFileName(ip, Some("None")) == SafeIp(ip) + "_user_None.json"
  {
    SafeUserIdKeepsPlainIds("None");
    SpelledNames();
    assert Truthy(Some("None"));
    var safe := SafeIp(ip);
    assert ClientFileName(ip, Some("None")) == safe + "_user_" + "None" + ".json";
    assert safe + "_user_" + "None" + ".json" == safe + ("_user_" + "None" + ".json");
  }

  /** What a partition file holds: a list of entries, newest first, or
      content that cannot be read back as a list of entries. */
  datatype FileState = Entries(entries: seq<Entry>) | Corrupt

  type Files = map<string, FileState>

  /** `load_logs_from_file`: never fails; a missing or corrupt file reads as
      the empty list. */
  function LoadLogs(files: Files, name: string): (r: seq<Entry>)
    ensures r != [] ==> name in files && files[name] == Entries(r)
    ensures name in files && files[name].Entries? ==> r == files[name].entries
  {
    if name in files && files[name].Entries? then files[name].entries else []
  }

  /** The list a save writes: the new entries ahead of the existing ones,
      cut to the first `maxLogs`. */
  function Retained(newLogs: seq<Entry>, existing: seq<Entry>, maxLogs: nat): (r: seq<Entry>)
    ensures |r| == if |newLogs| + |existing| <= maxLogs then |newLogs| + |existing| else maxLogs
    ensures r == (newLogs + existing)[..|r|]
  {
    var all := newLogs + existing;
    if |all| > maxLogs then all[..maxLogs] else all
  }

  /** Retention keeps the newest entries: new entries come first, in batch
      order; nothing is dropped while the total fits; an entry survives
      exactly when fewer than `maxLogs` entries precede it. */
  lemma RetentionOrder(newLogs: seq<Entry>, existing: seq<Entry>, maxLogs: nat)
    ensures var r := Retained(newLogs, existing, maxLogs);
      && (forall i :: 0 <= i < |newLogs| && i < maxLogs ==> r[i] == newLogs[i])
      && (forall j :: 0 <= j < |existing| && |newLogs| + j < maxLogs ==> r[|newLogs| + j] == existing[j])
      && (|newLogs| + |existing| <= maxLogs ==> r == newLogs + existing)
      && (|newLogs| >= maxLogs ==> r == newLogs[..maxLogs])
  {
  }

  /** With a retention cap of 2, three single-event saves keep the two
      newest: T3 then T2, and T1 is evicted. */
  lemma RetentionScenario(t1: Entry, t2: Entry, t3: Entry)
    ensures Retained([t1], [], 2) == [t1]
    ensures Retained([t2], [t1], 2) == [t2, t1]
    ensures Retained([t3], [t2, t1], 2) == [t3, t2]
  {
  }

  /** The on-disk log directory: its file names in listing order and what
      each file holds. */
  class LogDirectory {
    const path: string
    var names: seq<string>
    var files: Files

    /** The listing names every file exactly once. */
    ghost predicate Valid()
      reads this
    {
      && (forall i, j :: 0 <= i < j < |names| ==> names[i] != names[j])
      && (forall n :: n in files <==> n in names)
    }

    /** A directory as found on disk (`os.makedirs(..., exist_ok=True)`
        keeps what is already there). */
    constructor (path: string, names: seq<string>, files: Files)
      requires forall i, j :: 0 <= i < j < |names| ==> names[i] != names[j]
      requires forall n :: n in files <==> n in names
      ensures Valid()
      ensures this.path == path && this.names == names && this.files == files
    {
      this.path := path;
      this.names := names;
      this.files := files;
    }

    /** `open(path, 'w')` followed by `json.dump(entries)`: the file now
        holds exactly `entries`; a new file joins the end of the listing. */
    method Write(name: string, entries: seq<Entry>)
      requires Valid()
      modifies this
      ensures Valid()
      ensures files == old(files)[name := Entries(entries)]
      ensures names == if name in old(files) then old(names) else old(names) + [name]
    {
      if name !in files {
        names := names + [name];
      }
      files := files[name := Entries(entries)];
    }
  }

  /** `save_logs_to_file`: read the file, put the new entries in front, keep
      the first `maxLogs`, write it back. No other file changes. */
  method SaveLogsToFile(dir: LogDirectory, newLogs: seq<Entry>, name: string, maxLogs: nat)
    requires dir.Valid()
    modifies dir
    ensures dir.Valid()
    ensures dir.files == old(dir.files)[name := Entries(Retained(newLogs, LoadLogs(old(dir.files), name), maxLogs))]
    ensures dir.names == if name in old(dir.files) then old(dir.names) else old(dir.names) + [name]
  {
    var existing := LoadLogs(dir.files, name);
    var all := newLogs + existing;
    if |all| > maxLogs {
      all := all[..maxLogs];
    }
    dir.Write(name, all);
  }

  /** A save over a corrupt or missing file keeps only the new entries, up
      to the cap: the unreadable content is lost. */
  lemma SaveReplacesUnreadable(files: Files, name: string, newLogs: seq<Entry>, maxLogs: nat)
    requires name !in files || files[name] == Corrupt
    ensures Retained(newLogs, LoadLogs(files, name), maxLogs)
            == if |newLogs| <= maxLogs then newLogs else newLogs[..maxLogs]
  {
    assert newLogs + [] == newLogs;
  }

  /** `get_client_log_count`: the length of the address-only partition file;
      the address's user partitions are not counted. */
  function ClientLogCount(files: Files, ip: string): nat
  {
    |LoadLogs(files, ClientFileName(ip, None))|
  }

  /** Rewriting a user partition of an address leaves the address's count
      unchanged. */
  lemma ClientLogCountIgnoresUserFiles(files: Files, ip: string, user: Option<string>, state: FileState)
    requires Truthy(user)
    ensures ClientLogCount(files[ClientFileName(ip, user) := state], ip) == ClientLogCount(files, ip)
  {
    UserPartitionName(ip, user);
  }
}
