/** The network log entry record (`NetworkLogEntry`) and its construction
    from an uploaded JSON object, which is keyword-argument construction of a
    dataclass: unknown keys and missing required keys are errors, every other
    field defaults to `None`. */
module Models {
  import opened Results

  /** A JSON value as the logger sees it. `Other` stands for a value the
      logger only stores and stringifies (a float, a list, a nested object);
      it carries the text Python's `str()` gives for it. */
  datatype Value = Null | Bool(b: bool) | Int(i: int) | Str(s: string) | Other(text: string)

  /** A JSON object whose values the logger looks at one level deep
      (`sessionContext`). */
  type Dict = map<string, Value>

  /** The decimal digits of `n`, as `str()` prints a non-negative int. */
  function Digits(n: nat): (r: string)
    ensures |r| >= 1
    ensures forall i :: 0 <= i < |r| ==> '0' <= r[i] <= '9'
  {
    if n < 10 then [Digit(n)] else Digits(n / 10) + [Digit(n % 10)]
  }

  function Digit(d: nat): char
    requires d < 10
  {
    "0123456789"[d]
  }

  /** Python's `str()` of a JSON value: `None`, `True` and `False` are
      spelled out, an int in decimal with a leading `-` when negative, a
      string is itself. */
  function ToStr(v: Value): string
  {
    match v
    case Null => "None"
    case Bool(b) => if b then "True" else "False"
    case Int(i) => if i < 0 then "-" + Digits(-i) else Digits(i)
    case Str(s) => s
    case Other(text) => text
  }

  /** The stringification is loose: the int 5 and the string "5" print the
      same, and so do JSON null and the string "None". */
  lemma StrIsLoose()
    ensures ToStr(Int(5)) == ToStr(Str("5"))
    ensures ToStr(Null) == ToStr(Str("None"))
    ensures ToStr(Int(-12)) == "-12"
  {
    assert Digits(12) == Digits(1) + [Digit(2)];
  }

  /** The fields of the dataclass. */
  datatype Field =
    | Timestamp | EventType | NetworkType | IsConnected | IsInternetReachable
    | ServerConnected | AdditionalInfo | IpAddress | Subnet | PreviousSubnet
    | Ssid | Bssid | CellularGeneration | Details | SessionContext
    | ServerReceivedAt | ClientIp | DeviceInfo

  /** The JSON name of each field, the keyword the dataclass accepts. */
  function JsonName(f: Field): string
  {
    match f
    case Timestamp => "timestamp"
    case EventType => "eventType"
    case NetworkType => "networkType"
    case IsConnected => "isConnected"
    case IsInternetReachable => "isInternetReachable"
    case ServerConnected => "serverConnected"
    case AdditionalInfo => "additionalInfo"
    case IpAddress => "ipAddress"
    case Subnet => "subnet"
    case PreviousSubnet => "previousSubnet"
    case Ssid => "ssid"
    case Bssid => "bssid"
    case CellularGeneration => "cellularGeneration"
    case Details => "details"
    case SessionContext => "sessionContext"
    case ServerReceivedAt => "server_received_at"
    case ClientIp => "client_ip"
    case DeviceInfo => "device_info"
  }

  /** A key of an uploaded object: the name of a field, or any other text. */
  datatype Key = Known(field: Field) | Unknown(name: string)

  /** How a JSON key is matched against the keyword parameters: by its exact
      spelling. */
  function KeyOf(name: string): (r: Key)
    ensures r.Known? ==> JsonName(r.field) == name
    ensures r.Unknown? ==> r.name == name && forall f :: JsonName(f) != name
  {
    match name
    case "timestamp" => Known(Timestamp)
    case "eventType" => Known(EventType)
    case "networkType" => Known(NetworkType)
    case "isConnected" => Known(IsConnected)
    case "isInternetReachable" => Known(IsInternetReachable)
    case "serverConnected" => Known(ServerConnected)
    case "additionalInfo" => Known(AdditionalInfo)
    case "ipAddress" => Known(IpAddress)
    case "subnet" => Known(Subnet)
    case "previousSubnet" => Known(PreviousSubnet)
    case "ssid" => Known(Ssid)
    case "bssid" => Known(Bssid)
    case "cellularGeneration" => Known(CellularGeneration)
    case "details" => Known(Details)
    case "sessionContext" => Known(SessionContext)
    case "server_received_at" => Known(ServerReceivedAt)
    case "client_ip" => Known(ClientIp)
    case "device_info" => Known(DeviceInfo)
    case _ => Unknown(name)
  }

  /** The fields declared without a default value. */
  const RequiredFields: set<Field> := {Timestamp, EventType, NetworkType, IsConnected, IsInternetReachable}

  /** One uploaded event, as decoded from JSON: `fields` holds every key
      except `sessionContext`, which is `None` when it is absent or null;
      a key is `Unknown` only when it spells no field. */
  datatype RawObject = RawObject(fields: map<Key, Value>, sessionContext: Option<Dict>)
  type RawEvent = r: RawObject | WellKeyed(r.fields) witness RawObject(map[], None)

  predicate WellKeyed(fields: map<Key, Value>)
  {
    && Known(SessionContext) !in fields
    && forall k :: k in fields && k.Unknown? ==> KeyOf(k.name) == k
  }

  /** A stored network log entry. The timestamp is the sort key of every
      query; the three last fields are filled in by the server. */
  datatype Entry = Entry(
    timestamp: string,
    eventType: Value,
    networkType: Value,
    isConnected: Value,
    isInternetReachable: Value,
    serverConnected: Value,
    additionalInfo: Value,
    ipAddress: Value,
    subnet: Value,
    previousSubnet: Value,
    ssid: Value,
    bssid: Value,
    cellularGeneration: Value,
    details: Value,
    sessionContext: Option<Dict>,
    serverReceivedAt: Value,
    clientIp: Value,
    deviceInfo: Value)

  /** The value of a field other than `sessionContext`, as `asdict` would
      give it. */
  function FieldValue(e: Entry, f: Field): Value
    requires f != SessionContext
  {
    match f
    case Timestamp => Str(e.timestamp)
    case EventType => e.eventType
    case NetworkType => e.networkType
    case IsConnected => e.isConnected
    case IsInternetReachable => e.isInternetReachable
    case ServerConnected => e.serverConnected
    case AdditionalInfo => e.additionalInfo
    case IpAddress => e.ipAddress
    case Subnet => e.subnet
    case PreviousSubnet => e.previousSubnet
    case Ssid => e.ssid
    case Bssid => e.bssid
    case CellularGeneration => e.cellularGeneration
    case Details => e.details
    case ServerReceivedAt => e.serverReceivedAt
    case ClientIp => e.clientIp
    case DeviceInfo => e.deviceInfo
  }

  /** Why an uploaded object is not an entry. Python raises `TypeError` for
      the first two, reporting unexpected keywords before missing ones. */
  datatype Malformed =
    | UnexpectedFields(unexpected: set<string>)
    | MissingFields(missing: set<Field>)
    | TimestampNotText

  /** The uploaded value of a field, `None` when it was left out. */
  function Get(fields: map<Key, Value>, f: Field): Value
  {
    if Known(f) in fields then fields[Known(f)] else Null
  }

  /** The keys that name no field. */
  function UnknownNames(fields: map<Key, Value>): (r: set<string>)
    ensures forall name :: name in r <==> Unknown(name) in fields
    ensures r == {} <==> forall k :: k in fields ==> k.Known?
  {
    var r := set k | k in fields && k.Unknown? :: k.name;
    assert forall k :: k in fields && k.Unknown? ==> k.name in r;
    r
  }

  /** The required fields left out. */
  function Absent(fields: map<Key, Value>): (r: set<Field>)
    ensures forall f :: f in r <==> f in RequiredFields && Known(f) !in fields
    ensures r == {} <==> forall f :: f in RequiredFields ==> Known(f) in fields
  {
    set f | f in RequiredFields && Known(f) !in fields
  }

  /** `NetworkLogEntry(**raw)`: succeeds exactly when every key is a field,
      every required field is present and the timestamp is a string; every
      field then holds the uploaded value, or `None` when it was left out.
      Unknown keys are reported before missing ones. Python's `TypeError`
      names only the first unexpected key; the model's error carries the
      whole set of them. */
  function ConstructEntry(raw: RawEvent): (r: Result<Entry, Malformed>)
    ensures r.Ok? <==> && (forall k :: k in raw.fields ==> k.Known?)
                       && (forall f :: f in RequiredFields ==> Known(f) in raw.fields)
                       && Get(raw.fields, Timestamp).Str?
    ensures r.Err? && r.error.UnexpectedFields? ==>
              && r.error.unexpected != {}
              && forall name :: name in r.error.unexpected <==> Unknown(name) in raw.fields
    ensures r.Err? && r.error.MissingFields? ==>
              && (forall k :: k in raw.fields ==> k.Known?)
              && r.error.missing != {}
              && forall f :: f in r.error.missing <==> f in RequiredFields && Known(f) !in raw.fields
    ensures r.Err? && r.error.TimestampNotText? ==>
              && (forall k :: k in raw.fields ==> k.Known?)
              && (forall f :: f in RequiredFields ==> Known(f) in raw.fields)
              && !Get(raw.fields, Timestamp).Str?
    ensures r.Ok? ==> r.value.sessionContext == raw.sessionContext
    ensures r.Ok? ==> forall f :: f != SessionContext ==> FieldValue(r.value, f) == Get(raw.fields, f)
  {
    var f := raw.fields;
    if UnknownNames(f) != {} then
      Err(UnexpectedFields(UnknownNames(f)))
    else if Absent(f) != {} then
      Err(MissingFields(Absent(f)))
    else if !Get(f, Timestamp).Str? then
      Err(TimestampNotText)
    else
      Ok(EntryOf(f, raw.sessionContext))
  }

  /** The entry an accepted object becomes: each field holds its uploaded
      value, or `None` when it was left out. */
  function EntryOf(f: map<Key, Value>, context: Option<Dict>): (e: Entry)
    requires Get(f, Timestamp).Str?
    ensures e.sessionContext == context
    ensures forall x :: x != SessionContext ==> FieldValue(e, x) == Get(f, x)
  {
    Entry(
      Get(f, Timestamp).s, Get(f, EventType), Get(f, NetworkType), Get(f, IsConnected),
      Get(f, IsInternetReachable),
      Get(f, ServerConnected), Get(f, AdditionalInfo), Get(f, IpAddress), Get(f, Subnet),
      Get(f, PreviousSubnet), Get(f, Ssid), Get(f, Bssid), Get(f, CellularGeneration),
      Get(f, Details), context,
      Get(f, ServerReceivedAt), Get(f, ClientIp), Get(f, DeviceInfo))
  }

  /** A mapping that leaves out any one of the three fields declared without
      a default (`networkType`, `isConnected`, `isInternetReachable`) cannot
      become an entry, even when timestamp and event type are present. */
  lemma NoDefaultForNetworkState(raw: RawEvent, f: Field)
    requires f in {NetworkType, IsConnected, IsInternetReachable}
    requires Known(f) !in raw.fields && forall k :: k in raw.fields ==> k.Known?
    ensures ConstructEntry(raw).Err? && ConstructEntry(raw).error.MissingFields?
    ensures f in ConstructEntry(raw).error.missing
  {
  }
}
