/** The record types of one data line and their decoding from JSON, as the derived
    serde `Deserialize` impls of `Client`, `Server`, `Performance` and `ParsedEntry`
    do it:
    - a struct is read from a JSON object, or from an array holding its fields in order;
    - in an object, members with unknown names are skipped, a known name given twice is
      an error, a missing `Option` field is `None` and a missing other field an error;
    - an `Option` field holding `null` is `None`;
    - `Performance` uses camelCase member names;
    - `timestamp` is a string in DATE_TIME_FORMAT.
    Members are examined in order, so the first bad member decides the error, and the
    missing-field check comes last, in declaration order. */
module JsonParser {
  import opened Results
  import opened Calendar
  import opened Json

  type U32 = x: int | 0 <= x < 0x1_0000_0000

  datatype Client = Client(wlan: Option<string>, ip: string, lat: string, lon: string, isp: string)

  datatype Server = Server(name: string, sponsor: string, distance: string, host: string)

  datatype Performance = Performance(
    latency: U32,
    jitter: Option<U32>,
    downloadConfig: Option<string>,
    uploadConfig: Option<string>,
    download: Option<real>,
    upload: Option<real>)

  datatype ParsedEntry = ParsedEntry(
    timestamp: NaiveDateTime,
    client: Option<Client>,
    server: Option<Server>,
    performance: Option<Performance>)

  datatype Error =
    | Syntax                        // the line is not JSON text
    | InvalidType                   // a value of the wrong JSON kind
    | InvalidValue                  // a number outside the range of u32
    | InvalidLength                 // a struct given as an array of the wrong length
    | MissingField(name: string)
    | DuplicateField(name: string)
    | BadTimestamp                  // a timestamp string not in DATE_TIME_FORMAT

  /* Primitive values */

  function DecodeString(j: Json): (r: Result<string, Error>)
    ensures r.Ok? <==> j.Str?
    ensures r.Ok? ==> j == Str(r.value)
  {
    if j.Str? then Ok(j.s) else Err(InvalidType)
  }

  /** An integer literal within 0 .. 2^32 - 1; a negative or too large integer is an
      invalid value, a number with a fraction or exponent an invalid type. */
  function DecodeU32(j: Json): (r: Result<U32, Error>)
    ensures r.Ok? <==> j.Num? && j.n.IntNumber? && 0 <= j.n.i < 0x1_0000_0000
    ensures r.Ok? ==> j == Num(IntNumber(r.value))
  {
    match j
    case Num(IntNumber(i)) => if 0 <= i < 0x1_0000_0000 then Ok(i) else Err(InvalidValue)
    case _ => Err(InvalidType)
  }

  function NumberValue(n: Number): real {
    match n
    case IntNumber(i) => i as real
    case FloatNumber(f) => f
  }

  /** Any JSON number, integer literals included. */
  function DecodeF64(j: Json): (r: Result<real, Error>)
    ensures r.Ok? <==> j.Num?
    ensures r.Ok? ==> r.value == NumberValue(j.n)
  {
    if j.Num? then Ok(NumberValue(j.n)) else Err(InvalidType)
  }

  /** `Option<T>`: `null` is `None`, anything else must decode as a `T`. */
  function DecodeOption<T>(j: Json, decode: Json -> Result<T, Error>): (r: Result<Option<T>, Error>)
    ensures r.Ok? ==> (r.value.None? <==> j.Null?)
    ensures r.Ok? && r.value.Some? ==> decode(j) == Ok(r.value.value)
    ensures r.Err? <==> !j.Null? && decode(j).Err?
  {
    if j.Null? then Ok(None)
    else
      var v :- decode(j);
      Ok(Some(v))
  }

  /** `naive_date_time_from_str`: a string, parsed with DATE_TIME_FORMAT. */
  function DecodeTimestamp(j: Json): (r: Result<NaiveDateTime, Error>)
    ensures r.Ok? ==> j.Str? && ParseDateTime(j.s) == Some(r.value)
    ensures j.Str? && ParseDateTime(j.s).None? ==> r == Err(BadTimestamp)
  {
    var s :- DecodeString(j);
    match ParseDateTime(s)
    case None => Err(BadTimestamp)
    case Some(t) => Ok(t)
  }

  /** The timestamp member holds `t` exactly when it is `t` written in DATE_TIME_FORMAT. */
  lemma TimestampMember(j: Json, t: NaiveDateTime)
    ensures DecodeTimestamp(j) == Ok(t) <==> j == Str(FormatDateTime(t))
  {
    if j.Str? {
      DateTimeRoundTrip(j.s, t);
    }
  }

  /* Struct members */

  /** The pass over an object's members: skips unknown names, fails on a field seen
      before, and fails with `check`'s error on the first field value that does not
      decode. */
  function ScanMembers(members: seq<(string, Json)>, fields: set<string>,
                       check: (string, Json) -> Option<Error>, seen: set<string>): Option<Error>
    decreases |members|
  {
    if |members| == 0 then None
    else
      var key := members[0].0;
      if key !in fields then ScanMembers(members[1..], fields, check, seen)
      else if key in seen then Some(DuplicateField(key))
      else if check(key, members[0].1).Some? then check(key, members[0].1)
      else ScanMembers(members[1..], fields, check, seen + {key})
  }

  /** The scan passes exactly when no field occurs twice, none was seen before and
      every field's value decodes. */
  lemma {:induction false} ScanMembersPasses(members: seq<(string, Json)>, fields: set<string>,
                                             check: (string, Json) -> Option<Error>, seen: set<string>)
    ensures ScanMembers(members, fields, check, seen).None? <==>
      && DistinctFields(members, fields)
      && forall i :: 0 <= i < |members| && members[i].0 in fields ==>
           members[i].0 !in seen && check(members[i].0, members[i].1).None?
    decreases |members|
  {
    if |members| > 0 {
      var key, tail := members[0].0, members[1..];
      assert forall i :: 1 <= i < |members| ==> members[i] == tail[i - 1];
      var seen' := if key in fields then seen + {key} else seen;
      ScanMembersPasses(tail, fields, check, seen');
      if key in fields && key !in seen && check(key, members[0].1).None? {
        if ScanMembers(tail, fields, check, seen').None? {
          assert DistinctFields(members, fields) by {
            forall i, j | 0 <= i < j < |members| && members[i].0 in fields
              ensures members[i].0 != members[j].0
            {
              if i > 0 {
                assert tail[i - 1] == members[i] && tail[j - 1] == members[j];
              }
            }
          }
        } else {
          if DistinctFields(members, fields) {
            assert DistinctFields(tail, fields) by {
              forall i, j | 0 <= i < j < |tail| && tail[i].0 in fields
                ensures tail[i].0 != tail[j].0
              {
                assert members[i + 1] == tail[i] && members[j + 1] == tail[j];
              }
            }
            assert forall i :: 0 <= i < |tail| && tail[i].0 in fields ==> tail[i].0 != key by {
              forall i | 0 <= i < |tail| && tail[i].0 in fields
                ensures tail[i].0 != key
              {
                assert members[i + 1] == tail[i];
              }
            }
          }
        }
      } else if key !in fields {
        assert DistinctFields(members, fields) <==> DistinctFields(tail, fields) by {
          if DistinctFields(tail, fields) {
            forall i, j | 0 <= i < j < |members| && members[i].0 in fields
              ensures members[i].0 != members[j].0
            {
              assert i > 0;
              assert tail[i - 1] == members[i] && tail[j - 1] == members[j];
            }
          }
          if DistinctFields(members, fields) {
            forall i, j | 0 <= i < j < |tail| && tail[i].0 in fields
              ensures tail[i].0 != tail[j].0
            {
              assert members[i + 1] == tail[i] && members[j + 1] == tail[j];
            }
          }
        }
      }
    }
  }

  /** With distinct field names, the scan passes when the value found for each field
      passes its check. */
  lemma ScanPassesByField(members: seq<(string, Json)>, fields: set<string>, check: (string, Json) -> Option<Error>)
    requires DistinctFields(members, fields)
    requires forall f :: f in fields && Lookup(members, f).Some? ==> check(f, Lookup(members, f).value).None?
    ensures ScanMembers(members, fields, check, {}).None?
  {
    ScanMembersPasses(members, fields, check, {});
    forall i | 0 <= i < |members| && members[i].0 in fields
      ensures check(members[i].0, members[i].1).None?
    {
      LookupDistinct(members, fields, i);
    }
  }

  /** A member whose name is not a field changes nothing in the scan. */
  lemma {:induction false} ScanMembersAppendUnknown(members: seq<(string, Json)>, fields: set<string>,
                                                    check: (string, Json) -> Option<Error>, seen: set<string>,
                                                    name: string, value: Json)
    requires name !in fields
    ensures ScanMembers(members + [(name, value)], fields, check, seen) == ScanMembers(members, fields, check, seen)
    decreases |members|
  {
    var extended := members + [(name, value)];
    if |members| == 0 {
      assert extended[1..] == [];
    } else {
      assert extended[0] == members[0];
      assert extended[1..] == members[1..] + [(name, value)];
      var key := members[0].0;
      ScanMembersAppendUnknown(members[1..], fields, check, seen, name, value);
      ScanMembersAppendUnknown(members[1..], fields, check, seen + {key}, name, value);
    }
  }

  /** A field that must be present. */
  function RequiredMember<T>(members: seq<(string, Json)>, key: string, decode: Json -> Result<T, Error>): (r: Result<T, Error>)
    ensures Lookup(members, key).None? ==> r == Err(MissingField(key))
    ensures Lookup(members, key).Some? ==> r == decode(Lookup(members, key).value)
  {
    match Lookup(members, key)
    case None => Err(MissingField(key))
    case Some(v) => decode(v)
  }

  /** A missing or `null` member: what an `Option` field reads as `None`. */
  predicate Absent(found: Option<Json>) {
    found.None? || found == Some(Null)
  }

  /** The member found for an `Option` field carries `value`. */
  ghost predicate CarriesOption<T>(found: Option<Json>, value: Option<T>, decode: Json -> Result<T, Error>) {
    match value
    case None => Absent(found)
    case Some(x) => found.Some? && !found.value.Null? && decode(found.value) == Ok(x)
  }

  /** A field of type `Option<T>`: missing or `null` is `None`. */
  function OptionalMember<T>(members: seq<(string, Json)>, key: string, decode: Json -> Result<T, Error>): (r: Result<Option<T>, Error>)
    ensures Absent(Lookup(members, key)) ==> r == Ok(None)
    ensures r.Ok? ==> CarriesOption(Lookup(members, key), r.value, decode)
    ensures r.Err? ==> !Absent(Lookup(members, key)) && decode(Lookup(members, key).value).Err?
  {
    match Lookup(members, key)
    case None => Ok(None)
    case Some(v) => DecodeOption(v, decode)
  }

  lemma OptionalMemberCarries<T>(members: seq<(string, Json)>, key: string, decode: Json -> Result<T, Error>, value: Option<T>)
    ensures OptionalMember(members, key, decode) == Ok(value) <==> CarriesOption(Lookup(members, key), value, decode)
  {
  }

  /** An element read as an `Option` field decodes to `value` exactly when it carries it. */
  lemma OptionDecodesTo<T>(j: Json, decode: Json -> Result<T, Error>, value: Option<T>)
    ensures DecodeOption(j, decode) == Ok(value) <==> CarriesOption(Some(j), value, decode)
  {
  }

  /** The value an `Option` field carries decodes without error. */
  lemma CarriedOptionDecodes<T>(found: Option<Json>, value: Option<T>, decode: Json -> Result<T, Error>)
    requires CarriesOption(found, value, decode) && found.Some?
    ensures DecodeOption(found.value, decode).Ok?
  {
  }

  /* Client */

  const ClientFields: set<string> := {"wlan", "ip", "lat", "lon", "isp"}

  function ClientMemberError(key: string, value: Json): Option<Error> {
    if key == "wlan" then DecodeOption(value, DecodeString).ErrorOf()
    else if key in ClientFields then DecodeString(value).ErrorOf()
    else None
  }

  /** The fields of a `Client` read from object members that passed the scan. */
  function ClientFromMembers(members: seq<(string, Json)>): Result<Client, Error> {
      var wlan :- OptionalMember(members, "wlan", DecodeString);
      var ip :- RequiredMember(members, "ip", DecodeString);
      var lat :- RequiredMember(members, "lat", DecodeString);
      var lon :- RequiredMember(members, "lon", DecodeString);
      var isp :- RequiredMember(members, "isp", DecodeString);
      Ok(Client(wlan, ip, lat, lon, isp))
  }

  function DecodeClient(j: Json): Result<Client, Error> {
    match j
    case Obj(members) =>
      var scan := ScanMembers(members, ClientFields, ClientMemberError, {});
      if scan.Some? then Err(scan.value)
      else ClientFromMembers(members)
    case Arr(items) =>
      if |items| != 5 then Err(InvalidLength)
      else
        var wlan :- DecodeOption(items[0], DecodeString);
        var ip :- DecodeString(items[1]);
        var lat :- DecodeString(items[2]);
        var lon :- DecodeString(items[3]);
        var isp :- DecodeString(items[4]);
        Ok(Client(wlan, ip, lat, lon, isp))
    case _ => Err(InvalidType)
  }

  /** The object members that spell out client `c`: `wlan` optional, the other four
      required strings. */
  ghost predicate ClientMembers(members: seq<(string, Json)>, c: Client) {
    && CarriesOption(Lookup(members, "wlan"), c.wlan, DecodeString)
    && Lookup(members, "ip") == Some(Str(c.ip))
    && Lookup(members, "lat") == Some(Str(c.lat))
    && Lookup(members, "lon") == Some(Str(c.lon))
    && Lookup(members, "isp") == Some(Str(c.isp))
  }

  lemma ClientFromMembersExact(members: seq<(string, Json)>, c: Client)
    ensures ClientFromMembers(members) == Ok(c) <==> ClientMembers(members, c)
  {
    OptionalMemberCarries(members, "wlan", DecodeString, c.wlan);
  }

  lemma ClientScanPasses(members: seq<(string, Json)>, c: Client)
    requires DistinctFields(members, ClientFields) && ClientMembers(members, c)
    ensures ScanMembers(members, ClientFields, ClientMemberError, {}).None?
  {
    forall f | f in ClientFields && Lookup(members, f).Some?
      ensures ClientMemberError(f, Lookup(members, f).value).None?
    {
      if f == "wlan" {
        CarriedOptionDecodes(Lookup(members, f), c.wlan, DecodeString);
      } else if f == "ip" {
        assert Lookup(members, f).value == Str(c.ip);
      } else if f == "lat" {
        assert Lookup(members, f).value == Str(c.lat);
      } else if f == "lon" {
        assert Lookup(members, f).value == Str(c.lon);
      } else {
        assert Lookup(members, f).value == Str(c.isp);
      }
    }
    ScanPassesByField(members, ClientFields, ClientMemberError);
  }

  lemma ClientObject(members: seq<(string, Json)>, c: Client)
    ensures DecodeClient(Obj(members)) == Ok(c) <==>
      DistinctFields(members, ClientFields) && ClientMembers(members, c)
  {
    ScanMembersPasses(members, ClientFields, ClientMemberError, {});
    ClientFromMembersExact(members, c);
    if DistinctFields(members, ClientFields) && ClientMembers(members, c) {
      ClientScanPasses(members, c);
    }
  }


  /* Server */

  const ServerFields: set<string> := {"name", "sponsor", "distance", "host"}

  function ServerMemberError(key: string, value: Json): Option<Error> {
    if key in ServerFields then DecodeString(value).ErrorOf() else None
  }

  /** The fields of a `Server` read from object members that passed the scan. */
  function ServerFromMembers(members: seq<(string, Json)>): Result<Server, Error> {
      var name :- RequiredMember(members, "name", DecodeString);
      var sponsor :- RequiredMember(members, "sponsor", DecodeString);
      var distance :- RequiredMember(members, "distance", DecodeString);
      var host :- RequiredMember(members, "host", DecodeString);
      Ok(Server(name, sponsor, distance, host))
  }

  function DecodeServer(j: Json): Result<Server, Error> {
    match j
    case Obj(members) =>
      var scan := ScanMembers(members, ServerFields, ServerMemberError, {});
      if scan.Some? then Err(scan.value)
      else ServerFromMembers(members)
    case Arr(items) =>
      if |items| != 4 then Err(InvalidLength)
      else
        var name :- DecodeString(items[0]);
        var sponsor :- DecodeString(items[1]);
        var distance :- DecodeString(items[2]);
        var host :- DecodeString(items[3]);
        Ok(Server(name, sponsor, distance, host))
    case _ => Err(InvalidType)
  }

  /** All four server fields are required strings. */
  ghost predicate ServerMembers(members: seq<(string, Json)>, s: Server) {
    && Lookup(members, "name") == Some(Str(s.name))
    && Lookup(members, "sponsor") == Some(Str(s.sponsor))
    && Lookup(members, "distance") == Some(Str(s.distance))
    && Lookup(members, "host") == Some(Str(s.host))
  }

  lemma ServerFromMembersExact(members: seq<(string, Json)>, s: Server)
    ensures ServerFromMembers(members) == Ok(s) <==> ServerMembers(members, s)
  {
  }

  lemma ServerScanPasses(members: seq<(string, Json)>, s: Server)
    requires DistinctFields(members, ServerFields) && ServerMembers(members, s)
    ensures ScanMembers(members, ServerFields, ServerMemberError, {}).None?
  {
    ScanPassesByField(members, ServerFields, ServerMemberError);
  }

  lemma ServerObject(members: seq<(string, Json)>, s: Server)
    ensures DecodeServer(Obj(members)) == Ok(s) <==>
      DistinctFields(members, ServerFields) && ServerMembers(members, s)
  {
    ScanMembersPasses(members, ServerFields, ServerMemberError, {});
    ServerFromMembersExact(members, s);
    if DistinctFields(members, ServerFields) && ServerMembers(members, s) {
      ServerScanPasses(members, s);
    }
  }


  /* Performance */

  /** The wire names: camelCase for `download_config` and `upload_config`. */
  const PerformanceFields: set<string> :=
    {"latency", "jitter", "downloadConfig", "uploadConfig", "download", "upload"}

  function PerformanceMemberError(key: string, value: Json): Option<Error> {
    if key == "latency" then DecodeU32(value).ErrorOf()
    else if key == "jitter" then DecodeOption(value, DecodeU32).ErrorOf()
    else if key == "downloadConfig" || key == "uploadConfig" then DecodeOption(value, DecodeString).ErrorOf()
    else if key == "download" || key == "upload" then DecodeOption(value, DecodeF64).ErrorOf()
    else None
  }

  /** The fields of a `Performance` read from object members that passed the scan. */
  function PerformanceFromMembers(members: seq<(string, Json)>): Result<Performance, Error> {
      var latency :- RequiredMember(members, "latency", DecodeU32);
      var jitter :- OptionalMember(members, "jitter", DecodeU32);
      var downloadConfig :- OptionalMember(members, "downloadConfig", DecodeString);
      var uploadConfig :- OptionalMember(members, "uploadConfig", DecodeString);
      var download :- OptionalMember(members, "download", DecodeF64);
      var upload :- OptionalMember(members, "upload", DecodeF64);
      Ok(Performance(latency, jitter, downloadConfig, uploadConfig, download, upload))
  }

  function DecodePerformance(j: Json): Result<Performance, Error> {
    match j
    case Obj(members) =>
      var scan := ScanMembers(members, PerformanceFields, PerformanceMemberError, {});
      if scan.Some? then Err(scan.value)
      else PerformanceFromMembers(members)
    case Arr(items) =>
      if |items| != 6 then Err(InvalidLength)
      else
        var latency :- DecodeU32(items[0]);
        var jitter :- DecodeOption(items[1], DecodeU32);
        var downloadConfig :- DecodeOption(items[2], DecodeString);
        var uploadConfig :- DecodeOption(items[3], DecodeString);
        var download :- DecodeOption(items[4], DecodeF64);
        var upload :- DecodeOption(items[5], DecodeF64);
        Ok(Performance(latency, jitter, downloadConfig, uploadConfig, download, upload))
    case _ => Err(InvalidType)
  }

  /** `latency` is a required u32 integer; the other five members are optional. */
  ghost predicate PerformanceMembers(members: seq<(string, Json)>, p: Performance) {
    && Lookup(members, "latency") == Some(Num(IntNumber(p.latency)))
    && CarriesOption(Lookup(members, "jitter"), p.jitter, DecodeU32)
    && CarriesOption(Lookup(members, "downloadConfig"), p.downloadConfig, DecodeString)
    && CarriesOption(Lookup(members, "uploadConfig"), p.uploadConfig, DecodeString)
    && CarriesOption(Lookup(members, "download"), p.download, DecodeF64)
    && CarriesOption(Lookup(members, "upload"), p.upload, DecodeF64)
  }

  lemma PerformanceFromMembersExact(members: seq<(string, Json)>, p: Performance)
    ensures PerformanceFromMembers(members) == Ok(p) <==> PerformanceMembers(members, p)
  {
    OptionalMemberCarries(members, "jitter", DecodeU32, p.jitter);
    OptionalMemberCarries(members, "downloadConfig", DecodeString, p.downloadConfig);
    OptionalMemberCarries(members, "uploadConfig", DecodeString, p.uploadConfig);
    OptionalMemberCarries(members, "download", DecodeF64, p.download);
    OptionalMemberCarries(members, "upload", DecodeF64, p.upload);
  }

  lemma PerformanceScanPasses(members: seq<(string, Json)>, p: Performance)
    requires DistinctFields(members, PerformanceFields) && PerformanceMembers(members, p)
    ensures ScanMembers(members, PerformanceFields, PerformanceMemberError, {}).None?
  {
    ScanMembersPasses(members, PerformanceFields, PerformanceMemberError, {});
    forall i | 0 <= i < |members| && members[i].0 in PerformanceFields
      ensures PerformanceMemberError(members[i].0, members[i].1).None?
    {
      LookupDistinct(members, PerformanceFields, i);
      var key, value := members[i].0, members[i].1;
      if key == "jitter" {
        CarriedOptionDecodes(Lookup(members, key), p.jitter, DecodeU32);
      } else if key == "downloadConfig" {
        CarriedOptionDecodes(Lookup(members, key), p.downloadConfig, DecodeString);
      } else if key == "uploadConfig" {
        CarriedOptionDecodes(Lookup(members, key), p.uploadConfig, DecodeString);
      } else if key == "download" {
        CarriedOptionDecodes(Lookup(members, key), p.download, DecodeF64);
      } else if key == "upload" {
        CarriedOptionDecodes(Lookup(members, key), p.upload, DecodeF64);
      }
    }
  }

  lemma PerformanceObject(members: seq<(string, Json)>, p: Performance)
    ensures DecodePerformance(Obj(members)) == Ok(p) <==>
      DistinctFields(members, PerformanceFields) && PerformanceMembers(members, p)
  {
    ScanMembersPasses(members, PerformanceFields, PerformanceMemberError, {});
    PerformanceFromMembersExact(members, p);
    if DistinctFields(members, PerformanceFields) && PerformanceMembers(members, p) {
      PerformanceScanPasses(members, p);
    }
  }


  /** A performance object without `latency` never decodes. */
  lemma MissingLatencyRejected(members: seq<(string, Json)>)
    requires Lookup(members, "latency").None?
    ensures DecodePerformance(Obj(members)).Err?
  {
  }

  /** Lookups of the performance fields do not see a member with another name. */
  lemma PerformanceFromMembersAppendUnknown(members: seq<(string, Json)>, name: string, value: Json)
    requires name !in PerformanceFields
    ensures PerformanceFromMembers(members + [(name, value)]) == PerformanceFromMembers(members)
  {
    LookupAppendOther(members, name, value, "latency");
    LookupAppendOther(members, name, value, "jitter");
    LookupAppendOther(members, name, value, "downloadConfig");
    LookupAppendOther(members, name, value, "uploadConfig");
    LookupAppendOther(members, name, value, "download");
    LookupAppendOther(members, name, value, "upload");
    var extended := members + [(name, value)];
    assert RequiredMember(extended, "latency", DecodeU32) == RequiredMember(members, "latency", DecodeU32);
    assert OptionalMember(extended, "jitter", DecodeU32) == OptionalMember(members, "jitter", DecodeU32);
    assert OptionalMember(extended, "downloadConfig", DecodeString) == OptionalMember(members, "downloadConfig", DecodeString);
    assert OptionalMember(extended, "uploadConfig", DecodeString) == OptionalMember(members, "uploadConfig", DecodeString);
    assert OptionalMember(extended, "download", DecodeF64) == OptionalMember(members, "download", DecodeF64);
    assert OptionalMember(extended, "upload", DecodeF64) == OptionalMember(members, "upload", DecodeF64);
  }

  /** The snake_case spelling of a field is an unknown member and is ignored: the wire
      names are camelCase. */
  lemma SnakeCaseNameIgnored(members: seq<(string, Json)>, name: string, value: Json)
    requires name == "download_config" || name == "upload_config"
    ensures DecodePerformance(Obj(members + [(name, value)])) == DecodePerformance(Obj(members))
  {
    ScanMembersAppendUnknown(members, PerformanceFields, PerformanceMemberError, {}, name, value);
    PerformanceFromMembersAppendUnknown(members, name, value);
  }

  /* ParsedEntry */

  const EntryFields: set<string> := {"timestamp", "client", "server", "performance"}

  function EntryMemberError(key: string, value: Json): Option<Error> {
    if key == "timestamp" then DecodeTimestamp(value).ErrorOf()
    else if key == "client" then DecodeOption(value, DecodeClient).ErrorOf()
    else if key == "server" then DecodeOption(value, DecodeServer).ErrorOf()
    else if key == "performance" then DecodeOption(value, DecodePerformance).ErrorOf()
    else None
  }

  /** The fields of a `ParsedEntry` read from object members that passed the scan. */
  function ParsedEntryFromMembers(members: seq<(string, Json)>): Result<ParsedEntry, Error> {
      var timestamp :- RequiredMember(members, "timestamp", DecodeTimestamp);
      var client :- OptionalMember(members, "client", DecodeClient);
      var server :- OptionalMember(members, "server", DecodeServer);
      var performance :- OptionalMember(members, "performance", DecodePerformance);
      Ok(ParsedEntry(timestamp, client, server, performance))
  }

  function DecodeEntry(j: Json): Result<ParsedEntry, Error> {
    match j
    case Obj(members) =>
      var scan := ScanMembers(members, EntryFields, EntryMemberError, {});
      if scan.Some? then Err(scan.value)
      else ParsedEntryFromMembers(members)
    case Arr(items) =>
      if |items| != 4 then Err(InvalidLength)
      else ParsedEntryFromItems(items)
    case _ => Err(InvalidType)
  }

  /** The entry given as a sequence of its fields, in declaration order. */
  function ParsedEntryFromItems(items: seq<Json>): Result<ParsedEntry, Error>
    requires |items| == 4
  {
    var timestamp :- DecodeTimestamp(items[0]);
    var client :- DecodeOption(items[1], DecodeClient);
    var server :- DecodeOption(items[2], DecodeServer);
    var performance :- DecodeOption(items[3], DecodePerformance);
    Ok(ParsedEntry(timestamp, client, server, performance))
  }

  /** The array elements that spell out entry `e`. */
  ghost predicate EntryItems(items: seq<Json>, e: ParsedEntry)
    requires |items| == 4
  {
    && items[0] == Str(FormatDateTime(e.timestamp))
    && CarriesOption(Some(items[1]), e.client, DecodeClient)
    && CarriesOption(Some(items[2]), e.server, DecodeServer)
    && CarriesOption(Some(items[3]), e.performance, DecodePerformance)
  }

  lemma ParsedEntryFromItemsExact(items: seq<Json>, e: ParsedEntry)
    requires |items| == 4
    ensures ParsedEntryFromItems(items) == Ok(e) <==> EntryItems(items, e)
  {
    TimestampMember(items[0], e.timestamp);
    OptionDecodesTo(items[1], DecodeClient, e.client);
    OptionDecodesTo(items[2], DecodeServer, e.server);
    OptionDecodesTo(items[3], DecodePerformance, e.performance);
  }

  /** The object members that spell out entry `e`: the timestamp in DATE_TIME_FORMAT,
      and each of the three sections on its own either absent or `null` (`None`) or a
      value that decodes. */
  ghost predicate EntryMembers(members: seq<(string, Json)>, e: ParsedEntry) {
    && Lookup(members, "timestamp") == Some(Str(FormatDateTime(e.timestamp)))
    && CarriesOption(Lookup(members, "client"), e.client, DecodeClient)
    && CarriesOption(Lookup(members, "server"), e.server, DecodeServer)
    && CarriesOption(Lookup(members, "performance"), e.performance, DecodePerformance)
  }

  lemma ParsedEntryFromMembersExact(members: seq<(string, Json)>, e: ParsedEntry)
    ensures ParsedEntryFromMembers(members) == Ok(e) <==> EntryMembers(members, e)
  {
    OptionalMemberCarries(members, "client", DecodeClient, e.client);
    OptionalMemberCarries(members, "server", DecodeServer, e.server);
    OptionalMemberCarries(members, "performance", DecodePerformance, e.performance);
    if Lookup(members, "timestamp").Some? {
      TimestampMember(Lookup(members, "timestamp").value, e.timestamp);
    }
  }

  lemma EntryScanPasses(members: seq<(string, Json)>, e: ParsedEntry)
    requires DistinctFields(members, EntryFields) && EntryMembers(members, e)
    ensures ScanMembers(members, EntryFields, EntryMemberError, {}).None?
  {
    ScanMembersPasses(members, EntryFields, EntryMemberError, {});
    forall i | 0 <= i < |members| && members[i].0 in EntryFields
      ensures EntryMemberError(members[i].0, members[i].1).None?
    {
      LookupDistinct(members, EntryFields, i);
      var key, value := members[i].0, members[i].1;
      if key == "timestamp" {
        TimestampMember(value, e.timestamp);
      } else if key == "client" {
        CarriedOptionDecodes(Lookup(members, key), e.client, DecodeClient);
      } else if key == "server" {
        CarriedOptionDecodes(Lookup(members, key), e.server, DecodeServer);
      } else if key == "performance" {
        CarriedOptionDecodes(Lookup(members, key), e.performance, DecodePerformance);
      }
    }
  }

  lemma EntryObject(members: seq<(string, Json)>, e: ParsedEntry)
    ensures DecodeEntry(Obj(members)) == Ok(e) <==>
      DistinctFields(members, EntryFields) && EntryMembers(members, e)
  {
    ScanMembersPasses(members, EntryFields, EntryMemberError, {});
    ParsedEntryFromMembersExact(members, e);
    if DistinctFields(members, EntryFields) && EntryMembers(members, e) {
      EntryScanPasses(members, e);
    }
  }


  /** A timestamp string not in DATE_TIME_FORMAT makes the whole entry an error. */
  lemma BadTimestampRejected(members: seq<(string, Json)>, text: string)
    requires Lookup(members, "timestamp") == Some(Str(text))
    requires ParseDateTime(text).None?
    ensures DecodeEntry(Obj(members)).Err?
  {
    if DecodeEntry(Obj(members)).Ok? {
      var e := DecodeEntry(Obj(members)).value;
      EntryObject(members, e);
      DateTimeRoundTrip(text, e.timestamp);
    }
  }

  /** A performance object without `latency` makes the whole entry an error, even
      though the section itself is optional. */
  lemma MissingLatencyRejectsEntry(members: seq<(string, Json)>, performance: seq<(string, Json)>)
    requires Lookup(members, "performance") == Some(Obj(performance))
    requires Lookup(performance, "latency").None?
    ensures DecodeEntry(Obj(members)).Err?
  {
    MissingLatencyRejected(performance);
    if DecodeEntry(Obj(members)).Ok? {
      EntryObject(members, DecodeEntry(Obj(members)).value);
    }
  }

  /** `JsonParser::parse`: the line, lexed by serde_json (`lex`), then decoded. Being a
      total function, it never panics. */
  function Parse(line: string, lex: string -> Option<Json>): (r: Result<ParsedEntry, Error>)
    ensures lex(line).None? ==> r == Err(Syntax)
    ensures lex(line).Some? && !lex(line).value.Obj? && !lex(line).value.Arr? ==> r == Err(InvalidType)
    ensures r.Ok? ==> lex(line).Some? && (lex(line).value.Obj? || lex(line).value.Arr?)
  {
    match lex(line)
    case None => Err(Syntax)
    case Some(j) => DecodeEntry(j)
  }

  /** A line holding one JSON object parses to record `e` exactly when the object
      names no field twice and its members spell out `e`. */
  lemma ParseObject(line: string, lex: string -> Option<Json>, members: seq<(string, Json)>, e: ParsedEntry)
    requires lex(line) == Some(Obj(members))
    ensures Parse(line, lex) == Ok(e) <==> DistinctFields(members, EntryFields) && EntryMembers(members, e)
  {
    EntryObject(members, e);
  }

  /** A line holding an array is read as the entry's four fields in declaration order,
      as serde derive reads a struct given as a sequence: any other length is an error. */
  lemma ParseArrayLength(line: string, lex: string -> Option<Json>, items: seq<Json>)
    requires lex(line) == Some(Arr(items)) && |items| != 4
    ensures Parse(line, lex) == Err(InvalidLength)
  {
  }

  /** A four-element array parses to `e` exactly when the elements are, in order, the
      formatted timestamp and the three sections, each `null` for `None` or a value that
      decodes. */
  lemma ParseArray(line: string, lex: string -> Option<Json>, items: seq<Json>, e: ParsedEntry)
    requires lex(line) == Some(Arr(items)) && |items| == 4
    ensures Parse(line, lex) == Ok(e) <==> EntryItems(items, e)
  {
    ParsedEntryFromItemsExact(items, e);
  }
}
