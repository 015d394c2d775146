/**
 The camera session (`Camera`): device URL construction, the one-minute
 security-token lifetime, the device-time query, the memoised service-map
 fetch, liveness, and the accessors that resolve media and PTZ services
 through the cache and the event service directly.

 Every call to the device is an input: a `FetchScript` gives what one
 service-map fetch observes, in order.
 */
module Camera {
  import opened Outcomes
  import opened Text
  import opened Clock
  import opened SecurityTokens
  import opened ClientFactory
  import opened ServiceSelector
  import opened ServiceCache
  import opened EventService

  const UrlScheme: string := "http://"
  const DeviceServicePath: string := "/onvif/device_service"

  /** `CreateUrl`: the device-management endpoint of a camera. */
  function CreateUrl(ip: string, port: int): (url: string)
    ensures |url| > |UrlScheme| + |DeviceServicePath|
    ensures url[..|UrlScheme|] == UrlScheme && url[|url| - |DeviceServicePath|..] == DeviceServicePath
    ensures url[|UrlScheme|..|url| - |DeviceServicePath|] == ip + ":" + IntToDecimal(port)
  {
    var url := UrlScheme + ip + ":" + IntToDecimal(port) + DeviceServicePath;
    CreatedUrlParts(ip, IntToDecimal(port));
    url
  }

  /** Recovers host and port from a device URL: the host runs up to the last colon, so a
      host containing colons is read back whole. */
  function SplitDeviceUrl(url: string): Option<(string, int)>
  {
    if |url| < |UrlScheme| + |DeviceServicePath|
       || url[..|UrlScheme|] != UrlScheme || url[|url| - |DeviceServicePath|..] != DeviceServicePath then None
    else
      var middle := url[|UrlScheme|..|url| - |DeviceServicePath|];
      match LastIndexOf(middle, ':')
      case None => None
      case Some(i) =>
        match ParseInt(middle[i + 1..])
        case None => None
        case Some(port) => Some((middle[..i], port))
  }

  /** The host and the port can be read back from a created URL, even when the host
      contains colons. */
  lemma SplitCreatedUrl(ip: string, port: int)
    ensures SplitDeviceUrl(CreateUrl(ip, port)) == Some((ip, port))
  {
    var digits := IntToDecimal(port);
    var url := UrlScheme + ip + ":" + digits + DeviceServicePath;
    CreatedUrlParts(ip, digits);
    NoColonInDecimal(port);
    var middle := ip + ":" + digits;
    LastColonOfHostPort(ip, digits);
    assert middle[|ip| + 1..] == digits;
    assert middle[..|ip|] == ip;
    ParseIntOfDecimal(port);
  }

  /** The scheme, the path and what lies between them in a created URL. */
  lemma CreatedUrlParts(ip: string, digits: string)
    ensures var url := UrlScheme + ip + ":" + digits + DeviceServicePath;
      && url[..|UrlScheme|] == UrlScheme
      && url[|url| - |DeviceServicePath|..] == DeviceServicePath
      && url[|UrlScheme|..|url| - |DeviceServicePath|] == ip + ":" + digits
  {
  }

  /** The decimal spelling of an integer has no colon. */
  lemma NoColonInDecimal(n: int)
    ensures ':' !in IntToDecimal(n)
  {
    var digits := IntToDecimal(n);
    if n < 0 {
      assert digits == "-" + NatToDecimal(-n);
      assert forall k :: 1 <= k < |digits| ==> digits[k] == NatToDecimal(-n)[k - 1];
    }
  }

  /** The last colon of `ip:digits` is the separator when the digits have none. */
  lemma LastColonOfHostPort(ip: string, digits: string)
    requires ':' !in digits
    ensures LastIndexOf(ip + ":" + digits, ':') == Some(|ip|)
  {
    var middle := ip + ":" + digits;
    assert middle[|ip|] == ':';
    var r := LastIndexOf(middle, ':');
    assert r.Some?;
    assert r.value >= |ip|;
  }

  /** The service-map fetch held by `_servicesTask`: none yet, or a finished fetch and its result. */
  datatype Memo = NoFetch | Fetched(result: Option<map<string, string>>)

  /** The service types the session caches. */
  datatype Capability = MediaCapability | PtzCapability

  /** An initialised media or PTZ service object. */
  datatype ServiceHandle = ServiceHandle(url: string, profile: string, instance: nat)

  datatype Session = Session(
    url: string,
    ip: string,
    port: int,
    username: string,
    password: string,
    factory: Factory,
    tokenExpiry: DateTime,
    memo: Memo,
    cache: Cache<Capability, ServiceHandle>)

  /** One `(Namespace, XAddr)` item of the `GetServices` reply. */
  datatype ServiceEntry = ServiceEntry(ns: string, xaddr: string)

  /** What one service-map fetch observes: the clock at the token check, the device-time
      reply, the local clock read as fallback, the nonce, whether opening the device client
      succeeded, and the `GetServices` reply. */
  datatype FetchScript = FetchScript(
    now: DateTime,
    timeReply: Outcome<Option<DeviceUtc>>,
    localNow: DateTime,
    nonce: Nonce,
    openOk: bool,
    servicesReply: Outcome<seq<ServiceEntry>>)

  // ---------------------------------------------------------------------------------------
  // Token lifetime and the device-time query

  /** The token has outlived its minute at time `now`. */
  predicate TokenExpired(s: Session, now: DateTime)
  {
    now.ticks >= s.tokenExpiry.ticks
  }

  /** `GetDevice` issues a new token: a user name is set and, after the expiry rule, none is held. */
  predicate IssuesToken(s: Session, now: DateTime)
  {
    |s.username| > 0 && (TokenExpired(s, now) || s.factory.token.None?)
  }

  /** The expiry rule `GetDevice` applies first: once the expiry time is reached, the expiry
      moves one minute past `now` and the token is dropped; before that nothing changes. */
  function ExpireToken(s: Session, now: DateTime): (r: Session)
    ensures TokenExpired(s, now) ==> r.tokenExpiry.ticks == now.ticks + 600_000_000 && r.factory.token.None?
    ensures TokenExpired(s, now) ==> r.(tokenExpiry := s.tokenExpiry, factory := s.factory) == s
    ensures !TokenExpired(s, now) ==> r == s
  {
    if TokenExpired(s, now) then s.(tokenExpiry := AddMinutes(now, 1), factory := SetSecurityToken(s.factory, None))
    else s
  }

  datatype DeviceTimeResult = DeviceTimeResult(session: Session, time: Outcome<Option<DateTime>>)

  /** `GetDeviceTimeAsync`: always drops the factory's token first; yields `null` when the
      device reports no UTC time, and otherwise its time truncated to whole seconds. */
  function GetDeviceTime(s: Session, reply: Outcome<Option<DeviceUtc>>): (r: DeviceTimeResult)
    ensures r.session == s.(factory := Factory(None))
    ensures r.time.Ok? <==> reply.Ok? && (reply.value.Some? ==> ValidFields(reply.value.value))
    ensures r.time.Ok? ==> (r.time.value.None? <==> reply.value.None?)
    ensures r.time.Ok? && r.time.value.Some? ==>
      var t := r.time.value.value;
      var u := reply.value.value;
      && t.kind == Utc && Millisecond(t) == 0 && t.ticks % TicksPerSecond == 0
      && Hour(t) == u.time.hour && Minute(t) == u.time.minute && Second(t) == u.time.second
      && DayNumber(t) == DayOf(u.date)
  {
    var cleared := s.(factory := SetSecurityToken(s.factory, None));
    match reply
    case Err(f) => DeviceTimeResult(cleared, Err(f))
    case Ok(None) => DeviceTimeResult(cleared, Ok(None))
    case Ok(Some(u)) =>
      match FromDeviceUtc(u)
      case Err(f) => DeviceTimeResult(cleared, Err(f))
      case Ok(t) => DeviceTimeResult(cleared, Ok(Some(t)))
  }

  datatype DeviceResult = DeviceResult(session: Session, client: Outcome<Client>)

  /** `GetDevice`: applies the expiry rule, issues a token from the device time (or the local
      clock when the device has none) when a user name is set and no token is held, then
      creates and opens the device client. */
  function GetDevice(s: Session, script: FetchScript): (r: DeviceResult)
    ensures r.session.tokenExpiry == ExpireToken(s, script.now).tokenExpiry
    ensures r.session.(factory := s.factory, tokenExpiry := s.tokenExpiry) == s
    ensures !IssuesToken(s, script.now) ==> r.session.factory == ExpireToken(s, script.now).factory
    ensures IssuesToken(s, script.now) && GetDeviceTime(s, script.timeReply).time.Ok? ==>
      var t := GetDeviceTime(s, script.timeReply).time.value;
      r.session.factory.token == Some(SecurityToken(if t.Some? then t.value else script.localNow, script.nonce))
    ensures IssuesToken(s, script.now) && GetDeviceTime(s, script.timeReply).time.Err? ==>
      r.session.factory.token.None? && r.client.Err?
    ensures r.client.Ok? <==>
      script.openOk && !(IssuesToken(s, script.now) && GetDeviceTime(s, script.timeReply).time.Err?)
    ensures r.client.Err? && script.openOk ==> r.client.fault == GetDeviceTime(s, script.timeReply).time.fault
    ensures r.client.Ok? ==>
      && r.client.value.endpoint == EndpointAddress(s.url, [])
      && r.client.value.httpDigestCredential == Credential(s.username, s.password)
      && |r.client.value.inspectorHeaders| == (if r.session.factory.token.Some? then 1 else 0)
  {
    var s1 := ExpireToken(s, script.now);
    var prepared: Outcome<Session> :=
      if |s1.username| > 0 && s1.factory.token.None? then
        var t := GetDeviceTime(s1, script.timeReply);
        match t.time
        case Err(f) => Err(f)
        case Ok(deviceTime) =>
          var serverTime := if deviceTime.Some? then deviceTime.value else script.localNow;
          Ok(t.session.(factory := SetSecurityToken(t.session.factory, Some(SecurityToken(serverTime, script.nonce)))))
      else Ok(s1);
    match prepared
    case Err(f) => DeviceResult(s1, Err(f))
    case Ok(s2) =>
      var client := CreateClient(s2.factory, EndpointAddress(s2.url, []), s2.username, s2.password);
      if !script.openOk then DeviceResult(s2, Err(CommunicationFault)) else DeviceResult(s2, Ok(client))
  }

  /** Within a minute of a reset that issued a token, the token is reused and the device is
      not asked for its time. */
  lemma TokenReusedWithinMinute(s: Session, script: FetchScript, script': FetchScript)
    requires TokenExpired(s, script.now) && |s.username| > 0
    requires GetDeviceTime(s, script.timeReply).time.Ok?
    requires script'.now.ticks < script.now.ticks + 600_000_000
    ensures var s' := GetDevice(s, script).session;
      s'.factory.token.Some? && GetDevice(s', script').session == s'
  {
  }

  /** A minute after the reset, the token is dropped and a fresh one is issued with the new nonce. */
  lemma TokenReissuedAfterMinute(s: Session, script: FetchScript)
    requires TokenExpired(s, script.now) && |s.username| > 0
    requires script.timeReply == Ok(None)
    ensures GetDevice(s, script).session.factory.token == Some(SecurityToken(script.localNow, script.nonce))
    ensures GetDevice(s, script).session.tokenExpiry == AddMinutes(script.now, 1)
  {
  }

  // ---------------------------------------------------------------------------------------
  // The service map

  /** No namespace occurs twice in the reply. */
  predicate DistinctNamespaces(entries: seq<ServiceEntry>)
  {
    forall i, j :: 0 <= i < j < |entries| ==> entries[i].ns != entries[j].ns
  }

  /** The namespaces occurring in the reply. */
  function Namespaces(entries: seq<ServiceEntry>): set<string>
  {
    set i | 0 <= i < |entries| :: entries[i].ns
  }

  /** `ToDictionary(s => s.Namespace, s => s.XAddr)`: throws on a repeated namespace. */
  function ToDictionary(entries: seq<ServiceEntry>): (r: Outcome<map<string, string>>)
    ensures r.Ok? <==> DistinctNamespaces(entries)
    ensures r.Err? ==> r.fault == DuplicateKey
    ensures r.Ok? ==> r.value.Keys == Namespaces(entries) && |r.value| == |entries|
    ensures r.Ok? ==> forall i :: 0 <= i < |entries| ==> r.value[entries[i].ns] == entries[i].xaddr
  {
    if |entries| == 0 then Ok(map[])
    else
      var last := entries[|entries| - 1];
      var init := entries[..|entries| - 1];
      match ToDictionary(init)
      case Err(f) =>
        assert !DistinctNamespaces(entries) by {
          var i, j :| 0 <= i < j < |init| && init[i].ns == init[j].ns;
          assert entries[i] == init[i] && entries[j] == init[j];
        }
        Err(f)
      case Ok(m) =>
        if last.ns in m then
          assert !DistinctNamespaces(entries) by {
            var i :| 0 <= i < |init| && init[i].ns == last.ns;
            assert entries[i] == init[i];
          }
          Err(DuplicateKey)
        else
          DictionaryExtends(entries, m);
          Ok(m[last.ns := last.xaddr])
  }

  /** Adding the last entry, whose namespace is new, to the dictionary of the others. */
  lemma DictionaryExtends(entries: seq<ServiceEntry>, m: map<string, string>)
    requires |entries| > 0
    requires var init := entries[..|entries| - 1];
      && DistinctNamespaces(init) && m.Keys == Namespaces(init) && |m| == |init|
      && (forall i :: 0 <= i < |init| ==> m[init[i].ns] == init[i].xaddr)
    requires entries[|entries| - 1].ns !in m
    ensures var last := entries[|entries| - 1];
      var m' := m[last.ns := last.xaddr];
      && DistinctNamespaces(entries)
      && m'.Keys == Namespaces(entries) && |m'| == |entries|
      && (forall i :: 0 <= i < |entries| ==> m'[entries[i].ns] == entries[i].xaddr)
  {
    var n := |entries| - 1;
    var init := entries[..n];
    var last := entries[n];
    DistinctExtends(entries);
    NamespacesExtend(entries);
    var m' := m[last.ns := last.xaddr];
    assert |m'| == |m| + 1;
    DictionaryValuesExtend(entries, m);
  }

  lemma DictionaryValuesExtend(entries: seq<ServiceEntry>, m: map<string, string>)
    requires |entries| > 0
    requires var init := entries[..|entries| - 1];
      forall i :: 0 <= i < |init| ==> init[i].ns in m && m[init[i].ns] == init[i].xaddr
    requires entries[|entries| - 1].ns !in m
    ensures var last := entries[|entries| - 1];
      var m' := m[last.ns := last.xaddr];
      forall i :: 0 <= i < |entries| ==> m'[entries[i].ns] == entries[i].xaddr
  {
    var n := |entries| - 1;
    var init := entries[..n];
    var last := entries[n];
    var m' := m[last.ns := last.xaddr];
    forall i | 0 <= i < |entries| ensures m'[entries[i].ns] == entries[i].xaddr {
      if i < n {
        assert entries[i] == init[i];
      }
    }
  }

  lemma DistinctExtends(entries: seq<ServiceEntry>)
    requires |entries| > 0
    requires DistinctNamespaces(entries[..|entries| - 1])
    requires entries[|entries| - 1].ns !in Namespaces(entries[..|entries| - 1])
    ensures DistinctNamespaces(entries)
  {
    var n := |entries| - 1;
    var init := entries[..n];
    forall i, j | 0 <= i < j < |entries| ensures entries[i].ns != entries[j].ns {
      assert entries[i] == init[i];
      if j == n {
        assert init[i].ns in Namespaces(init);
      } else {
        assert entries[j] == init[j];
      }
    }
  }

  lemma NamespacesExtend(entries: seq<ServiceEntry>)
    requires |entries| > 0
    ensures Namespaces(entries) == Namespaces(entries[..|entries| - 1]) + {entries[|entries| - 1].ns}
  {
    var n := |entries| - 1;
    var init := entries[..n];
    forall ns | ns in Namespaces(entries) ensures ns in Namespaces(init) + {entries[n].ns} {
      var i :| 0 <= i < |entries| && entries[i].ns == ns;
      if i < n { assert init[i].ns == ns; }
    }
    forall ns | ns in Namespaces(init) ensures ns in Namespaces(entries) {
      var i :| 0 <= i < n && init[i].ns == ns;
      assert entries[i].ns == ns;
    }
  }

  /** A device reporting one namespace twice yields no dictionary. */
  lemma DuplicateNamespaceRejected(ns: string, a: string, b: string)
    ensures ToDictionary([ServiceEntry(ns, a), ServiceEntry(ns, b)]) == Err(DuplicateKey)
  {
    var entries := [ServiceEntry(ns, a), ServiceEntry(ns, b)];
    assert entries[0].ns == entries[1].ns;
  }

  datatype FetchResult = FetchResult(session: Session, services: Option<map<string, string>>)

  /** `DoGetServices`: the namespace-to-XAddr map of the reply; any exception, including a
      repeated namespace, yields `null`. */
  function DoGetServices(s: Session, script: FetchScript): (r: FetchResult)
    ensures r.session == GetDevice(s, script).session
    ensures r.services.Some? <==>
      GetDevice(s, script).client.Ok? && script.servicesReply.Ok? && DistinctNamespaces(script.servicesReply.value)
    ensures r.services.Some? ==>
      var entries := script.servicesReply.value;
      && |r.services.value| == |entries|
      && r.services.value.Keys == Namespaces(entries)
      && forall i :: 0 <= i < |entries| ==> r.services.value[entries[i].ns] == entries[i].xaddr
  {
    var device := GetDevice(s, script);
    if device.client.Err? then FetchResult(device.session, None)
    else
      match script.servicesReply
      case Err(_) => FetchResult(device.session, None)
      case Ok(entries) =>
        match ToDictionary(entries)
        case Err(_) => FetchResult(device.session, None)
        case Ok(m) => FetchResult(device.session, Some(m))
  }

  /** `GetServicesAsync`: reuses a finished fetch; otherwise fetches. A `null` result clears
      the memo so that the next call fetches again. */
  function GetServices(s: Session, script: FetchScript): (r: FetchResult)
    ensures s.memo.Fetched? ==> r.services == s.memo.result
    ensures s.memo.Fetched? ==> r.session.(memo := s.memo) == s
    ensures s.memo.NoFetch? ==> r.services == DoGetServices(s, script).services
    ensures s.memo.NoFetch? ==> r.session.(memo := NoFetch) == DoGetServices(s, script).session
    ensures r.services.None? ==> r.session.memo == NoFetch
    ensures r.services.Some? ==> r.session.memo == Fetched(r.services)
  {
    match s.memo
    case Fetched(result) => FetchResult(if result.None? then s.(memo := NoFetch) else s, result)
    case NoFetch =>
      var fetched := DoGetServices(s, script);
      FetchResult(fetched.session.(memo := if fetched.services.None? then NoFetch else Fetched(fetched.services)),
                  fetched.services)
  }

  /** After a call that returned `null`, the next call fetches afresh. */
  lemma {:induction false} FailedFetchIsRetried(s: Session, script: FetchScript, script': FetchScript)
    requires GetServices(s, script).services.None?
    ensures var s' := GetServices(s, script).session;
      GetServices(s', script').services == DoGetServices(s', script').services
  {
  }

  /** Once a map has been fetched, every later call returns that same map without fetching. */
  lemma {:induction false} FetchedMapIsReused(s: Session, script: FetchScript, script': FetchScript)
    requires GetServices(s, script).services.Some?
    ensures var s' := GetServices(s, script).session;
      GetServices(s', script') == FetchResult(s', GetServices(s, script).services)
  {
  }

  /** The private constructor: no token, an expiry equal to the clock at construction, no
      fetch yet, and an empty cache with the default time-to-live. */
  function NewSession(ip: string, port: int, username: string, password: string, now: DateTime): (s: Session)
    ensures s.url == CreateUrl(ip, port) && s.ip == ip && s.port == port
    ensures s.username == username && s.password == password
    ensures s.factory.token.None? && s.tokenExpiry == now && s.memo.NoFetch?
    ensures s.cache.entries == map[] && s.cache.ttl == 6_000_000_000
  {
    Session(CreateUrl(ip, port), ip, port, username, password, NewFactory(), now, NoFetch, NewCache(None))
  }

  /** `Create`: the constructor, then `InitAsync`, which stores its fetch without clearing a
      `null` result. */
  function Create(ip: string, port: int, username: string, password: string, now: DateTime,
                  init: FetchScript): (s: Session)
    ensures s.url == CreateUrl(ip, port) && s.ip == ip && s.port == port
    ensures s.username == username && s.password == password
    ensures s.memo == Fetched(DoGetServices(NewSession(ip, port, username, password, now), init).services)
    ensures s.memo.result.Some? <==>
      && GetDevice(NewSession(ip, port, username, password, now), init).client.Ok?
      && init.servicesReply.Ok? && DistinctNamespaces(init.servicesReply.value)
    ensures s.cache.entries == map[] && s.cache.ttl == 6_000_000_000
  {
    var fetched := DoGetServices(NewSession(ip, port, username, password, now), init);
    fetched.session.(memo := Fetched(fetched.services))
  }

  /** A failed initial fetch is reported once, by the first call, without fetching again; the
      call after that fetches afresh. */
  lemma FailedInitReportedOnce(ip: string, port: int, username: string, password: string, now: DateTime,
                               init: FetchScript, script: FetchScript, script': FetchScript)
    requires DoGetServices(NewSession(ip, port, username, password, now), init).services.None?
    ensures var s := Create(ip, port, username, password, now, init);
      var first := GetServices(s, script);
      && first.services.None? && first.session == s.(memo := NoFetch)
      && GetServices(first.session, script').services == DoGetServices(first.session, script').services
  {
  }

  /** `IsAlive`: the service map exists and has at least one entry. Stated in terms of what
      the device reported: the stored fetch when there is one, otherwise the fresh reply. */
  function IsAlive(s: Session, script: FetchScript): (r: (Session, bool))
    ensures r.0 == GetServices(s, script).session
    ensures s.memo.Fetched? ==> (r.1 <==> s.memo.result.Some? && |s.memo.result.value| > 0)
    ensures s.memo.NoFetch? ==>
      (r.1 <==> && GetDevice(s, script).client.Ok? && script.servicesReply.Ok?
                && DistinctNamespaces(script.servicesReply.value) && |script.servicesReply.value| > 0)
  {
    var fetched := GetServices(s, script);
    (fetched.session, fetched.services.Some? && |fetched.services.value| > 0)
  }

  /** An empty reply means not alive; one entry means alive. */
  lemma IsAliveScenarios(s: Session, script: FetchScript, ns: string, xaddr: string)
    requires s.memo.NoFetch? && GetDevice(s, script).client.Ok?
    ensures !IsAlive(s, script.(servicesReply := Ok([]))).1
    ensures IsAlive(s, script.(servicesReply := Ok([ServiceEntry(ns, xaddr)]))).1
  {
    var one := script.(servicesReply := Ok([ServiceEntry(ns, xaddr)]));
    assert GetDevice(s, one) == GetDevice(s, script);
    assert GetDevice(s, script.(servicesReply := Ok([]))) == GetDevice(s, script);
  }

  // ---------------------------------------------------------------------------------------
  // Service accessors

  datatype Access<T> = Access(session: Session, service: Option<T>, attempts: seq<Attempt>)

  /** `GetMediaService`: through the cache, keyed by the media type. */
  function GetMediaService(s: Session, script: FetchScript, now: DateTime, storedAt: DateTime,
                           candidates: seq<string>, create: (string, string) -> Construction<ServiceHandle>): (r: Access<ServiceHandle>)
    ensures var fetched := GetServices(s, script);
      && (fetched.services.None? ==> r == Access(fetched.session, None, []))
      && (fetched.services.Some? ==>
            var lookup := GetService(fetched.session.cache, MediaCapability, now.ticks, storedAt.ticks,
                                     candidates, fetched.services.value, create);
            r == Access(fetched.session.(cache := lookup.cache), lookup.service, lookup.attempts))
    ensures r.session.cache.entries.Keys <= s.cache.entries.Keys + {MediaCapability}
  {
    var fetched := GetServices(s, script);
    match fetched.services
    case None => Access(fetched.session, None, [])
    case Some(services) =>
      var lookup := GetService(fetched.session.cache, MediaCapability, now.ticks, storedAt.ticks, candidates, services, create);
      Access(fetched.session.(cache := lookup.cache), lookup.service, lookup.attempts)
  }

  /** `GetPtzService`: through the cache, keyed by the PTZ type. */
  function GetPtzService(s: Session, script: FetchScript, now: DateTime, storedAt: DateTime,
                         candidates: seq<string>, create: (string, string) -> Construction<ServiceHandle>): (r: Access<ServiceHandle>)
    ensures var fetched := GetServices(s, script);
      && (fetched.services.None? ==> r == Access(fetched.session, None, []))
      && (fetched.services.Some? ==>
            var lookup := GetService(fetched.session.cache, PtzCapability, now.ticks, storedAt.ticks,
                                     candidates, fetched.services.value, create);
            r == Access(fetched.session.(cache := lookup.cache), lookup.service, lookup.attempts))
    ensures r.session.cache.entries.Keys <= s.cache.entries.Keys + {PtzCapability}
  {
    var fetched := GetServices(s, script);
    match fetched.services
    case None => Access(fetched.session, None, [])
    case Some(services) =>
      var lookup := GetService(fetched.session.cache, PtzCapability, now.ticks, storedAt.ticks, candidates, services, create);
      Access(fetched.session.(cache := lookup.cache), lookup.service, lookup.attempts)
  }

  /** `GetEventService`: bypasses the cache and resolves a new event service on every call. */
  function GetEventService(s: Session, script: FetchScript, init: InitScript): (r: Access<EventService>)
    ensures r.session == GetServices(s, script).session
    ensures r.session.cache == s.cache
    ensures GetServices(s, script).services.None? ==> r.service.None? && r.attempts == []
    ensures GetServices(s, script).services.Some? ==>
      var services := GetServices(s, script).services.value;
      && (r.service.Some? <==>
            (WsdlV10 in services && CreateAsync(services[WsdlV10], s.username, s.password, WsdlV10, init).Built?))
      && r.attempts == (if WsdlV10 in services then [Attempt(services[WsdlV10], WsdlV10)] else [])
  {
    var fetched := GetServices(s, script);
    match fetched.services
    case None => Access(fetched.session, None, [])
    case Some(services) =>
      var create := (url: string, wsdl: string) => CreateAsync(url, s.username, s.password, wsdl, init);
      var resolution := TryCreateService(SupportedWsdls, services, create);
      assert SupportedWsdls[1..] == [];
      Access(fetched.session, resolution.service, resolution.attempts)
  }
}
