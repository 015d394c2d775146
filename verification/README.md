# OnvifLib session and subscription engine, in Dafny

This project models the decision rules of an ONVIF camera client. They sit on top of its
WCF/SOAP plumbing:

- **Capability resolution** (`OnvifServiceSelector.TryCreateService`). It runs an ordered
  search of a service type's candidate WSDL namespaces against the device's
  namespace-to-URL map. A construction that throws is swallowed.
- **The per-type service cache** (`OnvifServiceCache`). Entries have a time-to-live, which
  defaults to ten minutes. The cache also has `Invalidate` and `Clear`.
- **Security-token plumbing**:
  - `SecurityToken` is an immutable `(ServerTime, NonceBytes)` record.
  - The client factory (`OnvifClientFactory`) attaches one digest header iff it holds a token.
  - The message inspector prepends the configured headers, which reverses their order. It
    also marks WS-Security reply headers as understood.
  - The service base class (`OnvifServiceBase`) issues a token from the device clock.
- **The event service** (`EventService1`):
  - its single candidate WSDL;
  - its initialisation and the pull-point address it builds;
  - `StartReceiving`/`StopReceiving` and `Dispose`;
  - the receive loop: pull, renew every half termination time, a 2000 ms backoff after a
    fault, and one `Unsubscribe` after cancellation.
- **The camera session** (`Camera`):
  - device URL construction;
  - the one-minute token lifetime and token issuance;
  - the device-time query;
  - the memoised service-map fetch, `IsAlive`, and the media/PTZ/event accessors.

Every remote call is an input to the model. A call either succeeds with its reply or throws
a communication fault. Clocks are explicit `DateTime` tick readings, one per reading in the
source. The loop's tick counter is an unbounded integer. The random nonce is an input of
20 bytes. The objects are immutable datatypes, and each operation is a function that returns
the new state with its result.

The model keeps the library's behaviour as written, including these points where the code
may surprise a reader:

- The event service's only candidate is the ver10 **media** namespace. A device that lists
  only its events namespace gets no event service (`EventService.EventsNamespaceAloneResolvesNothing`).
- A repeated namespace in the `GetServices` reply makes `ToDictionary` throw. The fetch then
  returns `null`; it does not keep the last value.
- Resolution can return `null` even though a candidate is present: the construction may
  throw (`ServiceSelector.PresentCandidateMayResolveToNull`).
- The 2000 ms backoff is not cancellable. Cancellation is only observed at the loop head.
- `Dispose` closes the event and pull clients, never the subscription-manager client.
- `EventService1.CreateAsync` runs the event service's own `InitializeAsync`. That method
  hides the base class's method and does not call it. So for the event service, a failed
  device-time query is not swallowed: construction throws and resolution skips the candidate.
- `Camera.InitAsync` stores its fetch without clearing a `null` result. After a failed
  initial fetch, the first `GetServicesAsync` returns `null` without fetching and clears the
  memo. The next call fetches.
- The cache stores the clock reading taken after resolution, not the one used for the
  freshness test.
- `Camera.cs` calls `GetSecurityToken()` on the factory, but `OnvifClientFactory.cs` does not
  define it. It is modelled as reading the stored token. `SetSecurityToken(null)` stores "no
  token".

Modules, one per source file or concept: `Outcomes` (Option, faults, outcomes), `Text`
(substring search, decimal formatting and parsing), `Clock` (`DateTime` ticks and accessors,
device time conversion), `SecurityTokens`, `MessageInspector`, `ClientFactory`,
`ServiceSelector`, `ServiceCache`, `ServiceBase`, `EventService`, `Camera`.

## Model

| member | source | states |
|---|---|---|
| Text.Contains | Behaviour/CustomMessageInspector.cs:20 | the ordinal substring test holds iff the needle occurs at some index of the string |
| Clock.FromDeviceUtc | OnvifServiceBase.cs:59-68 | the timestamp exists iff the fields are a valid date and time. It is UTC with zero milliseconds and whole seconds, and its hour, minute, second and day number are the device's. An impossible field throws ArgumentOutOfRange |
| MessageInspector.BeforeSendRequest | Behaviour/CustomMessageInspector.cs:24-36 | the sent headers are the configured headers in reverse list order, followed by the original headers unchanged. The body is untouched. With no configured headers the request is unchanged. The request itself is returned as correlation state |
| MessageInspector.Reversed | Behaviour/CustomMessageInspector.cs:32-33 | element i of the result is element n-1-i of the input |
| MessageInspector.UnderstoodAmong | Behaviour/CustomMessageInspector.cs:19-21 | a header is selected iff it is in the reply and passes the Security/secext test |
| MessageInspector.AfterReceiveReply | Behaviour/CustomMessageInspector.cs:13-22 | the reply's header list is unchanged. The understood list keeps its old entries and gains exactly the passing headers |
| MessageInspector.UnderstoodExamples | Behaviour/CustomMessageInspector.cs:9-21 | the name test is case-sensitive, and a header outside the WS-Security secext namespace is not marked |
| ClientFactory.NewFactory | OnvifClientFactory.cs:9 | a new factory holds no token, so every client it creates carries no digest header |
| ClientFactory.SetSecurityToken | OnvifClientFactory.cs:38-41 | the stored token becomes exactly the given one, `null` included |
| ClientFactory.LastTokenDecidesHeaders | OnvifClientFactory.cs:30-31 | after SetSecurityToken, created clients carry one digest header for the token set last, whatever was held before, and none after setting `null` |
| ClientFactory.CreateClient | OnvifClientFactory.cs:10-36 | both credential slots get the same user name and password. The client's own inspector holds exactly one digest header, carrying the held token, iff the factory holds a token; otherwise it holds none |
| ServiceSelector.TryCreateService | OnvifServiceSelector.cs:8-33 | the result is null iff no candidate is present and constructs to non-null. Otherwise it is the instance of the first such candidate. The attempts are exactly the present candidates in order, up to that one, or all of them when the result is null |
| ServiceSelector.AttemptsUseMapUrls | OnvifServiceSelector.cs:15-21 | every construction is of a candidate present in the map, at the map's URL for it, with that candidate as profile |
| ServiceSelector.NoCandidatePresent | OnvifServiceSelector.cs:15-32 | with no candidate in the map the result is null and nothing is constructed |
| ServiceSelector.PresentCandidateMayResolveToNull | OnvifServiceSelector.cs:19-32 | a present candidate whose construction throws gives a null result after one attempt |
| ServiceSelector.SecondCandidateSelected | OnvifServiceSelector.cs:15-23 | with the first candidate absent, the second is constructed once and selected |
| ServiceCache.NewCache | OnvifServiceCache.cs:19-25 | a new cache is empty, and its time-to-live is the given one or ten minutes |
| ServiceCache.GetService | OnvifServiceCache.cs:27-50 | the lookup avoids resolution iff an entry exists and is strictly younger than the TTL. A miss returns the resolution's result; a non-null result replaces the entry with the post-resolution time, and a null result leaves the cache unchanged. Other types' entries are untouched |
| ServiceCache.Invalidate | OnvifServiceCache.cs:55-58 | only the given type's entry is removed |
| ServiceCache.Clear | OnvifServiceCache.cs:63-66 | the cache is left empty with the same TTL |
| ServiceCache.HitWithinTtl | OnvifServiceCache.cs:33-46 | a service stored by a lookup is returned, without resolving, by any lookup less than the TTL after it was stored |
| ServiceCache.StaleAtTtl | OnvifServiceCache.cs:35 | an entry exactly TTL old is a miss |
| ServiceCache.InvalidateForcesResolution | OnvifServiceCache.cs:55-58 | after Invalidate the next lookup resolves and returns the resolution's result |
| ServiceCache.ClearForcesResolution | OnvifServiceCache.cs:63-66 | after Clear every lookup resolves |
| ServiceBase.NewServiceBase | OnvifServiceBase.cs:15-23 | each service starts with a factory of its own holding no token |
| ServiceBase.GetDeviceTime | OnvifServiceBase.cs:45-69 | succeeds iff the client opens, the query answers, and any reported fields are valid. With no UTC time the result is the local clock. Otherwise it is the device time truncated to whole seconds |
| ServiceBase.Initialize | OnvifServiceBase.cs:24-44 | the service changes only when a user name is set and the device time was obtained, and then it holds the token made of that time and the nonce. Faults leave it as it was |
| ServiceBase.InitializedTokenRule | OnvifServiceBase.cs:24-44 | a new service holds a token after initialisation iff a user name is set and the time was obtained. Its nonce is 20 bytes |
| EventService.NewEventService | ServicesImp/EventService1.cs:14-26 | a constructed service has the base fields, no clients, no pull-point address, no cancellation source and a 30 s termination time, so StartReceiving throws until it is initialised |
| EventService.AddressHeaders | ServicesImp/EventService1.cs:57-61 | one address header per element, in element order |
| EventService.PullPointAddress | ServicesImp/EventService1.cs:53-63 | the address is the reference's, with one header per reference-parameter element in order. There are none when the parameters or their elements are absent |
| EventService.Initialize | ServicesImp/EventService1.cs:38-94 | succeeds iff every call succeeds. The event client is created before any token. The pull and manager clients share the pull-point address and carry one digest header iff a token was set, which happens iff the user name is non-empty |
| EventService.CreateAsync | ServicesImp/EventService1.cs:31-37 | construction is never null. It throws iff initialisation fails. The event client has no header, and the pull client has one iff a user name is set |
| EventService.EventsNamespaceAloneResolvesNothing | ServicesImp/EventService1.cs:12-30 | the only candidate is the ver10 media namespace, so a map listing only the events namespace resolves nothing and constructs nothing |
| EventService.StartReceiving | ServicesImp/EventService1.cs:122-134 | throws InvalidOperation iff the pull client was never created. Otherwise it installs a fresh, uncancelled cancellation source and changes nothing else |
| EventService.StopReceiving | ServicesImp/EventService1.cs:136-139 | cancels the installed source, or does nothing when none is installed |
| EventService.CreatedServiceCanStart | ServicesImp/EventService1.cs:122-134 | a service returned by CreateAsync can always start receiving |
| EventService.LoopConfigOf | ServicesImp/EventService1.cs:143 | the renew interval is half the termination time, truncated, and renewal requires a manager client |
| EventService.Step | ServicesImp/EventService1.cs:148-185 | the renew clock becomes the pre-Renew tick iff the iteration reaches Renew, even if Renew then fails. An iteration never unsubscribes |
| EventService.StepCalls | ServicesImp/EventService1.cs:150-179 | an iteration pulls (PT1S, 1024) iff the pull client is or becomes open. It delivers a successful pull's messages. It renews iff the pull succeeded, more than the interval has passed, and the manager client exists and is or becomes open |
| EventService.StepPullsBeforeRenew | ServicesImp/EventService1.cs:155-179 | within an iteration the pull comes before the renewal |
| EventService.StepBacksOffIffFaulted | ServicesImp/EventService1.cs:181-185 | an iteration ends with a 2000 ms wait iff a call in it threw, and waits nowhere else |
| EventService.Run | ServicesImp/EventService1.cs:141-200 | the loop returns only true, and never unsubscribes before it returns |
| EventService.ReceiveLoop | ServicesImp/EventService1.cs:141-146 | the loop of a service, with its renew interval taken from the service's termination time, returns (true) only after some iteration observed cancellation, and never unsubscribes before returning |
| EventService.CreatedServiceLoopConfig | ServicesImp/EventService1.cs:141-143 | a service built by CreateAsync loops with a 15 000 ms renew interval, a 30 000 ms termination time and a manager client |
| EventService.CancellationEndsLoop | ServicesImp/EventService1.cs:146-199 | once cancellation is observed no further pull or renew happens. Exactly one Unsubscribe follows when a manager client exists, and the loop returns true |
| EventService.FaultsDoNotEndLoop | ServicesImp/EventService1.cs:146-186 | without cancellation the loop never returns or unsubscribes, whatever faults occur, and makes at least one call per iteration |
| EventService.RunTracksLastRenew | ServicesImp/EventService1.cs:144-179 | the loop's renew clock after some iterations is the one each iteration's rule produces in turn |
| EventService.RenewalsAreSpaced | ServicesImp/EventService1.cs:166-178 | between consecutive renewals, the tick checked for the second exceeds the reset tick of the first by more than the interval, even if the first Renew failed |
| EventService.FirstRenewalIsSpaced | ServicesImp/EventService1.cs:143-166 | the first renewal happens only after more than the interval since the loop started |
| EventService.Dispose | ServicesImp/EventService1.cs:202-207 | the event and pull clients are closed when they exist; the manager client never is |
| Camera.CreateUrl | Camera.cs:100-103 | the URL starts with http:// and ends with /onvif/device_service, and what lies between is the ip, a colon and the port |
| Camera.SplitCreatedUrl | Camera.cs:100-103 | splitting a created URL at the last colon between scheme and path gives back the ip and the port, even when the ip itself contains colons |
| Text.ParseIntOfDecimal | Camera.cs:102 | the invariant-culture decimal spelling of the port (ASCII '-' for a negative one) parses back to the same integer |
| Camera.ExpireToken | Camera.cs:31-35 | once the expiry is reached it moves one minute past now and the token is dropped; before that nothing changes |
| Camera.GetDeviceTime | Camera.cs:63-91 | always drops the factory token. The result is null iff the device reports no UTC time, and otherwise it is a UTC time with zero milliseconds and the device's fields. A failed query or an impossible date throws |
| Camera.GetDevice | Camera.cs:28-62 | applies the expiry rule. A token is issued iff a user name is set and none is held; it carries the device time, or the local clock when the device has none, and the nonce. A client is returned iff it opens and no needed time query failed; a failed time query leaves no token and its fault is thrown. The client is at the camera URL with the session's credentials and has one digest header iff a token is held |
| Camera.TokenReusedWithinMinute | Camera.cs:31-49 | within a minute of a reset that issued a token, GetDevice changes nothing and does not re-issue |
| Camera.TokenReissuedAfterMinute | Camera.cs:31-48 | after the expiry a fresh token is issued from the local clock when the device has no UTC time, and the expiry is one minute past now |
| Camera.ToDictionary | Camera.cs:216 | succeeds iff no namespace repeats (otherwise DuplicateKey). The keys are the reply's namespaces, the size equals the reply's, and each namespace maps to its XAddr |
| Camera.DuplicateNamespaceRejected | Camera.cs:216-222 | two entries with one namespace yield no dictionary |
| Camera.DoGetServices | Camera.cs:210-223 | a map is returned iff the device client opened, the reply arrived, and its namespaces are distinct. It maps each namespace to its XAddr. Any exception yields null |
| Camera.GetServices | Camera.cs:146-160 | a finished fetch is reused without fetching; otherwise a fetch is made. A null result clears the memo and a map is memoised |
| Camera.FailedFetchIsRetried | Camera.cs:153-157 | after a null result the next call fetches afresh |
| Camera.FetchedMapIsReused | Camera.cs:148-151 | once a map is fetched every later call returns it and changes nothing |
| Camera.NewSession | Camera.cs:111-138 | the constructor sets URL, ip, port and credentials; it holds no token, its expiry is the construction time, nothing is fetched, and the cache is empty with a ten-minute TTL |
| Camera.Create | Camera.cs:105-144 | the session's URL is CreateUrl(ip, port) and its credentials are the given ones. The memo holds the result of the initial fetch from the constructed session, which is a map iff the device client was obtained and the reply arrived with distinct namespaces. The cache is empty with a ten-minute TTL |
| Camera.FailedInitReportedOnce | Camera.cs:140-160 | a failed initial fetch is returned once without fetching and the memo is cleared; the next call fetches |
| Camera.IsAlive | Camera.cs:205-209 | with a stored fetch: alive iff it holds a non-empty map. Without one: alive iff the device client is obtained and the reply arrives with distinct namespaces and at least one entry |
| Camera.IsAliveScenarios | Camera.cs:205-209 | an empty reply means not alive; a one-entry reply means alive |
| Camera.GetMediaService | Camera.cs:162-171 | without a map the result is null and nothing is resolved. Otherwise it is the cache lookup for the media type, and only that cache entry can be added |
| Camera.GetPtzService | Camera.cs:184-194 | without a map the result is null and nothing is resolved. Otherwise it is the cache lookup for the PTZ type, and only that cache entry can be added |
| Camera.GetEventService | Camera.cs:173-182 | the cache is untouched. Without a map the result is null with no attempt. Otherwise it is non-null iff the ver10 media namespace is present and the construction at its URL succeeds, and that is the only attempt |

## Left out

- WCF/SOAP transport is not modelled: bindings, `OpenAsync`/`Close`, client `State` and envelope encoding. Each remote call is an input that succeeds or throws a communication fault.
- The background `Task.Run` and `CancellationTokenSource` mechanics are not modelled. Cancellation is a flag observed once per loop iteration. Races are not modelled: two concurrent cache misses, a second `StartReceiving` replacing the source of a running loop, and the lambda reading the `_cts` field late.
- `Environment.TickCount` wrap-around is not modelled; ticks are unbounded integers.
- The contents of `DigestSecurityHeader` (the WS-Security UsernameToken digest) and of `CustomAddressHeader` are not part of this model. A header is a record of its inputs.
- `XmlConvert.ToString(TimeSpan)` is not modelled: `Renew` records the termination time in milliseconds, not as the `PT30S` string.
- `Camera.ParseEvent` (XML parsing of notifications), `GetProfiles`, and the media services `ServicesImp/MediaService1.cs` and `ServicesImp/MediaService2.cs` are not part of this model. The candidate WSDL lists and constructors of the media and PTZ types are not among the modelled files. They are parameters of the accessors.
- Random nonce generation is not modelled; the nonce is an input of exactly 20 bytes.
- Console logging is not modelled.
- Camera.Create: the constructor's `new EndpointAddress(_url)` throws `UriFormatException` when the URL is not a valid URI, for example a port outside 0..65535 or an IPv6 literal without brackets. The model does not validate URIs and always returns a session, so it does not promise that exception. The binding timeouts (`timeout`) are transport settings and are not modelled either.
- Camera.CreateUrl: the port is spelled as invariant-culture digits with an ASCII '-' sign. The source's interpolation formats with the current culture, which may use a different minus sign (such as U+2212) for a negative port; that case is not modelled.
- Camera.DoGetServices: `new EndpointAddress(_url)` inside `GetDevice` can also throw for an invalid URL; that would make the fetch return `null`, and the model does not include it.
- Camera.GetDevice: the source reads `DateTime.UtcNow` twice, for the expiry test and for the new expiry. The model uses one reading for both.
- Clock.FromDeviceUtc: states the day number of the date, not that year, month and day can be read back from it. No inverse of the calendar computation is modelled.
- Clock.AddMinutes: the upper bound of the `DateTime` range (an overflow exception) is not modelled.
- Text.Contains: the source finds "Security" with a culture-aware `IndexOf(..., InvariantCulture)`. The model uses ordinal matching, so ignorable code points are not skipped.
- EventService.PullPointAddress: a malformed subscription address is not modelled (it would make `new Uri` throw).
- EventService.Step: an `OnEventReceived` handler that throws is not modelled. In the source that would also lead to the backoff.
- `null` strings and partly-null replies are not modelled: an absent `Date` or `Time` inside `UTCDateTime`, or a `null` user name. Strings are never null. The null check of the inspector's `Headers` property is unreachable, because the property is get-only and initialised, so it has no model.
- Disposal of the device clients created under `using` is not modelled, and neither are faults raised by that disposal.
- The subscription-renewal deadline is not modelled as a whole-run property. The model proves the spacing between renewals; whether each renewal lands before the termination time also depends on call latency, which is not modelled.
