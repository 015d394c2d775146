/**
 The pull-point event service (`EventService1`): its single candidate WSDL,
 its initialisation (event client, pull-point subscription, token, pull and
 subscription-manager clients), and the receive loop that pulls messages,
 renews the subscription every half termination time, backs off after a
 fault and unsubscribes once when cancelled.

 The loop is modelled iteration by iteration: each iteration is given what
 the loop observes (the cancellation flag, the client states, the outcome of
 every remote call and the tick counter readings) and yields the remote calls
 it makes, in order.
 */
module EventService {
  import opened Outcomes
  import opened Clock
  import opened SecurityTokens
  import opened ClientFactory
  import opened ServiceSelector
  import opened ServiceBase

  /** The only candidate of the event service: the ver10 *media* namespace (not the events one). */
  const WsdlV10: string := "http://www.onvif.org/ver10/media/wsdl"
  const SupportedWsdls: seq<string> := [WsdlV10]

  /** Subscription termination time requested at creation and on every renewal: 30 s. */
  const TerminationTimeMs: int := 30_000
  /** `PullMessages` arguments: a one-second server wait (`PT1S`) and at most 1024 messages. */
  const PullTimeout: string := "PT1S"
  const MessageLimit: int := 1024
  /** The fixed wait after a failed iteration. */
  const BackoffMs: int := 2000

  datatype ReferenceParameters = ReferenceParameters(any: Option<seq<XmlElement>>)

  /** The subscription reference returned by `CreatePullPointSubscription`. */
  datatype SubscriptionReference = SubscriptionReference(address: string, referenceParameters: Option<ReferenceParameters>)

  datatype CancellationSource = CancellationSource(cancelled: bool)

  datatype EventService = EventService(
    base: ServiceBase,
    eventClient: Option<Client>,
    pullClient: Option<Client>,
    managerClient: Option<Client>,
    pullPointAddress: Option<EndpointAddress>,
    terminationTimeMs: int,
    cts: Option<CancellationSource>)

  /** The protected constructor: nothing created yet, termination time 30 s, so receiving
      cannot start before initialisation. */
  function NewEventService(url: string, username: string, password: string, profile: string): (e: EventService)
    ensures e.base == NewServiceBase(url, username, password, profile)
    ensures e.eventClient.None? && e.pullClient.None? && e.managerClient.None? && e.pullPointAddress.None?
    ensures e.terminationTimeMs == 30_000 && e.cts.None?
    ensures StartReceiving(e).Err?
  {
    EventService(NewServiceBase(url, username, password, profile), None, None, None, None, TerminationTimeMs, None)
  }

  /** The reference-parameter elements; none when the parameters or their element array are `null`. */
  function ReferenceElements(reference: SubscriptionReference): seq<XmlElement>
  {
    match reference.referenceParameters
    case None => []
    case Some(parameters) => if parameters.any.Some? then parameters.any.value else []
  }

  function AddressHeaders(elements: seq<XmlElement>): (hs: seq<AddressHeader>)
    ensures |hs| == |elements|
    ensures forall i :: 0 <= i < |elements| ==> hs[i] == CustomAddressHeader(elements[i])
  {
    if |elements| == 0 then [] else [CustomAddressHeader(elements[0])] + AddressHeaders(elements[1..])
  }

  /** The pull-point address: the reference's address, with one header per reference
      parameter element, in element order. */
  function PullPointAddress(reference: SubscriptionReference): (a: EndpointAddress)
    ensures a.uri == reference.address
    ensures |a.headers| == |ReferenceElements(reference)|
    ensures forall i :: 0 <= i < |a.headers| ==> a.headers[i] == CustomAddressHeader(ReferenceElements(reference)[i])
    ensures reference.referenceParameters.None? ==> a.headers == []
    ensures reference.referenceParameters.Some? && reference.referenceParameters.value.any.None? ==> a.headers == []
  {
    EndpointAddress(reference.address, AddressHeaders(ReferenceElements(reference)))
  }

  /** What the device does during `InitializeAsync`, call by call. */
  datatype InitScript = InitScript(
    eventOpenOk: bool,
    subscription: Outcome<SubscriptionReference>,
    deviceTime: DeviceTimeCall,
    nonce: Nonce,
    pullOpenOk: bool,
    managerOpenOk: bool)

  /** Every call of `InitializeAsync` succeeded; any failure is thrown to the caller. */
  predicate InitSucceeds(s: EventService, script: InitScript)
  {
    script.eventOpenOk && script.subscription.Ok? && GetDeviceTime(s.base, script.deviceTime).Ok?
    && script.pullOpenOk && script.managerOpenOk
  }

  /** `EventService1.InitializeAsync` (which hides, and does not call, the base initialisation). */
  function Initialize(s: EventService, script: InitScript): (r: Outcome<EventService>)
    ensures r.Ok? <==> InitSucceeds(s, script)
    ensures r.Ok? ==> var e := r.value;
      && e.base.url == s.base.url && e.base.username == s.base.username
      && e.eventClient.Some? && e.pullClient.Some? && e.managerClient.Some?
      && e.eventClient.value.endpoint == EndpointAddress(s.base.url, [])
      && e.eventClient.value.inspectorHeaders == CreateClient(s.base.factory, EndpointAddress(s.base.url, []), s.base.username, s.base.password).inspectorHeaders
      && e.pullPointAddress == Some(PullPointAddress(script.subscription.value))
      && e.pullClient.value.endpoint == e.managerClient.value.endpoint == PullPointAddress(script.subscription.value)
      && (|s.base.username| > 0 ==>
            e.base.factory.token == Some(SecurityToken(GetDeviceTime(s.base, script.deviceTime).value, script.nonce)))
      && (|s.base.username| == 0 ==> e.base.factory == s.base.factory)
      && e.pullClient.value.inspectorHeaders == e.managerClient.value.inspectorHeaders
      && |e.pullClient.value.inspectorHeaders| == (if e.base.factory.token.Some? then 1 else 0)
      && e.cts == s.cts && e.terminationTimeMs == s.terminationTimeMs
  {
    var eventClient := CreateClient(s.base.factory, EndpointAddress(s.base.url, []), s.base.username, s.base.password);
    if !script.eventOpenOk then Err(CommunicationFault)
    else
      match script.subscription
      case Err(f) => Err(f)
      case Ok(reference) =>
        var address := PullPointAddress(reference);
        match GetDeviceTime(s.base, script.deviceTime)
        case Err(f) => Err(f)
        case Ok(deviceTime) =>
          var factory :=
            if |s.base.username| > 0 then SetSecurityToken(s.base.factory, Some(SecurityToken(deviceTime, script.nonce)))
            else s.base.factory;
          var pullClient := CreateClient(factory, address, s.base.username, s.base.password);
          var managerClient := CreateClient(factory, address, s.base.username, s.base.password);
          if !script.pullOpenOk || !script.managerOpenOk then Err(CommunicationFault)
          else
            Ok(s.(base := s.base.(factory := factory), eventClient := Some(eventClient),
                  pullClient := Some(pullClient), managerClient := Some(managerClient),
                  pullPointAddress := Some(address)))
  }

  /** `CreateAsync`: construct and initialise; the result is never `null`, and a failed
      initialisation throws. */
  function CreateAsync(url: string, username: string, password: string, profile: string,
                       script: InitScript): (r: Construction<EventService>)
    ensures r.Built? ==> r.instance.Some? && r.instance.value.pullClient.Some?
    ensures r.Built? <==> InitSucceeds(NewEventService(url, username, password, profile), script)
    ensures r.Built? ==> var e := r.instance.value;
      && e.eventClient.Some? && e.eventClient.value.inspectorHeaders == []
      && (|e.pullClient.value.inspectorHeaders| == 1 <==> |username| > 0)
      && e.base.profile == profile
  {
    match Initialize(NewEventService(url, username, password, profile), script)
    case Ok(e) => Built(Some(e))
    case Err(f) => Threw(f)
  }

  /** Resolving the event service needs the ver10 media namespace in the map: a device
      that lists only its events namespace yields no event service and no construction. */
  lemma EventsNamespaceAloneResolvesNothing(eventsUrl: string, create: (string, string) -> Construction<EventService>)
    ensures TryCreateService(SupportedWsdls, map["http://www.onvif.org/ver10/events/wsdl" := eventsUrl], create)
      == Resolution(None, [])
  {
    NoCandidatePresent(SupportedWsdls, map["http://www.onvif.org/ver10/events/wsdl" := eventsUrl], create);
  }

  /** `StartReceiving`: throws when the pull client was never created, otherwise installs a
      fresh, uncancelled cancellation source and starts the loop. */
  function StartReceiving(s: EventService): (r: Outcome<EventService>)
    ensures r.Err? <==> s.pullClient.None?
    ensures r.Err? ==> r.fault == InvalidOperation("Pull client not initialized")
    ensures r.Ok? ==> r.value.cts == Some(CancellationSource(false))
    ensures r.Ok? ==> r.value.(cts := s.cts) == s
  {
    if s.pullClient.None? then Err(InvalidOperation("Pull client not initialized"))
    else Ok(s.(cts := Some(CancellationSource(false))))
  }

  /** `StopReceiving`: requests cancellation if a loop was started; otherwise does nothing. */
  function StopReceiving(s: EventService): (r: EventService)
    ensures s.cts.None? ==> r == s
    ensures s.cts.Some? ==> r.cts == Some(CancellationSource(true)) && r.(cts := s.cts) == s
  {
    if s.cts.Some? then s.(cts := Some(CancellationSource(true))) else s
  }

  /** Every service the factory method returns can start receiving. */
  lemma CreatedServiceCanStart(url: string, username: string, password: string, profile: string, script: InitScript)
    requires CreateAsync(url, username, password, profile, script).Built?
    ensures StartReceiving(CreateAsync(url, username, password, profile, script).instance.value).Ok?
  {
  }

  // ---------------------------------------------------------------------------------------
  // The receive loop

  datatype Notification = Notification(topic: string, payload: string)

  /** The remote calls (and the backoff wait) the loop makes, in order. */
  datatype Call =
    | OpenPull
    | PullMessages(timeout: string, limit: int)
    | Deliver(messages: seq<Notification>)
    | OpenManager
    | Renew(terminationTimeMs: int)
    | Delay(ms: int)
    | Unsubscribe

  /** What one iteration observes: the cancellation flag at the loop head, the
      communication state of each client and the outcome of reopening it, the pull
      result, and the two readings of the tick counter (the renew test, and the
      reset before `Renew`). */
  datatype StepInput = StepInput(
    cancelled: bool,
    pullOpened: bool,
    pullOpenOk: bool,
    pull: Outcome<seq<Notification>>,
    tick: int,
    managerOpened: bool,
    managerOpenOk: bool,
    renewTick: int,
    renewOk: bool)

  datatype LoopConfig = LoopConfig(renewIntervalMs: int, terminationTimeMs: int, hasManager: bool)

  /** The renew interval is half the termination time, truncated to whole milliseconds. */
  function LoopConfigOf(s: EventService): (cfg: LoopConfig)
    requires s.terminationTimeMs >= 0
    ensures 0 <= 2 * cfg.renewIntervalMs <= s.terminationTimeMs < 2 * cfg.renewIntervalMs + 2
    ensures cfg.hasManager <==> s.managerClient.Some?
  {
    LoopConfig(s.terminationTimeMs / 2, s.terminationTimeMs, s.managerClient.Some?)
  }

  datatype StepResult = StepResult(lastRenew: int, calls: seq<Call>)

  predicate PullReady(input: StepInput) { input.pullOpened || input.pullOpenOk }
  predicate ManagerReady(input: StepInput) { input.managerOpened || input.managerOpenOk }

  /** More than the renew interval has passed since the last renewal, and there is a manager client. */
  predicate RenewDue(cfg: LoopConfig, lastRenew: int, input: StepInput)
  {
    input.tick - lastRenew > cfg.renewIntervalMs && cfg.hasManager
  }

  /** The iteration reaches `RenewAsync`. */
  predicate RenewAttempted(cfg: LoopConfig, lastRenew: int, input: StepInput)
  {
    PullReady(input) && input.pull.Ok? && RenewDue(cfg, lastRenew, input) && ManagerReady(input)
  }

  /** Some call inside the iteration's `try` block threw. */
  predicate Faulted(cfg: LoopConfig, lastRenew: int, input: StepInput)
  {
    || !PullReady(input)
    || input.pull.Err?
    || (input.pull.Ok? && RenewDue(cfg, lastRenew, input) && !ManagerReady(input))
    || (RenewAttempted(cfg, lastRenew, input) && !input.renewOk)
  }

  /** One uncancelled iteration of `ReceiveLoopAsync`. */
  function Step(cfg: LoopConfig, lastRenew: int, input: StepInput): (r: StepResult)
    ensures |r.calls| > 0
    ensures r.lastRenew == if RenewAttempted(cfg, lastRenew, input) then input.renewTick else lastRenew
    ensures Unsubscribe !in r.calls
  {
    if !PullReady(input) then StepResult(lastRenew, [OpenPull, Delay(BackoffMs)])
    else
      var pulled := (if input.pullOpened then [] else [OpenPull]) + [PullMessages(PullTimeout, MessageLimit)];
      match input.pull
      case Err(_) => StepResult(lastRenew, pulled + [Delay(BackoffMs)])
      case Ok(messages) =>
        var delivered := pulled + [Deliver(messages)];
        if !RenewDue(cfg, lastRenew, input) then StepResult(lastRenew, delivered)
        else if !ManagerReady(input) then StepResult(lastRenew, delivered + [OpenManager, Delay(BackoffMs)])
        else
          var renewed := delivered + (if input.managerOpened then [] else [OpenManager]) + [Renew(cfg.terminationTimeMs)];
          StepResult(input.renewTick, if input.renewOk then renewed else renewed + [Delay(BackoffMs)])
  }

  /** An iteration pulls iff the pull client is open or reopens, delivers what a successful
      pull returned, and renews iff the pull succeeded, the renewal is due and the manager
      client is open or reopens; the pull comes before the renewal. */
  lemma StepCalls(cfg: LoopConfig, lastRenew: int, input: StepInput)
    ensures var r := Step(cfg, lastRenew, input);
      && (PullMessages(PullTimeout, MessageLimit) in r.calls <==> PullReady(input))
      && (PullReady(input) && input.pull.Ok? ==> Deliver(input.pull.value) in r.calls)
      && (Renew(cfg.terminationTimeMs) in r.calls <==> RenewAttempted(cfg, lastRenew, input))
  {
  }

  /** When an iteration renews, its pull precedes the renewal. */
  lemma StepPullsBeforeRenew(cfg: LoopConfig, lastRenew: int, input: StepInput)
    requires RenewAttempted(cfg, lastRenew, input)
    ensures var r := Step(cfg, lastRenew, input);
      exists i, j :: 0 <= i < j < |r.calls| && r.calls[i] == PullMessages(PullTimeout, MessageLimit)
        && r.calls[j] == Renew(cfg.terminationTimeMs)
  {
    var r := Step(cfg, lastRenew, input);
    var i := if input.pullOpened then 0 else 1;
    var j := if input.managerOpened then i + 2 else i + 3;
    assert r.calls[i] == PullMessages(PullTimeout, MessageLimit);
    assert r.calls[j] == Renew(cfg.terminationTimeMs);
  }

  /** An iteration ends with the fixed 2000 ms wait iff one of its calls threw, and waits
      nowhere else; the wait is not shortened by cancellation. */
  lemma StepBacksOffIffFaulted(cfg: LoopConfig, lastRenew: int, input: StepInput)
    ensures var r := Step(cfg, lastRenew, input);
      && (r.calls[|r.calls| - 1] == Delay(BackoffMs) <==> Faulted(cfg, lastRenew, input))
      && forall i :: 0 <= i < |r.calls| - 1 ==> !r.calls[i].Delay?
  {
  }

  /** The state of the loop after some iterations: the calls made, the last renew tick, and
      the loop's return value once it has returned. */
  datatype LoopRun = LoopRun(calls: seq<Call>, lastRenew: int, returned: Option<bool>)

  /** `ReceiveLoopAsync` over the iterations observed so far. */
  function Run(cfg: LoopConfig, lastRenew: int, inputs: seq<StepInput>): (r: LoopRun)
    ensures r.returned.Some? ==> r.returned.value
    ensures r.returned.None? ==> Unsubscribe !in r.calls
    decreases |inputs|
  {
    if |inputs| == 0 then LoopRun([], lastRenew, None)
    else if inputs[0].cancelled then LoopRun(if cfg.hasManager then [Unsubscribe] else [], lastRenew, Some(true))
    else
      var step := Step(cfg, lastRenew, inputs[0]);
      var rest := Run(cfg, step.lastRenew, inputs[1..]);
      LoopRun(step.calls + rest.calls, rest.lastRenew, rest.returned)
  }

  /** `ReceiveLoopAsync` as started by `StartReceiving`, from the tick read on entry: it renews
      every half termination time, and it returns (true) only once it observes cancellation. */
  function ReceiveLoop(s: EventService, startTick: int, inputs: seq<StepInput>): (r: LoopRun)
    requires s.terminationTimeMs >= 0
    ensures r.returned.Some? ==> r.returned.value && exists i :: 0 <= i < |inputs| && inputs[i].cancelled
    ensures r.returned.None? ==> Unsubscribe !in r.calls
  {
    var r := Run(LoopConfigOf(s), startTick, inputs);
    if r.returned.Some? then
      NeverReturnsUncancelled(LoopConfigOf(s), startTick, inputs);
      r
    else r
  }

  /** A run that returned has observed cancellation. */
  lemma NeverReturnsUncancelled(cfg: LoopConfig, lastRenew: int, inputs: seq<StepInput>)
    requires Run(cfg, lastRenew, inputs).returned.Some?
    ensures exists i :: 0 <= i < |inputs| && inputs[i].cancelled
  {
    if Uncancelled(inputs) {
      FaultsDoNotEndLoop(cfg, lastRenew, inputs);
    }
  }

  /** A service built by `CreateAsync` runs its loop with a 15 s renew interval, a 30 s
      termination time, and a manager client, so it renews and unsubscribes. */
  lemma CreatedServiceLoopConfig(url: string, username: string, password: string, profile: string, script: InitScript)
    requires CreateAsync(url, username, password, profile, script).Built?
    ensures var e := CreateAsync(url, username, password, profile, script).instance.value;
      e.terminationTimeMs >= 0 && LoopConfigOf(e) == LoopConfig(15_000, 30_000, true)
  {
  }

  /** No iteration has observed cancellation. */
  predicate Uncancelled(inputs: seq<StepInput>)
  {
    forall i :: 0 <= i < |inputs| ==> !inputs[i].cancelled
  }

  /** Once the loop observes cancellation it makes no further pull or renew: the only call
      left is one `Unsubscribe` (when a manager client exists), and the loop returns true. */
  lemma {:induction false} CancellationEndsLoop(cfg: LoopConfig, lastRenew: int, inputs: seq<StepInput>, c: int)
    requires 0 <= c < |inputs| && inputs[c].cancelled && Uncancelled(inputs[..c])
    ensures var r := Run(cfg, lastRenew, inputs);
      var before := Run(cfg, lastRenew, inputs[..c]);
      && r.returned == Some(true)
      && before.returned.None? && Unsubscribe !in before.calls
      && r.calls == before.calls + (if cfg.hasManager then [Unsubscribe] else [])
    decreases c
  {
    if c > 0 {
      assert !inputs[0].cancelled by { assert inputs[..c][0] == inputs[0]; }
      var step := Step(cfg, lastRenew, inputs[0]);
      assert inputs[1..][..c - 1] == inputs[..c][1..];
      assert Uncancelled(inputs[..c][1..]);
      CancellationEndsLoop(cfg, step.lastRenew, inputs[1..], c - 1);
    }
  }

  /** While cancellation is not observed the loop never unsubscribes and does not return,
      whatever faults occur: a failed iteration waits and the next one tries again. */
  lemma {:induction false} FaultsDoNotEndLoop(cfg: LoopConfig, lastRenew: int, inputs: seq<StepInput>)
    requires Uncancelled(inputs)
    ensures Run(cfg, lastRenew, inputs).returned.None?
    ensures |Run(cfg, lastRenew, inputs).calls| >= |inputs|
    decreases |inputs|
  {
    if |inputs| > 0 {
      var step := Step(cfg, lastRenew, inputs[0]);
      assert Uncancelled(inputs[1..]) by {
        forall i | 0 <= i < |inputs| - 1 ensures !inputs[1..][i].cancelled {
          assert inputs[1..][i] == inputs[i + 1];
        }
      }
      FaultsDoNotEndLoop(cfg, step.lastRenew, inputs[1..]);
    }
  }

  /** The renew tick held after the first `n` (uncancelled) iterations. */
  function LastRenewAfter(cfg: LoopConfig, start: int, inputs: seq<StepInput>, n: nat): int
    requires n <= |inputs|
    decreases n
  {
    if n == 0 then start else Step(cfg, LastRenewAfter(cfg, start, inputs, n - 1), inputs[n - 1]).lastRenew
  }

  /** Iteration `i` renews the subscription. */
  predicate RenewsAt(cfg: LoopConfig, start: int, inputs: seq<StepInput>, i: int)
  {
    0 <= i < |inputs| && RenewAttempted(cfg, LastRenewAfter(cfg, start, inputs, i), inputs[i])
  }

  /** The loop's own last-renew tick is the one `LastRenewAfter` computes. */
  lemma {:induction false} RunTracksLastRenew(cfg: LoopConfig, start: int, inputs: seq<StepInput>)
    requires Uncancelled(inputs)
    ensures Run(cfg, start, inputs).lastRenew == LastRenewAfter(cfg, start, inputs, |inputs|)
    decreases |inputs|
  {
    if |inputs| > 0 {
      var step := Step(cfg, start, inputs[0]);
      assert Uncancelled(inputs[1..]) by {
        forall i | 0 <= i < |inputs| - 1 ensures !inputs[1..][i].cancelled {
          assert inputs[1..][i] == inputs[i + 1];
        }
      }
      RunTracksLastRenew(cfg, step.lastRenew, inputs[1..]);
      LastRenewShift(cfg, start, inputs, |inputs|);
    }
  }

  /** Running from the first iteration's result over the rest agrees with running over all. */
  lemma {:induction false} LastRenewShift(cfg: LoopConfig, start: int, inputs: seq<StepInput>, n: nat)
    requires 1 <= n <= |inputs|
    ensures LastRenewAfter(cfg, Step(cfg, start, inputs[0]).lastRenew, inputs[1..], n - 1)
      == LastRenewAfter(cfg, start, inputs, n)
    decreases n
  {
    if n > 1 {
      LastRenewShift(cfg, start, inputs, n - 1);
      assert inputs[1..][n - 2] == inputs[n - 1];
    }
  }

  /** Between two consecutive renewals more than the renew interval of ticks passes between
      the reset before the first `Renew` and the test of the second, even when the first
      `Renew` failed: the clock is reset before the call. */
  lemma {:induction false} RenewalsAreSpaced(cfg: LoopConfig, start: int, inputs: seq<StepInput>, i: int, j: int)
    requires 0 <= i < j < |inputs|
    requires RenewsAt(cfg, start, inputs, i) && RenewsAt(cfg, start, inputs, j)
    requires forall k :: i < k < j ==> !RenewsAt(cfg, start, inputs, k)
    ensures inputs[j].tick - inputs[i].renewTick > cfg.renewIntervalMs
  {
    NoRenewKeepsTick(cfg, start, inputs, i, j);
  }

  /** The first renewal happens only once more than the interval has passed since the start. */
  lemma FirstRenewalIsSpaced(cfg: LoopConfig, start: int, inputs: seq<StepInput>, j: int)
    requires RenewsAt(cfg, start, inputs, j)
    requires forall k :: 0 <= k < j ==> !RenewsAt(cfg, start, inputs, k)
    ensures inputs[j].tick - start > cfg.renewIntervalMs
  {
    NoRenewSinceStart(cfg, start, inputs, j);
  }

  lemma {:induction false} NoRenewSinceStart(cfg: LoopConfig, start: int, inputs: seq<StepInput>, j: int)
    requires 0 <= j <= |inputs|
    requires forall k :: 0 <= k < j ==> !RenewsAt(cfg, start, inputs, k)
    ensures LastRenewAfter(cfg, start, inputs, j) == start
    decreases j
  {
    if j > 0 {
      NoRenewSinceStart(cfg, start, inputs, j - 1);
      assert !RenewsAt(cfg, start, inputs, j - 1);
    }
  }

  lemma {:induction false} NoRenewKeepsTick(cfg: LoopConfig, start: int, inputs: seq<StepInput>, i: int, j: int)
    requires 0 <= i < j <= |inputs|
    requires RenewsAt(cfg, start, inputs, i)
    requires forall k :: i < k < j ==> !RenewsAt(cfg, start, inputs, k)
    ensures LastRenewAfter(cfg, start, inputs, j) == inputs[i].renewTick
    decreases j - i
  {
    if j > i + 1 {
      NoRenewKeepsTick(cfg, start, inputs, i, j - 1);
      assert !RenewsAt(cfg, start, inputs, j - 1);
    }
  }

  // ---------------------------------------------------------------------------------------
  // Disposal

  datatype ClientRole = EventClient | PullClient | ManagerClient

  /** `Dispose`: closes the event client and the pull client when they exist (close faults
      are swallowed); the subscription-manager client is never closed. */
  function Dispose(s: EventService): (closed: seq<ClientRole>)
    ensures ManagerClient !in closed
    ensures EventClient in closed <==> s.eventClient.Some?
    ensures PullClient in closed <==> s.pullClient.Some?
    ensures |closed| <= 2
  {
    (if s.eventClient.Some? then [EventClient] else []) + (if s.pullClient.Some? then [PullClient] else [])
  }
}
