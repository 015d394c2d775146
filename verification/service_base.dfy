/**
 The common base of the resolvable services (`OnvifServiceBase`): each
 instance owns a fresh client factory, and its initialisation fetches the
 device clock and issues a security token from it when a user name is set.
 Every fault of that initialisation is swallowed.
 */
module ServiceBase {
  import opened Outcomes
  import opened Clock
  import opened SecurityTokens
  import opened ClientFactory

  datatype ServiceBase = ServiceBase(url: string, username: string, password: string, profile: string, factory: Factory)

  /** The exchange behind `GetDeviceTimeAsync`: whether opening the device client succeeded,
      the `GetSystemDateAndTime` reply (its UTC part may be `null`), and the local UTC clock. */
  datatype DeviceTimeCall = DeviceTimeCall(openOk: bool, reply: Outcome<Option<DeviceUtc>>, localNow: DateTime)

  /** The constructor: the instance gets a factory of its own, which holds no token. */
  function NewServiceBase(url: string, username: string, password: string, profile: string): (b: ServiceBase)
    ensures b.factory.token.None?
    ensures b.url == url && b.username == username && b.password == password && b.profile == profile
  {
    ServiceBase(url, username, password, profile, NewFactory())
  }

  /** `GetDeviceTimeAsync`: the device's UTC time truncated to whole seconds, or the local UTC
      clock when the device reports no UTC time; a failed call or an impossible date throws. */
  function GetDeviceTime(b: ServiceBase, call: DeviceTimeCall): (r: Outcome<DateTime>)
    ensures r.Ok? <==> call.openOk && call.reply.Ok? && (call.reply.value.Some? ==> ValidFields(call.reply.value.value))
    ensures r.Ok? && call.reply.value.None? ==> r.value == call.localNow
    ensures r.Ok? && call.reply.value.Some? ==>
      && r.value.kind == Utc && Millisecond(r.value) == 0 && r.value.ticks % TicksPerSecond == 0
      && Hour(r.value) == call.reply.value.value.time.hour
      && Minute(r.value) == call.reply.value.value.time.minute
      && Second(r.value) == call.reply.value.value.time.second
      && DayNumber(r.value) == DayOf(call.reply.value.value.date)
  {
    if !call.openOk then Err(CommunicationFault)
    else
      match call.reply
      case Err(f) => Err(f)
      case Ok(None) => Ok(call.localNow)
      case Ok(Some(u)) => FromDeviceUtc(u)
  }

  /** `InitializeAsync`: a token is issued from the device time and `nonce` only when the user
      name is non-empty and the device time was obtained; otherwise nothing changes. */
  function Initialize(b: ServiceBase, call: DeviceTimeCall, nonce: Nonce): (r: ServiceBase)
    ensures r.url == b.url && r.username == b.username && r.password == b.password && r.profile == b.profile
    ensures r != b ==> |b.username| > 0 && GetDeviceTime(b, call).Ok?
    ensures |b.username| > 0 && GetDeviceTime(b, call).Ok? ==>
      r.factory.token == Some(SecurityToken(GetDeviceTime(b, call).value, nonce))
  {
    match GetDeviceTime(b, call)
    case Err(_) => b
    case Ok(deviceTime) =>
      if |b.username| > 0 then
        b.(factory := SetSecurityToken(b.factory, Some(SecurityToken(deviceTime, nonce))))
      else b
  }

  /** A freshly constructed service holds a token after initialisation iff a user name is set
      and the device time was obtained, and that token's nonce is 20 bytes long. */
  lemma InitializedTokenRule(url: string, username: string, password: string, profile: string,
                             call: DeviceTimeCall, nonce: Nonce)
    ensures var b := NewServiceBase(url, username, password, profile);
      var r := Initialize(b, call, nonce);
      && (r.factory.token.Some? <==> |username| > 0 && GetDeviceTime(b, call).Ok?)
      && (r.factory.token.Some? ==> |r.factory.token.value.nonceBytes| == 20)
  {
  }
}
