/** The Ripple command set: address and public-key requests; signing and
    message verification are declared but fail loudly. */
module RippleCommands {
  import opened Wrappers
  import opened Protocol
  import opened Paths

  datatype RippleCommands = RippleCommands(coinInfo: CoinInfo)

  /** The constructor: fails unless a Ripple descriptor is registered under `coinName`. */
  function New(coinName: string, registry: CoinRegistry): (r: Result<RippleCommands, Error>)
    ensures r.Failure? <==> registry(coinName, Ripple).None?
    ensures r.Failure? ==> r.error == CoinInfoMissing(coinName)
    ensures r.Success? ==> Some(r.value.coinInfo) == registry(coinName, Ripple)
  {
    match registry(coinName, Ripple)
    case None => Failure(CoinInfoMissing(coinName))
    case Some(info) => Success(RippleCommands(info))
  }

  function AddressRequest(levels: seq<nat>, show: JsBool): Message
  {
    Message("RippleGetAddress", AddressParams(levels, show), "RippleAddress")
  }

  /** `GetAddress`: a `null` or `undefined` display flag means "show". */
  function GetAddress(dev: Option<Device>, path: Option<PathArg>, show: JsBool, parse: PathParser): (c: Call<Response>)
    ensures |c.sent| <= 1
    ensures dev.None? || path.None? ==> c == Call([], Failure(InvalidParam))
    ensures dev.Some? && path.Some? && AddressArray(path.value, parse).Failure? ==> c == Call([], Failure(PathNotValid))
    ensures c.sent != [] <==> dev.Some? && path.Some? && AddressArray(path.value, parse).Success?
    ensures c.sent != [] ==>
              c.sent[0] == AddressRequest(AddressArray(path.value, parse).value, NullishDefault(show, true))
              && c == Send(dev.value, c.sent[0])
  {
    if dev.None? || path.None? then Call([], Failure(InvalidParam))
    else
      var showDisplay := NullishDefault(show, true);
      match AddressArray(path.value, parse)
      case Failure(_) => Call([], Failure(PathNotValid))
      case Success(levels) => Send(dev.value, AddressRequest(levels, showDisplay))
  }

  /** `GetPublicKey`: same checks and display default as `GetAddress`. */
  function GetPublicKey(dev: Option<Device>, path: Option<PathArg>, show: JsBool, parse: PathParser): (c: Call<Response>)
    ensures |c.sent| <= 1
    ensures dev.None? || path.None? ==> c == Call([], Failure(InvalidParam))
    ensures dev.Some? && path.Some? && AddressArray(path.value, parse).Failure? ==> c == Call([], Failure(PathNotValid))
    ensures c.sent != [] <==> dev.Some? && path.Some? && AddressArray(path.value, parse).Success?
    ensures c.sent != [] ==>
              c.sent[0] == Message("GetPublicKey", AddressParams(AddressArray(path.value, parse).value, NullishDefault(show, true)), "PublicKey")
              && c == Send(dev.value, c.sent[0])
  {
    if dev.None? || path.None? then Call([], Failure(InvalidParam))
    else
      var showDisplay := NullishDefault(show, true);
      match AddressArray(path.value, parse)
      case Failure(_) => Call([], Failure(PathNotValid))
      case Success(levels) => Send(dev.value, Message("GetPublicKey", AddressParams(levels, showDisplay), "PublicKey"))
  }

  /** The opaque Ripple transaction the caller passes in. */
  datatype RippleTransaction = RippleTransaction(fields: seq<(string, string)>)

  /** `SignTransaction` always rejects with "Method not implemented." and sends nothing. */
  function SignTransaction(dev: Option<Device>, tx: RippleTransaction): (c: Call<Response>)
    ensures c.sent == [] && c.outcome.Failure?
    ensures ErrorText(c.outcome.error) == Some("Method not implemented.")
  {
    Call([], Failure(NotImplemented))
  }

  /** `SignMessage` always rejects with "Method not implemented." and sends nothing. */
  function SignMessage(dev: Option<Device>, path: seq<nat>, message: seq<byte>, coin: Option<string>): (c: Call<Response>)
    ensures c.sent == [] && c.outcome.Failure?
    ensures ErrorText(c.outcome.error) == Some("Method not implemented.")
  {
    Call([], Failure(NotImplemented))
  }

  /** `VerifyMessage` always rejects with "Method not implemented." and sends nothing. */
  function VerifyMessage(dev: Option<Device>, address: string, message: seq<byte>, signature: seq<byte>,
                         coinName: string): (c: Call<Response>)
    ensures c.sent == [] && c.outcome.Failure?
    ensures ErrorText(c.outcome.error) == Some("Method not implemented.")
  {
    Call([], Failure(NotImplemented))
  }
}
