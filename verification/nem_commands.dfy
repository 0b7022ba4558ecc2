/** The NEM command set: NEM requests sent to the device, the network id
    chosen from the coin descriptor, and the defaults of its optional
    arguments. */
module NemCommands {
  import opened Wrappers
  import opened Protocol
  import opened Paths

  const MAINNET_ID: nat := 0x68
  const TESTNET_ID: nat := 0x98
  const DEFAULT_COIN_NAME := "Nem"

  datatype NemCommands = NemCommands(coinInfo: CoinInfo)

  /** The constructor: fails unless a NEM descriptor is registered under `coinName`. */
  function New(coinName: string, registry: CoinRegistry): (r: Result<NemCommands, Error>)
    ensures r.Failure? <==> registry(coinName, NEM).None?
    ensures r.Failure? ==> r.error == CoinInfoMissing(coinName)
    ensures r.Success? ==> Some(r.value.coinInfo) == registry(coinName, NEM)
  {
    match registry(coinName, NEM)
    case None => Failure(CoinInfoMissing(coinName))
    case Some(info) => Success(NemCommands(info))
  }

  /** The network byte: test network when the descriptor says so, main network otherwise. */
  function NetworkId(cmd: NemCommands): (id: nat)
    ensures id == TESTNET_ID <==> cmd.coinInfo.test
    ensures id == MAINNET_ID <==> !cmd.coinInfo.test
  {
    if cmd.coinInfo.test then TESTNET_ID else MAINNET_ID
  }

  function AddressRequest(cmd: NemCommands, levels: seq<nat>, show: JsBool): Message
  {
    Message("NEMGetAddress", NemGetAddressParams(levels, NetworkId(cmd), show), "NEMAddress")
  }

  /** `GetAddress(device, path, showOnProkey = true)`. */
  function GetAddress(cmd: NemCommands, dev: Option<Device>, path: Option<PathArg>, show: JsBool, parse: PathParser)
    : (c: Call<Response>)
    ensures |c.sent| <= 1
    ensures dev.None? || path.None? ==> c == Call([], Failure(InvalidParam))
    ensures dev.Some? && path.Some? && AddressArray(path.value, parse).Failure? ==> c == Call([], Failure(PathParseFailure))
    ensures c.sent != [] <==> dev.Some? && path.Some? && AddressArray(path.value, parse).Success?
    ensures c.sent != [] ==>
              c.sent[0] == AddressRequest(cmd, AddressArray(path.value, parse).value, DefaultParam(show, true))
              && c == Send(dev.value, c.sent[0])
  {
    if dev.None? || path.None? then Call([], Failure(InvalidParam))
    else
      match AddressArray(path.value, parse)
      case Failure(e) => Call([], Failure(e))
      case Success(levels) => Send(dev.value, AddressRequest(cmd, levels, DefaultParam(show, true)))
  }

  /** The first `|results|` paths were each answered by one successful
      `GetAddress(…, false)` on the device as it stood after the earlier requests. */
  ghost predicate Fetched(cmd: NemCommands, dev: Option<Device>, paths: seq<Option<PathArg>>, parse: PathParser,
                          sent: seq<Message>, results: seq<Response>)
  {
    && |results| == |sent| <= |paths|
    && forall i :: 0 <= i < |results| ==>
         GetAddress(cmd, Advance(dev, sent[..i]), paths[i], Given(false), parse) == Call([sent[i]], Success(results[i]))
  }

  /** `GetAddresses`: one address per path, in order, none shown on the device;
      the first failing path rejects the whole call with its error. */
  method GetAddresses(cmd: NemCommands, dev: Option<Device>, paths: seq<Option<PathArg>>, parse: PathParser)
    returns (c: Call<seq<Response>>, ghost done: seq<Response>)
    ensures |done| <= |c.sent|
    ensures Fetched(cmd, dev, paths, parse, c.sent[..|done|], done)
    ensures c.outcome.Success? ==> c.outcome.value == done && |done| == |paths| == |c.sent|
    ensures c.outcome.Success? ==> forall i :: 0 <= i < |c.sent| ==>
              c.sent[i].name == "NEMGetAddress" && c.sent[i].payload.show_display == Given(false)
    ensures c.outcome.Failure? ==>
              |done| < |paths|
              && var last := GetAddress(cmd, Advance(dev, c.sent[..|done|]), paths[|done|], Given(false), parse);
                 last.outcome.Failure? && c.outcome.error == last.outcome.error
                 && c.sent == c.sent[..|done|] + last.sent
  {
    var sent: seq<Message> := [];
    var results: seq<Response> := [];
    while |results| < |paths|
      invariant Fetched(cmd, dev, paths, parse, sent, results)
      invariant forall i :: 0 <= i < |sent| ==>
                  sent[i].name == "NEMGetAddress" && sent[i].payload.show_display == Given(false)
      decreases |paths| - |results|
    {
      var one := GetAddress(cmd, Advance(dev, sent), paths[|results|], Given(false), parse);
      if one.outcome.Failure? {
        assert (sent + one.sent)[..|results|] == sent;
        return Call(sent + one.sent, Failure(one.outcome.error)), results;
      }
      assert sent == (sent + one.sent)[..|results|];
      forall i | 0 <= i < |results|
        ensures (sent + one.sent)[..i] == sent[..i]
      {
      }
      sent := sent + one.sent;
      results := results + [one.outcome.value];
    }
    assert sent[..|results|] == sent;
    return Call(sent, Success(results)), results;
  }

  /** `GetPublicKey`: unlike `GetAddress`, a path that fails to parse is reported as `PATH_NOT_VALID`. */
  function GetPublicKey(dev: Option<Device>, path: Option<PathArg>, show: JsBool, parse: PathParser)
    : (c: Call<Response>)
    ensures |c.sent| <= 1
    ensures dev.None? || path.None? ==> c == Call([], Failure(InvalidParam))
    ensures dev.Some? && path.Some? && AddressArray(path.value, parse).Failure? ==> c == Call([], Failure(PathNotValid))
    ensures c.sent != [] <==> dev.Some? && path.Some? && AddressArray(path.value, parse).Success?
    ensures c.sent != [] ==>
              c.sent[0] == Message("GetPublicKey", AddressParams(AddressArray(path.value, parse).value, show), "PublicKey")
              && c == Send(dev.value, c.sent[0])
  {
    if dev.None? || path.None? then Call([], Failure(InvalidParam))
    else
      match AddressArray(path.value, parse)
      case Failure(_) => Call([], Failure(PathNotValid))
      case Success(levels) => Send(dev.value, Message("GetPublicKey", AddressParams(levels, show), "PublicKey"))
  }

  /** A message signature as returned to the caller, with the signature hex-encoded. */
  datatype MessageSignature = MessageSignature(address: Option<string>, signature: Option<string>)

  /** `SignMessage`: coin name defaults to `Nem`; a present signature is
      hex-encoded, an absent one stays absent. There is no parameter check:
      a missing device fails when the message is sent. */
  function SignMessage(dev: Option<Device>, path: seq<nat>, message: seq<byte>, coinName: Option<string>,
                       scriptType: seq<nat> -> nat, toHex: seq<byte> -> string): (c: Call<MessageSignature>)
    ensures dev.None? ==> c == Call([], Failure(TypeError))
    ensures dev.Some? ==>
              c.sent == [Message("SignMessage",
                                 SignMessageParams(path, message, OrDefault(coinName, DEFAULT_COIN_NAME), scriptType(path)),
                                 "MessageSignature")]
    ensures dev.Some? ==>
              var reply := dev.value.respond(dev.value.log, c.sent[0]);
              && (c.outcome.Success? <==> reply.Success?)
              && (c.outcome.Failure? ==> c.outcome.error == DeviceFailure(reply.error))
    ensures c.outcome.Success? ==>
              var reply := dev.value.respond(dev.value.log, c.sent[0]);
              && reply.Success?
              && c.outcome.value.address == reply.value.address
              && (reply.value.signature.None? <==> c.outcome.value.signature.None?)
              && (reply.value.signature.Some? ==> c.outcome.value.signature == Some(toHex(reply.value.signature.value)))
  {
    match dev
    case None => Call([], Failure(TypeError))
    case Some(d) =>
      var m := Message("SignMessage", SignMessageParams(path, message, OrDefault(coinName, DEFAULT_COIN_NAME), scriptType(path)),
                       "MessageSignature");
      match Send(d, m).outcome
      case Failure(e) => Call([m], Failure(e))
      case Success(res) =>
        var signature := if res.signature.Some? then Some(toHex(res.signature.value)) else None;
        Call([m], Success(MessageSignature(res.address, signature)))
  }

  datatype NemSignedTx = NemSignedTx(data: string, signature: string)

  /** `SignTransaction` is a stub: it answers a fixed value and never contacts the device. */
  function SignTransaction(dev: Option<Device>): (c: Call<NemSignedTx>)
    ensures c.sent == []
    ensures c.outcome == Success(NemSignedTx("test", "test"))
  {
    Call([], Success(NemSignedTx("test", "test")))
  }

  /** `VerifyMessage`: one `VerifyMessage` request, coin name defaulting to `Nem`. */
  function VerifyMessage(dev: Option<Device>, address: string, message: seq<byte>, signature: seq<byte>,
                         coinName: Option<string>): (c: Call<Response>)
    ensures dev.None? ==> c == Call([], Failure(TypeError))
    ensures dev.Some? ==>
              c.sent == [Message("VerifyMessage",
                                 VerifyMessageParams(address, signature, message, OrDefault(coinName, DEFAULT_COIN_NAME)),
                                 "Success")]
              && c == Send(dev.value, c.sent[0])
  {
    match dev
    case None => Call([], Failure(TypeError))
    case Some(d) =>
      Send(d, Message("VerifyMessage", VerifyMessageParams(address, signature, message, OrDefault(coinName, DEFAULT_COIN_NAME)),
                      "Success"))
  }

  /** For a path string the parser rejects, `GetAddress` lets the parser's own
      exception through while `GetPublicKey` reports `PATH_NOT_VALID`; neither
      sends anything. */
  lemma ParseFailureReporting(cmd: NemCommands, d: Device, text: string, show: JsBool, parse: PathParser)
    requires parse(text).None?
    ensures GetAddress(cmd, Some(d), Some(Text(text)), show, parse) == Call([], Failure(PathParseFailure))
    ensures GetPublicKey(Some(d), Some(Text(text)), show, parse) == Call([], Failure(PathNotValid))
  {
  }
}
