/** The vocabulary shared by the per-coin command sets and the wallets:
    error codes, JavaScript-style optional arguments, coin descriptors, the
    device messages with their payloads, and the device itself as an oracle
    that answers each message and remembers what it was sent. */
module Protocol {
  import opened Wrappers

  type byte = b: int | 0 <= b < 256

  /** Every way a call in the core can reject or throw. */
  datatype Error =
    | InvalidParam               // GeneralErrors.INVALID_PARAM
    | PathNotValid               // GeneralErrors.PATH_NOT_VALID
    | PathParseFailure           // the path parser's own exception, not caught
    | DeviceFailure(reason: string)
    | TypeError                  // a property read on `null`/`undefined`
    | NotImplemented
    | CoinInfoMissing(coinName: string)
    | AccountNumberWrong
    | InsufficientBalance
    | BackendFailure(reason: string)
    | SubmitFailed

  /** The message text of the errors thrown with `new Error(...)`. */
  function ErrorText(e: Error): Option<string>
  {
    match e
    case NotImplemented => Some("Method not implemented.")
    case CoinInfoMissing(name) => Some("Cannot load CoinInfo for " + name)
    case AccountNumberWrong => Some("Account number is wrong")
    case SubmitFailed => Some("error in submit transaction")
    case _ => None
  }

  /** An optional argument as JavaScript sees it: omitted (`undefined`),
      an explicit `null`, or a value. */
  datatype JsArg<+T> = Undefined | Null | Given(value: T)

  type JsBool = JsArg<bool>

  /** A default parameter `x: T = d`: only `undefined` is replaced. */
  function DefaultParam<T>(x: JsArg<T>, d: T): (r: JsArg<T>)
    ensures x.Undefined? ==> r == Given(d)
    ensures !x.Undefined? ==> r == x
  {
    if x.Undefined? then Given(d) else x
  }

  /** `(x == null) ? d : x`: both `null` and `undefined` are replaced. */
  function NullishDefault<T>(x: JsArg<T>, d: T): (r: JsArg<T>)
    ensures r.Given?
    ensures x.Given? ==> r == x
    ensures !x.Given? ==> r == Given(d)
  {
    if x.Given? then x else Given(d)
  }

  /** How a string argument prints in a template literal `${x}`. */
  function StringText(x: JsArg<string>): (t: string)
    ensures x.Given? ==> t == x.value
    ensures x.Null? ==> t == "null"
    ensures x.Undefined? ==> t == "undefined"
  {
    match x
    case Undefined => "undefined"
    case Null => "null"
    case Given(s) => s
  }

  /** `s || d` for an optional string: absent and empty strings are falsy. */
  function OrDefault(s: Option<string>, d: string): (r: string)
    ensures s.Some? && s.value != "" ==> r == s.value
    ensures s.None? || s.value == "" ==> r == d
  {
    if s.Some? && s.value != "" then s.value else d
  }

  /** A derivation path argument: a list of indices or a string to parse. */
  datatype PathArg = Indices(levels: seq<nat>) | Text(text: string)

  /** The path-string parser; `None` stands for the exception it throws. */
  type PathParser = string -> Option<seq<nat>>

  datatype CoinBaseType = Bitcoin | Ethereum | Omni | Ripple | NEM | Stellar

  /** The fields of a coin descriptor this core reads. */
  datatype CoinInfo = CoinInfo(name: string, shortcut: string, slip44: nat, test: bool)

  /** The coin-descriptor lookup; `None` when no descriptor is registered. */
  type CoinRegistry = (string, CoinBaseType) -> Option<CoinInfo>

  datatype StellarAsset = StellarAsset(assetType: nat, code: string)

  /** The header of a Stellar transaction as sent to the device. */
  datatype StellarSignTxMessage = StellarSignTxMessage(
    address_n: seq<nat>,
    source_account: Option<string>,
    fee: real,
    sequence_number: string,
    network_passphrase: string,
    num_operations: nat)

  /** One Stellar operation as sent to the device. */
  datatype StellarOperationMessage = StellarOperationMessage(
    opType: string,
    source_account: Option<string>,
    destination_account: string,
    asset: StellarAsset,
    amount: string)

  /** What the wallet hands to the envelope builder; the envelope itself is opaque. */
  datatype StellarEnvelope = StellarEnvelope(
    accountId: string, sequence: string, fee: real, destination: string, amount: real)

  datatype StellarSignTransactionRequest = StellarSignTransactionRequest(
    signTxMessage: StellarSignTxMessage,
    paymentOperation: StellarOperationMessage,
    transactionModel: StellarEnvelope)

  /** The payload of a device request. */
  datatype Payload =
    | NemGetAddressParams(address_n: seq<nat>, network: nat, show_display: JsBool)
    | AddressParams(address_n: seq<nat>, show_display: JsBool)
    | SignMessageParams(address_n: seq<nat>, message: seq<byte>, coin_name: string, script_type: nat)
    | VerifyMessageParams(address: string, signature: seq<byte>, message: seq<byte>, coin_name: string)
    | SignTxParams(tx: StellarSignTxMessage)
    | OperationParams(op: StellarOperationMessage)

  /** One device exchange: request name, payload, expected response name. */
  datatype Message = Message(name: string, payload: Payload, expected: string)

  /** A decoded device reply; only the fields this core reads are kept. */
  datatype Response = Response(name: string, address: Option<string>, signature: Option<seq<byte>>)

  /** The signing device: it answers a message given everything it has been
      sent before (`log`), or fails with a transport/device reason. */
  datatype Device = Device(respond: (seq<Message>, Message) -> Result<Response, string>, log: seq<Message>)

  /** The result of a command: the messages it sent, in order, and its outcome. */
  datatype Call<+R> = Call(sent: seq<Message>, outcome: Result<R, Error>)

  /** `Device.SendMessage`: one request sent, the device's answer or its failure. */
  function Send(d: Device, m: Message): (c: Call<Response>)
    ensures c.sent == [m]
    ensures c.outcome.Success? <==> d.respond(d.log, m).Success?
    ensures c.outcome.Success? ==> c.outcome.value == d.respond(d.log, m).value
    ensures c.outcome.Failure? ==> c.outcome.error == DeviceFailure(d.respond(d.log, m).error)
  {
    match d.respond(d.log, m)
    case Success(r) => Call([m], Success(r))
    case Failure(e) => Call([m], Failure(DeviceFailure(e)))
  }

  /** The same device after it has additionally been sent `sent`. */
  function Advance(dev: Option<Device>, sent: seq<Message>): (r: Option<Device>)
    ensures r.Some? <==> dev.Some?
    ensures r.Some? ==> r.value.log == dev.value.log + sent
  {
    match dev
    case None => None
    case Some(d) => Some(Device(d.respond, d.log + sent))
  }
}
