/** The Stellar command set: address and public-key requests, and the
    two-message signing exchange (transaction header, then its single
    payment operation). */
module StellarCommands {
  import opened Wrappers
  import opened Protocol
  import opened Paths

  datatype StellarCommands = StellarCommands(coinInfo: Option<CoinInfo>)

  /** The constructor looks the descriptor up under the Ripple base type and,
      unlike the NEM and Ripple command sets, never fails: a missing
      descriptor is kept as `null`. */
  function New(coinName: string, registry: CoinRegistry): (r: StellarCommands)
    ensures r.coinInfo == registry(coinName, Ripple)
  {
    StellarCommands(registry(coinName, Ripple))
  }

  function AddressRequest(levels: seq<nat>, show: JsBool): Message
  {
    Message("StellarGetAddress", AddressParams(levels, show), "StellarAddress")
  }

  /** `GetAddress(device, path, showOnProkey = true)`. */
  function GetAddress(dev: Option<Device>, path: Option<PathArg>, show: JsBool, parse: PathParser): (c: Call<Response>)
    ensures |c.sent| <= 1
    ensures dev.None? || path.None? ==> c == Call([], Failure(InvalidParam))
    ensures dev.Some? && path.Some? && AddressArray(path.value, parse).Failure? ==> c == Call([], Failure(PathNotValid))
    ensures c.sent != [] <==> dev.Some? && path.Some? && AddressArray(path.value, parse).Success?
    ensures c.sent != [] ==>
              c.sent[0] == AddressRequest(AddressArray(path.value, parse).value, DefaultParam(show, true))
              && c == Send(dev.value, c.sent[0])
  {
    if dev.None? || path.None? then Call([], Failure(InvalidParam))
    else
      match AddressArray(path.value, parse)
      case Failure(_) => Call([], Failure(PathNotValid))
      case Success(levels) => Send(dev.value, AddressRequest(levels, DefaultParam(show, true)))
  }

  /** The first `|results|` paths were each answered by one successful
      `GetAddress(…, false)` on the device as it stood after the earlier requests. */
  ghost predicate Fetched(dev: Option<Device>, paths: seq<Option<PathArg>>, parse: PathParser,
                          sent: seq<Message>, results: seq<Response>)
  {
    && |results| == |sent| <= |paths|
    && forall i :: 0 <= i < |results| ==>
         GetAddress(Advance(dev, sent[..i]), paths[i], Given(false), parse) == Call([sent[i]], Success(results[i]))
  }

  /** `GetAddresses`: one address per path, in order, none shown on the device;
      the first failing path rejects the whole call with its error. */
  method GetAddresses(dev: Option<Device>, paths: seq<Option<PathArg>>, parse: PathParser)
    returns (c: Call<seq<Response>>, ghost done: seq<Response>)
    ensures |done| <= |c.sent|
    ensures Fetched(dev, paths, parse, c.sent[..|done|], done)
    ensures c.outcome.Success? ==> c.outcome.value == done && |done| == |paths| == |c.sent|
    ensures c.outcome.Success? ==> forall i :: 0 <= i < |c.sent| ==>
              c.sent[i].name == "StellarGetAddress" && c.sent[i].payload.show_display == Given(false)
    ensures c.outcome.Failure? ==>
              |done| < |paths|
              && var last := GetAddress(Advance(dev, c.sent[..|done|]), paths[|done|], Given(false), parse);
                 last.outcome.Failure? && c.outcome.error == last.outcome.error
                 && c.sent == c.sent[..|done|] + last.sent
  {
    var sent: seq<Message> := [];
    var results: seq<Response> := [];
    while |results| < |paths|
      invariant Fetched(dev, paths, parse, sent, results)
      invariant forall i :: 0 <= i < |sent| ==>
                  sent[i].name == "StellarGetAddress" && sent[i].payload.show_display == Given(false)
      decreases |paths| - |results|
    {
      var one := GetAddress(Advance(dev, sent), paths[|results|], Given(false), parse);
      if one.outcome.Failure? {
        assert (sent + one.sent)[..|results|] == sent;
        return Call(sent + one.sent, Failure(one.outcome.error)), results;
      }
      assert sent == (sent + one.sent)[..|results|];
      forall i | 0 <= i < |results|
        ensures (sent + one.sent)[..i] == sent[..i]
      {
      }
      sent := sent + one.sent;
      results := results + [one.outcome.value];
    }
    assert sent[..|results|] == sent;
    return Call(sent, Success(results)), results;
  }

  /** `GetPublicKey(device, path, showOnProkey = true)`. */
  function GetPublicKey(dev: Option<Device>, path: Option<PathArg>, show: JsBool, parse: PathParser): (c: Call<Response>)
    ensures |c.sent| <= 1
    ensures dev.None? || path.None? ==> c == Call([], Failure(InvalidParam))
    ensures dev.Some? && path.Some? && AddressArray(path.value, parse).Failure? ==> c == Call([], Failure(PathNotValid))
    ensures c.sent != [] <==> dev.Some? && path.Some? && AddressArray(path.value, parse).Success?
    ensures c.sent != [] ==>
              c.sent[0] == Message("GetPublicKey", AddressParams(AddressArray(path.value, parse).value, DefaultParam(show, true)), "PublicKey")
              && c == Send(dev.value, c.sent[0])
  {
    if dev.None? || path.None? then Call([], Failure(InvalidParam))
    else
      match AddressArray(path.value, parse)
      case Failure(_) => Call([], Failure(PathNotValid))
      case Success(levels) => Send(dev.value, Message("GetPublicKey", AddressParams(levels, DefaultParam(show, true)), "PublicKey"))
  }

  function HeaderRequest(tx: StellarSignTransactionRequest): Message
  {
    Message("StellarSignTx", SignTxParams(tx.signTxMessage), "StellarTxOpRequest")
  }

  function OperationRequest(tx: StellarSignTransactionRequest): Message
  {
    Message("StellarPaymentOp", OperationParams(tx.paymentOperation), "StellarSignedTx")
  }

  /** `SignTransaction`: both arguments are checked before any exchange; then
      the header is sent and, once the device asks for the operation, the
      payment operation. Both replies are discarded: success carries no value. */
  function SignTransaction(dev: Option<Device>, tx: Option<StellarSignTransactionRequest>): (c: Call<()>)
    ensures dev.None? || tx.None? ==> c == Call([], Failure(InvalidParam))
    ensures dev.Some? && tx.Some? ==> 1 <= |c.sent| <= 2 && c.sent[0] == HeaderRequest(tx.value)
    ensures |c.sent| == 2 ==>
              c.sent[1] == OperationRequest(tx.value)
              && dev.value.respond(dev.value.log, c.sent[0]).Success?
    ensures |c.sent| == 1 ==>
              var reply := dev.value.respond(dev.value.log, c.sent[0]);
              reply.Failure? && c.outcome == Failure(DeviceFailure(reply.error))
    ensures c.outcome.Success? <==>
              |c.sent| == 2 && dev.value.respond(dev.value.log + [c.sent[0]], c.sent[1]).Success?
  {
    if dev.None? || tx.None? then Call([], Failure(InvalidParam))
    else
      var header := Send(dev.value, HeaderRequest(tx.value));
      if header.outcome.Failure? then Call(header.sent, Failure(header.outcome.error))
      else
        var op := Send(Advance(dev, header.sent).value, OperationRequest(tx.value));
        Call(header.sent + op.sent, if op.outcome.Success? then Success(()) else Failure(op.outcome.error))
  }

  /** The device answered the `i`-th message of `sent`, given everything sent before it. */
  ghost predicate Answered(d: Device, sent: seq<Message>, i: nat)
    requires i < |sent|
  {
    d.respond(d.log + sent[..i], sent[i]).Success?
  }

  /** A run of the Stellar signing exchange, stated as a protocol: the header
      goes first; the payment operation goes only once the header was
      acknowledged; the run is signed exactly when the operation was
      acknowledged too, and otherwise fails with the refusal that ended it. */
  ghost predicate IsSigningRun(d: Device, tx: StellarSignTransactionRequest, sent: seq<Message>, outcome: Result<(), Error>)
  {
    && 1 <= |sent| <= 2
    && sent == [HeaderRequest(tx), OperationRequest(tx)][..|sent|]
    && (|sent| == 2 <==> Answered(d, sent, 0))
    && (outcome.Success? <==> |sent| == 2 && Answered(d, sent, 1))
    && (outcome.Failure? ==>
          outcome.error == DeviceFailure(d.respond(d.log + sent[..|sent| - 1], sent[|sent| - 1]).error))
  }

  /** Every exchange `SignTransaction` performs is a run of the signing protocol. */
  lemma SignTransactionFollowsProtocol(d: Device, tx: StellarSignTransactionRequest)
    ensures var c := SignTransaction(Some(d), Some(tx));
            IsSigningRun(d, tx, c.sent, c.outcome)
  {
    var c := SignTransaction(Some(d), Some(tx));
    assert c.sent[..0] == [];
    assert d.log + c.sent[..0] == d.log;
    if |c.sent| == 2 {
      assert c.sent[..1] == [HeaderRequest(tx)];
    }
  }

  /** The protocol leaves no choice: for a given device and transaction there
      is only one run, so the protocol determines `SignTransaction` entirely. */
  lemma SigningRunUnique(d: Device, tx: StellarSignTransactionRequest,
                         sent1: seq<Message>, outcome1: Result<(), Error>,
                         sent2: seq<Message>, outcome2: Result<(), Error>)
    requires IsSigningRun(d, tx, sent1, outcome1) && IsSigningRun(d, tx, sent2, outcome2)
    ensures sent1 == sent2 && outcome1 == outcome2
  {
    assert sent1[..0] == sent2[..0] == [];
    assert sent1[0] == sent2[0] == HeaderRequest(tx);
    assert |sent1| == |sent2|;
    assert sent1 == sent2;
    if outcome1.Success? {
      assert outcome1.value == () == outcome2.value;
    }
  }

  /** `SignMessage` has an empty body: it returns `undefined` without contacting the device. */
  function SignMessage(dev: Option<Device>, path: seq<nat>, message: seq<byte>, coinName: Option<string>): (c: Call<()>)
    ensures c.sent == [] && c.outcome.Success?
  {
    Call([], Success(()))
  }

  /** `VerifyMessage` resolves to `undefined` without contacting the device. */
  function VerifyMessage(dev: Option<Device>, address: string, message: seq<byte>, signature: seq<byte>,
                         coinName: Option<string>): (c: Call<()>)
    ensures c.sent == [] && c.outcome.Success?
  {
    Call([], Success(()))
  }
}
