/** The NEM chain-indexer client: URL templates, the `null` it makes of a
    failed account lookup, and the error it makes of a failed broadcast. */
module NemChain {
  import opened Wrappers
  import opened Protocol
  import opened Text
  import opened Http

  const DEFAULT_COIN := "Nem"

  datatype NemAccount = NemAccount(address: string, balance: nat, publicKey: Option<string>)
  datatype NemAccountInfo = NemAccountInfo(account: NemAccount, status: string)
  datatype NemTransaction = NemTransaction(signer: string, timeStamp: nat)
  datatype NemTransactionResponse = NemTransactionResponse(transaction: NemTransaction, hash: string)
  datatype NemAccountTransactionResponse = NemAccountTransactionResponse(data: Option<seq<NemTransactionResponse>>)
  datatype NemSubmitTransaction = NemSubmitTransaction(data: string, signature: string)

  datatype NemBlockchain = NemBlockchain(coinName: string)

  /** The constructor: `coinName: string = "Nem"` replaces only an omitted
      name. The name is only ever interpolated into URLs, so it is kept as the
      text it prints as there: an explicit `null` becomes the segment `null`. */
  function New(coinName: JsArg<string>): (bc: NemBlockchain)
    ensures coinName.Undefined? ==> bc.coinName == DEFAULT_COIN
    ensures coinName.Null? ==> bc.coinName == "null"
    ensures coinName.Given? ==> bc.coinName == coinName.value
  {
    NemBlockchain(StringText(DefaultParam(coinName, DEFAULT_COIN)))
  }

  function SubmitPath(coin: string): string { coin + "/transaction/submit" }
  function AccountPath(coin: string, address: string): string { coin + "/account/" + address }

  /** The query of the transactions page: the account, then a `hash` parameter
      only for a non-empty previous-page hash. */
  function TransactionsQuery(address: string, previousPageHash: Option<string>): string
  {
    var head := "accountAddress=" + address;
    if previousPageHash.Some? && previousPageHash.value != "" then head + "&hash=" + previousPageHash.value else head
  }

  function TransactionsPath(coin: string, address: string, previousPageHash: Option<string>): string
  {
    coin + "/account/transactions/?" + TransactionsQuery(address, previousPageHash)
  }

  /** The query carries the `hash` parameter exactly when a non-empty hash is
      given, as a separate parameter after the account. */
  lemma QueryParameters(address: string, previousPageHash: Option<string>)
    requires '&' !in address
    requires previousPageHash.Some? ==> '&' !in previousPageHash.value
    ensures previousPageHash.Some? && previousPageHash.value != "" ==>
              Split(TransactionsQuery(address, previousPageHash), '&')
              == ["accountAddress=" + address, "hash=" + previousPageHash.value]
    ensures previousPageHash.None? || previousPageHash.value == "" ==>
              Split(TransactionsQuery(address, previousPageHash), '&') == ["accountAddress=" + address]
  {
    var head := "accountAddress=" + address;
    if previousPageHash.Some? && previousPageHash.value != "" {
      assert TransactionsQuery(address, previousPageHash) == head + "&" + ("hash=" + previousPageHash.value);
      SplitTwo(head, "hash=" + previousPageHash.value, '&');
    } else {
      SplitWithoutSeparator(head, '&');
    }
  }

  /** `BroadCastTransaction`: POST the data to the submit route; any failure
      becomes "error in submit transaction", the backend's reason is dropped. */
  function BroadCastTransaction<R>(bc: NemBlockchain, data: NemSubmitTransaction, post: Poster<R>): (f: Fetched<R>)
    ensures f.request == Post(BASE_URL + SubmitPath(bc.coinName), NemSubmission(data.data, data.signature))
    ensures f.result.Success? <==> post(f.request.url, f.request.body).Success?
    ensures f.result.Success? ==> f.result.value == post(f.request.url, f.request.body).value
    ensures f.result.Failure? ==> ErrorText(f.result.error) == Some("error in submit transaction")
  {
    var f := PostToServer(SubmitPath(bc.coinName), NemSubmission(data.data, data.signature), post);
    Fetched(f.request, if f.result.Success? then f.result else Failure(SubmitFailed))
  }

  /** `GetAddressInfo`: the account record, or `null` when the server answers
      `null` or the request fails for any reason. */
  function GetAddressInfo(bc: NemBlockchain, address: string, get: Getter<Option<NemAccountInfo>>)
    : (f: Fetched<Option<NemAccountInfo>>)
    ensures f.request == Get(BASE_URL + AccountPath(bc.coinName, address))
    ensures f.result.Success?
    ensures f.result.value.Some? <==> get(f.request.url).Success? && get(f.request.url).value.Some?
    ensures f.result.value.Some? ==> f.result.value == get(f.request.url).value
  {
    GetOrNull(AccountPath(bc.coinName, address), get)
  }

  /** `GetAccountTransactions`: the `data` list when the answer and its `data`
      field are non-null, `null` otherwise; a failed request is not caught. */
  function GetAccountTransactions(bc: NemBlockchain, address: string, previousPageHash: Option<string>,
                                  get: Getter<Option<NemAccountTransactionResponse>>)
    : (f: Fetched<Option<seq<NemTransactionResponse>>>)
    ensures f.request == Get(BASE_URL + TransactionsPath(bc.coinName, address, previousPageHash))
    ensures f.result.Failure? <==> get(f.request.url).Failure?
    ensures f.result.Failure? ==> f.result.error == BackendFailure(get(f.request.url).error)
    ensures f.result.Success? ==>
              (f.result.value.Some? <==> get(f.request.url).value.Some? && get(f.request.url).value.value.data.Some?)
    ensures f.result.Success? && f.result.value.Some? ==> f.result.value == get(f.request.url).value.value.data
  {
    var f := GetFromServer(TransactionsPath(bc.coinName, address, previousPageHash), get);
    match f.result
    case Failure(e) => Fetched(f.request, Failure(e))
    case Success(response) =>
      Fetched(f.request, if response.Some? && response.value.data.Some? then Success(response.value.data) else Success(None))
  }
}
