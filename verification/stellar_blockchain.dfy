/** The Stellar chain-indexer client: URL templates per query, and which
    answers are passed on, which become `null`, and which errors escape. */
module StellarChain {
  import opened Wrappers
  import opened Protocol
  import opened Text
  import opened Http

  const DEFAULT_COIN := "Xlm"
  const DEFAULT_LIMIT: nat := 10

  datatype Balance = Balance(asset_type: string, balance: real)

  /** The account record the indexer returns (balance strings already read as numbers). */
  datatype StellarAccountInfo = StellarAccountInfo(
    account_id: string,
    sequence: string,
    balances: seq<Balance>,
    subentry_count: int,
    num_sponsoring: int,
    num_sponsored: int)

  datatype StellarTransaction = StellarTransaction(id: string)
  datatype StellarTransactionResponse = StellarTransactionResponse(transactions: Option<seq<StellarTransaction>>)
  datatype StellarOperation = StellarOperation(id: string)
  datatype StellarTransactionOperationResponse = StellarTransactionOperationResponse(operations: Option<seq<StellarOperation>>)

  datatype StellarBlockchain = StellarBlockchain(coinName: string)

  /** The constructor: `coinName: string = "Xlm"` replaces only an omitted
      name. The name is only ever interpolated into URLs, so it is kept as the
      text it prints as there: an explicit `null` becomes the segment `null`. */
  function New(coinName: JsArg<string>): (bc: StellarBlockchain)
    ensures coinName.Undefined? ==> bc.coinName == DEFAULT_COIN
    ensures coinName.Null? ==> bc.coinName == "null"
    ensures coinName.Given? ==> bc.coinName == coinName.value
  {
    StellarBlockchain(StringText(DefaultParam(coinName, DEFAULT_COIN)))
  }

  function SubmitPath(coin: string): string { coin + "/transaction/submit" }
  function AccountPath(coin: string, address: string): string { coin + "/account/" + address }
  function OperationsPath(coin: string, transactionId: string): string { coin + "/transaction/" + transactionId + "/operations" }
  function FeePath(coin: string): string { coin + "/fee" }

  /** How `limit: number = 10` prints in the query: the default replaces
      only an omitted limit, and an explicit `null` prints as `null`. */
  function LimitText(limit: JsArg<nat>): (t: string)
    ensures limit.Undefined? ==> t == NatToString(DEFAULT_LIMIT)
    ensures limit.Null? ==> t == "null"
    ensures limit.Given? ==> t == NatToString(limit.value)
    ensures '&' !in t
  {
    match limit
    case Undefined => NatToStringAvoids(DEFAULT_LIMIT, '&'); NatToString(DEFAULT_LIMIT)
    case Null => "null"
    case Given(n) => NatToStringAvoids(n, '&'); NatToString(n)
  }

  /** The query of the transactions page as evidently intended: `limit` and,
      for a non-empty cursor, a separate `cursor` parameter. */
  function TransactionsQuery(limit: JsArg<nat>, cursor: Option<string>): string
  {
    var head := "limit=" + LimitText(limit);
    if cursor.Some? && cursor.value != "" then head + "&cursor=" + cursor.value else head
  }

  /** The query as the source writes it: the cursor is glued on without `&`. */
  function TransactionsQueryAsWritten(limit: JsArg<nat>, cursor: Option<string>): (q: string)
    ensures cursor.None? || cursor.value == "" ==> q == TransactionsQuery(limit, cursor)
    ensures cursor.Some? && '&' !in cursor.value ==> '&' !in q
  {
    var head := "limit=" + LimitText(limit);
    if cursor.Some? && cursor.value != "" then head + "cursor=" + cursor.value else head
  }

  /** The transactions route, with the query as the source builds it. */
  function TransactionsPath(coin: string, address: string, limit: JsArg<nat>, cursor: Option<string>): string
  {
    coin + "/transaction/account/" + address + "?" + TransactionsQueryAsWritten(limit, cursor)
  }

  /** The submit route is the coin name followed by `transaction/submit`. */
  lemma SubmitRoute(coin: string)
    requires '/' !in coin
    ensures Split(SubmitPath(coin), '/') == [coin, "transaction", "submit"]
  {
    assert SubmitPath(coin) == coin + "/" + "transaction" + "/" + "submit";
    SplitThree(coin, "transaction", "submit", '/');
  }

  /** The account route is the coin name, `account`, then the address, as long
      as neither contains a `/`. */
  lemma AccountRoute(coin: string, address: string)
    requires '/' !in coin && '/' !in address
    ensures Split(AccountPath(coin, address), '/') == [coin, "account", address]
  {
    assert AccountPath(coin, address) == coin + "/" + "account" + "/" + address;
    SplitThree(coin, "account", address, '/');
  }

  /** The operations route names the transaction between `transaction` and `operations`. */
  lemma OperationsRoute(coin: string, transactionId: string)
    requires '/' !in coin && '/' !in transactionId
    ensures Split(OperationsPath(coin, transactionId), '/') == [coin, "transaction", transactionId, "operations"]
  {
    assert OperationsPath(coin, transactionId) == coin + "/" + "transaction" + "/" + transactionId + "/" + "operations";
    SplitFour(coin, "transaction", transactionId, "operations", '/');
  }

  /** With a cursor, the query reads as two parameters, `limit` and `cursor`. */
  lemma QuerySeparatesCursor(limit: JsArg<nat>, cursor: string)
    requires cursor != "" && '&' !in cursor
    ensures Split(TransactionsQuery(limit, Some(cursor)), '&') == ["limit=" + LimitText(limit), "cursor=" + cursor]
  {
    var head := "limit=" + LimitText(limit);
    assert TransactionsQuery(limit, Some(cursor)) == head + "&" + ("cursor=" + cursor);
    SplitTwo(head, "cursor=" + cursor, '&');
  }

  /** As written, the query is a single `limit` parameter whose value has the
      cursor glued onto it: the cursor never reaches the server as a parameter. */
  lemma QueryAsWrittenMergesCursor(limit: JsArg<nat>, cursor: string)
    requires cursor != "" && '&' !in cursor
    ensures Split(TransactionsQueryAsWritten(limit, Some(cursor)), '&') == ["limit=" + LimitText(limit) + "cursor=" + cursor]
  {
    var q := TransactionsQueryAsWritten(limit, Some(cursor));
    SplitWithoutSeparator(q, '&');
  }

  /** `BroadCastTransaction`: POST `{"SignedTransactionBlob": data}` to the submit route. */
  function BroadCastTransaction<R>(bc: StellarBlockchain, data: string, post: Poster<R>): (f: Fetched<R>)
    ensures f.request == Post(BASE_URL + SubmitPath(bc.coinName), SignedTransactionBlob(data))
    ensures f.result.Success? <==> post(f.request.url, f.request.body).Success?
    ensures f.result.Success? ==> f.result.value == post(f.request.url, f.request.body).value
    ensures f.result.Failure? ==> f.result.error == BackendFailure(post(f.request.url, f.request.body).error)
  {
    PostToServer(SubmitPath(bc.coinName), SignedTransactionBlob(data), post)
  }

  /** `GetAddressInfo`: the account record, or `null` when the server answers
      `null` or the request fails for any reason. */
  function GetAddressInfo(bc: StellarBlockchain, address: string, get: Getter<Option<StellarAccountInfo>>)
    : (f: Fetched<Option<StellarAccountInfo>>)
    ensures f.request == Get(BASE_URL + AccountPath(bc.coinName, address))
    ensures f.result.Success?
    ensures f.result.value.Some? <==> get(f.request.url).Success? && get(f.request.url).value.Some?
    ensures f.result.value.Some? ==> f.result.value == get(f.request.url).value
  {
    GetOrNull(AccountPath(bc.coinName, address), get)
  }

  /** `GetAccountTransactions`: the page only when it and its `transactions`
      field are non-null; a failed request is not caught. */
  function GetAccountTransactions(bc: StellarBlockchain, address: string, limit: JsArg<nat>, cursor: Option<string>,
                                  get: Getter<Option<StellarTransactionResponse>>)
    : (f: Fetched<Option<StellarTransactionResponse>>)
    ensures f.request == Get(BASE_URL + TransactionsPath(bc.coinName, address, limit, cursor))
    ensures f.result.Failure? <==> get(f.request.url).Failure?
    ensures f.result.Failure? ==> f.result.error == BackendFailure(get(f.request.url).error)
    ensures f.result.Success? ==>
              (f.result.value.Some? <==> get(f.request.url).value.Some? && get(f.request.url).value.value.transactions.Some?)
    ensures f.result.Success? && f.result.value.Some? ==> f.result.value == get(f.request.url).value
  {
    var f := GetFromServer(TransactionsPath(bc.coinName, address, limit, cursor), get);
    match f.result
    case Failure(e) => Fetched(f.request, Failure(e))
    case Success(page) =>
      Fetched(f.request, if page.Some? && page.value.transactions.Some? then Success(page) else Success(None))
  }

  /** `GetTransactionOperations`: the answer only when it and its `operations`
      field are non-null; a failed request is not caught. */
  function GetTransactionOperations(bc: StellarBlockchain, transactionId: string,
                                    get: Getter<Option<StellarTransactionOperationResponse>>)
    : (f: Fetched<Option<StellarTransactionOperationResponse>>)
    ensures f.request == Get(BASE_URL + OperationsPath(bc.coinName, transactionId))
    ensures f.result.Failure? <==> get(f.request.url).Failure?
    ensures f.result.Failure? ==> f.result.error == BackendFailure(get(f.request.url).error)
    ensures f.result.Success? ==>
              (f.result.value.Some? <==> get(f.request.url).value.Some? && get(f.request.url).value.value.operations.Some?)
    ensures f.result.Success? && f.result.value.Some? ==> f.result.value == get(f.request.url).value
  {
    var f := GetFromServer(OperationsPath(bc.coinName, transactionId), get);
    match f.result
    case Failure(e) => Fetched(f.request, Failure(e))
    case Success(ops) =>
      Fetched(f.request, if ops.Some? && ops.value.operations.Some? then Success(ops) else Success(None))
  }

  /** `GetCurrentFee`: GET the fee route and pass the answer through. */
  function GetCurrentFee<F>(bc: StellarBlockchain, get: Getter<F>): (f: Fetched<F>)
    ensures f.request == Get(BASE_URL + FeePath(bc.coinName))
    ensures f.result.Success? <==> get(f.request.url).Success?
    ensures f.result.Success? ==> f.result.value == get(f.request.url).value
    ensures f.result.Failure? ==> f.result.error == BackendFailure(get(f.request.url).error)
  {
    GetFromServer(FeePath(bc.coinName), get)
  }
}
