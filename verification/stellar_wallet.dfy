/** The Stellar wallet: discovery of funded accounts, the native balance and
    reserve of a discovered account, and the payment intent handed to the
    device for signing. */
module StellarWallet {
  import opened Wrappers
  import opened Protocol
  import opened Paths
  import opened Http
  import opened StellarChain
  import Discovery

  /** Base reserve of the Stellar network, in XLM. */
  const STELLAR_BASE_RESERVE: real := 0.5

  /** `StellarSdk.Networks.PUBLIC`. */
  const NETWORK_PUBLIC := "Public Global Stellar Network ; September 2015"

  datatype StellarWallet = StellarWallet(coinInfo: CoinInfo, accounts: seq<StellarAccountInfo>)

  /** `GetAccountInfo` at every index: the backend lookup of the address the
      device reports for that index, `null` for an absent account and for any
      failed request alike. */
  function AccountLookup(bc: StellarBlockchain, addressAt: nat -> string, get: Getter<Option<StellarAccountInfo>>)
    : (lookup: nat -> Option<StellarAccountInfo>)
    ensures forall i: nat :: lookup(i).None? <==>
              var url := BASE_URL + AccountPath(bc.coinName, addressAt(i));
              get(url).Failure? || get(url).value.None?
    ensures forall i: nat :: lookup(i).Some? ==>
              lookup(i) == get(BASE_URL + AccountPath(bc.coinName, addressAt(i))).value
  {
    (i: nat) => GetAddressInfo(bc, addressAt(i), get).result.value
  }

  /** `StartDiscovery`: the accounts found are appended to those already held,
      which are not cleared, and the list held afterwards is the one returned. */
  method StartDiscovery(w: StellarWallet, lookup: nat -> Option<StellarAccountInfo>, hasCallback: bool, ghost gap: nat)
    returns (w': StellarWallet, result: seq<StellarAccountInfo>, notified: seq<StellarAccountInfo>)
    requires lookup(gap).None?
    ensures w'.coinInfo == w.coinInfo && w'.accounts == result
    ensures |result| >= |w.accounts| && result[..|w.accounts|] == w.accounts
    ensures Discovery.IsFundedPrefix(lookup, result[|w.accounts|..])
    ensures notified == if hasCallback then result[|w.accounts|..] else []
  {
    result, notified := Discovery.Discover(w.accounts, lookup, hasCallback, gap);
    w' := w.(accounts := result);
  }

  /** Discovery against the backend itself: the accounts appended are the
      backend's records for the addresses at indices `0 .. k - 1`, in order,
      and `k` is the first index whose request failed or came back `null`. */
  method DiscoverFromBackend(w: StellarWallet, bc: StellarBlockchain, addressAt: nat -> string,
                             get: Getter<Option<StellarAccountInfo>>, hasCallback: bool, ghost gap: nat)
    returns (w': StellarWallet, result: seq<StellarAccountInfo>, notified: seq<StellarAccountInfo>)
    requires var url := BASE_URL + AccountPath(bc.coinName, addressAt(gap)); get(url).Failure? || get(url).value.None?
    ensures w'.accounts == result && |result| >= |w.accounts| && result[..|w.accounts|] == w.accounts
    ensures forall j :: 0 <= j < |result| - |w.accounts| ==>
              get(BASE_URL + AccountPath(bc.coinName, addressAt(j))) == Success(Some(result[|w.accounts| + j]))
    ensures var url := BASE_URL + AccountPath(bc.coinName, addressAt(|result| - |w.accounts|));
            get(url).Failure? || get(url).value.None?
    ensures notified == if hasCallback then result[|w.accounts|..] else []
  {
    var lookup := AccountLookup(bc, addressAt, get);
    w', result, notified := StartDiscovery(w, lookup, hasCallback, gap);
    ghost var found := result[|w.accounts|..];
    forall j | 0 <= j < |result| - |w.accounts|
      ensures get(BASE_URL + AccountPath(bc.coinName, addressAt(j))) == Success(Some(result[|w.accounts| + j]))
    {
      assert lookup(j) == Some(found[j]);
    }
    assert lookup(|found|).None?;
  }

  /** Running discovery a second time on the same backend appends the same
      accounts again: the list holds every funded account twice. */
  lemma {:induction false} RediscoveryDuplicates(lookup: nat -> Option<StellarAccountInfo>, prior: seq<StellarAccountInfo>,
                                                 first: seq<StellarAccountInfo>, second: seq<StellarAccountInfo>)
    requires |first| >= |prior| && first[..|prior|] == prior
    requires Discovery.IsFundedPrefix(lookup, first[|prior|..])
    requires |second| >= |first| && second[..|first|] == first
    requires Discovery.IsFundedPrefix(lookup, second[|first|..])
    ensures second == prior + first[|prior|..] + first[|prior|..]
    ensures |second| == |prior| + 2 * (|first| - |prior|)
  {
    Discovery.FundedPrefixUnique(lookup, first[|prior|..], second[|first|..]);
    assert second == second[..|first|] + second[|first|..];
    assert first == first[..|prior|] + first[|prior|..];
  }

  /** `GetAccount`: an index at or past the end is rejected; there is no check
      below, and a negative index reads `undefined` (`None`). */
  function GetAccount(w: StellarWallet, accountNumber: int): (r: Result<Option<StellarAccountInfo>, Error>)
    ensures r.Failure? <==> accountNumber >= |w.accounts|
    ensures r.Failure? ==> r.error == AccountNumberWrong
    ensures 0 <= accountNumber < |w.accounts| ==> r == Success(Some(w.accounts[accountNumber]))
    ensures accountNumber < 0 ==> r == Success(None)
  {
    if accountNumber >= |w.accounts| then Failure(AccountNumberWrong)
    else if accountNumber < 0 then Success(None)
    else Success(Some(w.accounts[accountNumber]))
  }

  /** The balance of the first `native` entry, or 0 when there is none. */
  function NativeBalance(balances: seq<Balance>): (amount: real)
    ensures (forall i :: 0 <= i < |balances| ==> balances[i].asset_type != "native") ==> amount == 0.0
    ensures forall k :: 0 <= k < |balances| && balances[k].asset_type == "native"
                          && (forall j :: 0 <= j < k ==> balances[j].asset_type != "native")
                        ==> amount == balances[k].balance
  {
    if |balances| == 0 then 0.0
    else if balances[0].asset_type == "native" then balances[0].balance
    else NativeBalance(balances[1..])
  }

  /** `GetAccountBalance`: the native balance of the stored account. */
  function GetAccountBalance(w: StellarWallet, accountNumber: int): (r: Result<real, Error>)
    ensures accountNumber >= |w.accounts| ==> r == Failure(AccountNumberWrong)
    ensures accountNumber < 0 ==> r == Failure(TypeError)
    ensures 0 <= accountNumber < |w.accounts| ==> r == Success(NativeBalance(w.accounts[accountNumber].balances))
  {
    match GetAccount(w, accountNumber)
    case Failure(e) => Failure(e)
    case Success(None) => Failure(TypeError)
    case Success(Some(account)) => Success(NativeBalance(account.balances))
  }

  /** The minimum balance an account must keep: two base reserves plus one per
      subentry and per entry it sponsors (`num_sponsoring`), less one per entry
      sponsored for it (`num_sponsored`). */
  function Reserve(account: StellarAccountInfo): real
  {
    (2 + account.subentry_count + account.num_sponsoring - account.num_sponsored) as real * STELLAR_BASE_RESERVE
  }

  /** A bare account must keep 1 XLM, and every further subentry or sponsoring
      entry adds half an XLM. */
  lemma ReserveSteps(account: StellarAccountInfo)
    ensures account.subentry_count == 0 && account.num_sponsoring == 0 && account.num_sponsored == 0
            ==> Reserve(account) == 1.0
    ensures Reserve(account.(subentry_count := account.subentry_count + 1)) == Reserve(account) + 0.5
    ensures Reserve(account.(num_sponsoring := account.num_sponsoring + 1)) == Reserve(account) + 0.5
    ensures Reserve(account.(num_sponsored := account.num_sponsored + 1)) == Reserve(account) - 0.5
  {
  }

  /** `GetAccountReserveBalance`: the reserve of the stored account. */
  function GetAccountReserveBalance(w: StellarWallet, accountNumber: int): (r: Result<real, Error>)
    ensures accountNumber >= |w.accounts| ==> r == Failure(AccountNumberWrong)
    ensures accountNumber < 0 ==> r == Failure(TypeError)
    ensures 0 <= accountNumber < |w.accounts| ==>
              r.Success? && 2.0 * r.value == (2 + w.accounts[accountNumber].subentry_count
                                                 + w.accounts[accountNumber].num_sponsoring
                                                 - w.accounts[accountNumber].num_sponsored) as real
  {
    match GetAccount(w, accountNumber)
    case Failure(e) => Failure(e)
    case Success(None) => Failure(TypeError)
    case Success(Some(account)) => Success(Reserve(account))
  }

  /** What is left of the native balance once reserve, amount and fee are paid. */
  function Remaining(account: StellarAccountInfo, amount: real, fee: real): real
  {
    NativeBalance(account.balances) - Reserve(account) - amount - fee
  }

  /** `GenerateTransaction`: checks that the balance covers reserve, amount and
      fee, then builds the one-operation payment intent. `coinPath` is the
      wallet's path derivation for an account index, `amountText` the
      number-to-string conversion of the amount. */
  function GenerateTransaction(w: StellarWallet, toAccount: string, amount: real, accountNumber: int, selectedFee: real,
                               coinPath: int -> AddressModel, amountText: real -> string)
    : (r: Result<StellarSignTransactionRequest, Error>)
    ensures accountNumber >= |w.accounts| ==> r == Failure(AccountNumberWrong)
    ensures accountNumber < 0 ==> r == Failure(TypeError)
    ensures 0 <= accountNumber < |w.accounts| ==>
              (r.Failure? <==> Remaining(w.accounts[accountNumber], amount, selectedFee) < 0.0)
    ensures 0 <= accountNumber < |w.accounts| && r.Failure? ==> r.error == InsufficientBalance
    ensures r.Success? ==>
              var account := w.accounts[accountNumber];
              var path := coinPath(accountNumber);
              && r.value.signTxMessage == StellarSignTxMessage(path.path, path.address, selectedFee, account.sequence,
                                                               NETWORK_PUBLIC, 1)
              && r.value.paymentOperation == StellarOperationMessage("StellarPaymentOp", path.address, toAccount,
                                                                     StellarAsset(0, "XLM"), amountText(amount))
              && r.value.transactionModel == StellarEnvelope(account.account_id, account.sequence, selectedFee,
                                                             toAccount, amount)
  {
    match GetAccountBalance(w, accountNumber)
    case Failure(e) => Failure(e)
    case Success(balance) =>
      match GetAccountReserveBalance(w, accountNumber)
      case Failure(e) => Failure(e)
      case Success(reserve) =>
        if balance - reserve - amount - selectedFee < 0.0 then Failure(InsufficientBalance)
        else
          var path := coinPath(accountNumber);
          var account := w.accounts[accountNumber];
          var header := StellarSignTxMessage(path.path, path.address, selectedFee, account.sequence, NETWORK_PUBLIC, 1);
          var operation := StellarOperationMessage("StellarPaymentOp", path.address, toAccount, StellarAsset(0, "XLM"),
                                                   amountText(amount));
          Success(StellarSignTransactionRequest(header, operation,
                                                StellarEnvelope(account.account_id, account.sequence, selectedFee, toAccount, amount)))
  }

  /** The guard, stated on the account: a payment is accepted exactly when
      the native balance left after amount and fee still covers the reserve. */
  lemma GenerateAcceptsCovered(w: StellarWallet, toAccount: string, amount: real, accountNumber: int, selectedFee: real,
                               coinPath: int -> AddressModel, amountText: real -> string)
    requires 0 <= accountNumber < |w.accounts|
    ensures var account := w.accounts[accountNumber];
            GenerateTransaction(w, toAccount, amount, accountNumber, selectedFee, coinPath, amountText).Success?
            <==> NativeBalance(account.balances) - amount - selectedFee >= Reserve(account)
  {
  }

  /** Asking for less never turns an accepted payment into a refused one: the
      guard is monotone in both amount and fee. */
  lemma GenerateAcceptanceMonotone(w: StellarWallet, toAccount: string, accountNumber: int,
                                   amount: real, selectedFee: real, smallerAmount: real, smallerFee: real,
                                   coinPath: int -> AddressModel, amountText: real -> string)
    requires smallerAmount <= amount && smallerFee <= selectedFee
    requires GenerateTransaction(w, toAccount, amount, accountNumber, selectedFee, coinPath, amountText).Success?
    ensures GenerateTransaction(w, toAccount, smallerAmount, accountNumber, smallerFee, coinPath, amountText).Success?
  {
    GenerateAcceptsCovered(w, toAccount, amount, accountNumber, selectedFee, coinPath, amountText);
    GenerateAcceptsCovered(w, toAccount, smallerAmount, accountNumber, smallerFee, coinPath, amountText);
  }

  /** A worked instance of the guard: with balance 10, reserve 1.5 and fee
      0.01, sending 5 is allowed and sending 9 is refused. */
  lemma {:induction false} InsufficientBalanceExample(account: StellarAccountInfo)
    requires account.balances == [Balance("native", 10.0)]
    requires account.subentry_count == 1 && account.num_sponsoring == 0 && account.num_sponsored == 0
    ensures Reserve(account) == 1.5
    ensures Remaining(account, 5.0, 0.01) >= 0.0
    ensures Remaining(account, 9.0, 0.01) < 0.0
  {
    assert NativeBalance(account.balances) == 10.0;
  }
}
