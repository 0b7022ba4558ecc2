/** The NEM wallet: discovery (which starts from an empty account list), the
    transaction listing of an account, and the hardened BIP-44 path of an
    account index together with its string notation. */
module NemWallet {
  import opened Wrappers
  import opened Protocol
  import opened Text
  import opened Paths
  import opened Http
  import opened NemChain
  import Discovery

  datatype NemWallet = NemWallet(coinInfo: CoinInfo, accounts: seq<NemAccount>)

  /** `IsAddressValid` rejects every address. */
  function IsAddressValid(address: string): (valid: bool)
    ensures !valid
  {
    false
  }

  /** `GetAccountInfo` at every index: the backend lookup of the address the
      device reports for that index, `null` for an absent account and for any
      failed request alike. */
  function AccountLookup(bc: NemBlockchain, addressAt: nat -> string, get: Getter<Option<NemAccountInfo>>)
    : (lookup: nat -> Option<NemAccountInfo>)
    ensures forall i: nat :: lookup(i).None? <==>
              var url := BASE_URL + AccountPath(bc.coinName, addressAt(i));
              get(url).Failure? || get(url).value.None?
    ensures forall i: nat :: lookup(i).Some? ==>
              lookup(i) == get(BASE_URL + AccountPath(bc.coinName, addressAt(i))).value
  {
    (i: nat) => GetAddressInfo(bc, addressAt(i), get).result.value
  }

  /** The account part of a lookup: `accountInfo.account`, or nothing. */
  function AccountOf(info: Option<NemAccountInfo>): Option<NemAccount>
  {
    if info.Some? then Some(info.value.account) else None
  }

  /** `StartDiscovery`: the account list is reset first, so the result is the
      funded prefix alone, made of the `account` part of each lookup. */
  method StartDiscovery(w: NemWallet, lookup: nat -> Option<NemAccountInfo>, hasCallback: bool, ghost gap: nat)
    returns (w': NemWallet, result: seq<NemAccount>, notified: seq<NemAccount>)
    requires lookup(gap).None?
    ensures w'.coinInfo == w.coinInfo && w'.accounts == result
    ensures forall j :: 0 <= j < |result| ==> lookup(j).Some? && result[j] == lookup(j).value.account
    ensures lookup(|result|).None?
    ensures notified == if hasCallback then result else []
  {
    var accounts := (i: nat) => AccountOf(lookup(i));
    result, notified := Discovery.Discover([], accounts, hasCallback, gap);
    assert result[0..] == result;
    forall j: nat | j < |result|
      ensures lookup(j).Some? && result[j] == lookup(j).value.account
    {
      assert accounts(j) == Some(result[j]);
      assert accounts(j) == AccountOf(lookup(j));
    }
    assert accounts(|result|) == AccountOf(lookup(|result|));
    w' := w.(accounts := result);
  }

  /** Discovery against the backend itself: the accounts found are the
      `account` parts of the backend's records for the addresses at indices
      `0 .. k - 1`, in order, and `k` is the first index whose request failed
      or came back `null`. */
  method DiscoverFromBackend(w: NemWallet, bc: NemBlockchain, addressAt: nat -> string,
                             get: Getter<Option<NemAccountInfo>>, hasCallback: bool, ghost gap: nat)
    returns (w': NemWallet, result: seq<NemAccount>, notified: seq<NemAccount>)
    requires var url := BASE_URL + AccountPath(bc.coinName, addressAt(gap)); get(url).Failure? || get(url).value.None?
    ensures w'.accounts == result
    ensures forall j :: 0 <= j < |result| ==>
              var answer := get(BASE_URL + AccountPath(bc.coinName, addressAt(j)));
              answer.Success? && answer.value.Some? && answer.value.value.account == result[j]
    ensures var url := BASE_URL + AccountPath(bc.coinName, addressAt(|result|));
            get(url).Failure? || get(url).value.None?
    ensures notified == if hasCallback then result else []
  {
    var lookup := AccountLookup(bc, addressAt, get);
    w', result, notified := StartDiscovery(w, lookup, hasCallback, gap);
    forall j | 0 <= j < |result|
      ensures var answer := get(BASE_URL + AccountPath(bc.coinName, addressAt(j)));
              answer.Success? && answer.value.Some? && answer.value.value.account == result[j]
    {
      assert lookup(j).Some?;
    }
    assert lookup(|result|).None?;
  }

  /** Discovery on an unchanged backend gives the same accounts whatever the
      wallet held before: running it twice changes nothing. */
  lemma RediscoveryStable(lookup: nat -> Option<NemAccountInfo>, first: seq<NemAccount>, second: seq<NemAccount>)
    requires forall j :: 0 <= j < |first| ==> lookup(j).Some? && first[j] == lookup(j).value.account
    requires lookup(|first|).None?
    requires forall j :: 0 <= j < |second| ==> lookup(j).Some? && second[j] == lookup(j).value.account
    requires lookup(|second|).None?
    ensures first == second
  {
    var accounts := (i: nat) => AccountOf(lookup(i));
    Discovery.FundedPrefixUnique(accounts, first, second);
  }

  /** `GetAccountTransactions`: the `transaction` of every entry the backend
      lists, in order, or nothing when the backend answers `null`. */
  function GetAccountTransactions(bc: NemBlockchain, account: string, get: Getter<Option<NemAccountTransactionResponse>>)
    : (r: Result<seq<NemTransaction>, Error>)
    ensures var f := NemChain.GetAccountTransactions(bc, account, None, get);
            && (r.Failure? <==> f.result.Failure?)
            && (r.Failure? ==> r.error == f.result.error)
            && (r.Success? && f.result.value.None? ==> r.value == [])
            && (r.Success? && f.result.value.Some? ==>
                  |r.value| == |f.result.value.value|
                  && forall i :: 0 <= i < |r.value| ==> r.value[i] == f.result.value.value[i].transaction)
  {
    var f := NemChain.GetAccountTransactions(bc, account, None, get);
    match f.result
    case Failure(e) => Failure(e)
    case Success(None) => Success([])
    case Success(Some(entries)) => Success(seq(|entries|, i requires 0 <= i < |entries| => entries[i].transaction))
  }

  /** The coin's account path: `44'/slip44'/n'`, all three levels hardened. */
  function GetCoinPath(slip44: nat, accountNumber: nat): (m: AddressModel)
    ensures m.path == [Harden(PURPOSE), Harden(slip44), Harden(accountNumber)]
    ensures m.path[0] == 0x8000002C
    ensures ParseHardened(m.serializedPath) == Some(m.path)
    ensures m.address.None?
  {
    var levels := [PURPOSE, slip44, accountNumber];
    SerializeParseRoundTrip(levels);
    assert seq(|levels|, i requires 0 <= i < |levels| => Harden(levels[i])) == [Harden(PURPOSE), Harden(slip44), Harden(accountNumber)];
    AddressModel([Harden(PURPOSE), Harden(slip44), Harden(accountNumber)], SerializeHardened(levels), None)
  }

  /** Offset added to the account index in the notation as written (seven zeros,
      one fewer than the hardened offset). */
  const SERIALIZED_OFFSET: nat := 0x800_0000

  /** `GetCoinPath` as written: the path is the same, but the notation's
      account level is `0x8000000 + n` instead of `n`. */
  function GetCoinPathAsWritten(slip44: nat, accountNumber: nat): (m: AddressModel)
    ensures m.path == GetCoinPath(slip44, accountNumber).path
    ensures ParseHardened(m.serializedPath)
              == Some([Harden(PURPOSE), Harden(slip44), Harden(SERIALIZED_OFFSET + accountNumber)])
  {
    var levels := [PURPOSE, slip44, SERIALIZED_OFFSET + accountNumber];
    var text := "44'/" + NatToString(slip44) + "'/" + NatToString(SERIALIZED_OFFSET + accountNumber) + "'";
    assert text == SerializeHardened(levels) by {
      var parts := seq(|levels|, i requires 0 <= i < |levels| => Segment(levels[i]));
      assert parts == [Segment(PURPOSE), Segment(slip44), Segment(SERIALIZED_OFFSET + accountNumber)];
      JoinThree(Segment(PURPOSE), Segment(slip44), Segment(SERIALIZED_OFFSET + accountNumber), '/');
      assert NatToString(PURPOSE) == "44";
      assert Segment(PURPOSE) == "44'";
    }
    SerializeParseRoundTrip(levels);
    assert seq(|levels|, i requires 0 <= i < |levels| => Harden(levels[i]))
        == [Harden(PURPOSE), Harden(slip44), Harden(SERIALIZED_OFFSET + accountNumber)];
    AddressModel([0x8000002C, HARDENED + slip44, HARDENED + accountNumber], text, None)
  }

  /** As written, the notation names another account than the path does:
      reading it back never gives the path it accompanies, for any index. */
  lemma AsWrittenNotationDisagrees(slip44: nat, accountNumber: nat)
    ensures var m := GetCoinPathAsWritten(slip44, accountNumber);
            ParseHardened(m.serializedPath) != Some(m.path)
            && ParseHardened(m.serializedPath) != ParseHardened(GetCoinPath(slip44, accountNumber).serializedPath)
  {
    var m := GetCoinPathAsWritten(slip44, accountNumber);
    assert m.path[2] != Harden(SERIALIZED_OFFSET + accountNumber);
  }

  /** The path itself is the same in both versions; only the notation differs. */
  lemma AsWrittenPathAgrees(slip44: nat, accountNumber: nat)
    ensures GetCoinPathAsWritten(slip44, accountNumber).path == GetCoinPath(slip44, accountNumber).path
    ensures GetCoinPathAsWritten(slip44, accountNumber).path[2] - HARDENED == accountNumber
  {
  }
}
