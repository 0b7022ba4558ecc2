/** Gap-limit-0 account discovery shared by the wallets: starting at account
    index 0, look each index up and stop at the first one that yields nothing. */
module Discovery {
  import opened Wrappers

  /** `found` is exactly what the lookup yields at indices `0 .. |found| - 1`,
      and the lookup yields nothing at index `|found|`: the longest prefix of
      indices that all have an account. */
  ghost predicate IsFundedPrefix<T>(lookup: nat -> Option<T>, found: seq<T>)
  {
    && (forall j :: 0 <= j < |found| ==> lookup(j) == Some(found[j]))
    && lookup(|found|).None?
  }

  /** There is only one funded prefix for a given lookup. */
  lemma FundedPrefixUnique<T>(lookup: nat -> Option<T>, a: seq<T>, b: seq<T>)
    requires IsFundedPrefix(lookup, a) && IsFundedPrefix(lookup, b)
    ensures a == b
  {
  }

  /** Every index before the first gap has an account; so an account at an
      index past the first gap is never found. */
  lemma StopsAtFirstGap<T>(lookup: nat -> Option<T>, found: seq<T>, k: nat)
    requires IsFundedPrefix(lookup, found)
    requires lookup(k).None?
    ensures |found| <= k
  {
  }

  /** The discovery loop on an account list that already holds `prior`:
      each found account is appended and, when a callback is registered,
      handed to it right away. `gap` is an index with no account, which
      bounds the loop; the loop itself does not know it. */
  method Discover<T>(prior: seq<T>, lookup: nat -> Option<T>, hasCallback: bool, ghost gap: nat)
    returns (accounts: seq<T>, notified: seq<T>)
    requires lookup(gap).None?
    ensures |accounts| >= |prior| && accounts[..|prior|] == prior
    ensures IsFundedPrefix(lookup, accounts[|prior|..])
    ensures notified == if hasCallback then accounts[|prior|..] else []
  {
    accounts := prior;
    notified := [];
    var accountNumber: nat := 0;
    while true
      invariant accountNumber <= gap
      invariant |accounts| == |prior| + accountNumber && accounts[..|prior|] == prior
      invariant forall j :: 0 <= j < accountNumber ==> lookup(j) == Some(accounts[|prior| + j])
      invariant notified == if hasCallback then accounts[|prior|..] else []
      decreases gap - accountNumber
    {
      var account := lookup(accountNumber);
      if account.None? {
        assert forall j :: 0 <= j < accountNumber ==> accounts[|prior|..][j] == accounts[|prior| + j];
        return;
      }
      accounts := accounts + [account.value];
      if hasCallback {
        notified := notified + [account.value];
      }
      accountNumber := accountNumber + 1;
    }
  }
}
