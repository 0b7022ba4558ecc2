# Discovery-and-signing core of the Prokey wallet SDK, in Dafny

This project models the orchestration layer of a multi-coin hardware-wallet SDK
for NEM, Stellar and Ripple:

- the per-coin **command sets**: the exact device messages each call sends, as
  (request name, payload, expected response), the parameter checks that run
  before any message, the defaults of optional arguments, and the NEM network
  id;
- the **chain-indexer clients**: URL templates, which answers are passed on,
  which become `null`, and which errors escape;
- **account discovery**, which stops at the first index without an account;
- the **Stellar wallet arithmetic and payment intent**: native balance, reserve
  `(2 + subentries + sponsoring - sponsored) * 0.5`, the insufficient-balance
  guard, and the fields of the `StellarSignTx` header and its single
  `StellarPaymentOp` operation;
- the **NEM account path** `44'/slip44'/n'` (section "Path levels" of BIP-44,
  hardened indices as in BIP-32) and its string notation.

The device and the HTTP server are oracles. The device is a function from
(messages already sent, new message) to a reply or a failure. Every command
returns `Call(sent, outcome)`: the messages it sent, in order, and its result.
The server is a function from URL to decoded JSON or a failure. Every client
call returns `Fetched(request, result)`. Where the code treats JavaScript `null`
and `undefined` alike (`!= null` tests, `if (cursor)`), both become `Option.None`.
Thrown errors and rejected promises become `Result.Failure`. An argument with
a default is a `JsArg` (`Undefined`, `Null` or `Given(v)`), which keeps the two
kinds of defaults apart. A default parameter (`x: boolean = true`,
`coinName: string = "Xlm"`, `limit: number = 10`) replaces only `undefined`,
while `x == null ? true : x` replaces both.

Files: `wrappers.dfy`, `text.dfy` (decimal strings, splitting), `protocol.dfy`
(errors, messages, device), `paths.dfy`, `nem_commands.dfy`,
`stellar_commands.dfy`, `ripple_commands.dfy`, `http.dfy`,
`stellar_blockchain.dfy` (module `StellarChain`), `nem_blockchain.dfy` (module
`NemChain`), `discovery.dfy`, `stellar_wallet.dfy`, `nem_wallet.dfy`.

Behaviours of the code worth knowing, all kept in the model:

- Both clients' `GetAddressInfo` turn every failed request into `null`. So
  discovery stops at a backend failure exactly as at a missing account
  (`StellarWallet.AccountLookup`, `NemWallet.AccountLookup`).
- Stellar discovery appends to the accounts already held instead of replacing
  them. A second run duplicates every account (`StellarWallet.RediscoveryDuplicates`).
- Stellar `SignTransaction` sends both messages but discards the replies and
  resolves with no value. No signed artifact is assembled.
- NEM `GetAddress` lets the path parser's exception through instead of
  reporting `PATH_NOT_VALID`.
- NEM broadcast replaces the backend's error with "error in submit transaction".

## Model

| member | source | states |
|---|---|---|
| `Paths.AddressArray` | src/device/NemCommands.ts:119-125 | A list of indices is used unchanged. A string goes to the path parser, whose failure propagates. The Stellar copy at src/device/StellarCommands.ts:112-118 is identical. |
| `Paths.SerializeParseRoundTrip` | src/wallet/NemWallet.ts:76-82 | Reading back the `l0'/l1'/…` notation of any non-empty path gives each level hardened (2^31 + level). |
| `Protocol.DefaultParam` | src/device/NemCommands.ts:29 | A default parameter `= d` replaces `undefined` only. `null` and explicit values pass through. |
| `Protocol.StringText` | src/blockchain/servers/prokey/src/stellar/Stellar.ts:14-18 | How a string argument prints in a template literal: the value itself, `null` as `null`, and an omitted argument as `undefined`. |
| `Protocol.NullishDefault` | src/device/RippleCommands.ts:63 | `null` and `undefined` both become `true`. An explicit boolean passes through. |
| `Protocol.OrDefault` | src/device/NemCommands.ts:83 | `coinName \|\| 'Nem'`: an absent or empty name becomes the default, any other name is kept. |
| `NemCommands.New` | src/device/NemCommands.ts:22-27 | Construction fails with "Cannot load CoinInfo" exactly when no NEM descriptor is registered under the name. |
| `NemCommands.NetworkId` | src/device/NemCommands.ts:110-117 | The network id is 0x98 iff the coin is a test coin, and 0x68 otherwise. |
| `NemCommands.GetAddress` | src/device/NemCommands.ts:29-44 | A null device or path gives INVALID_PARAM and sends nothing. An unparsable path gives the parser's error and sends nothing. Otherwise exactly one `NEMGetAddress` is sent, expecting `NEMAddress`, with the indices, the network id and `show_display` defaulting to true, and the device's reply is the result. |
| `NemCommands.GetAddresses` | src/device/NemCommands.ts:46-52 | On success there is one reply per path, in order, from one `GetAddress(…, false)` per path on the device as left by the previous ones. Exactly one message is sent per path, each a `NEMGetAddress` with `show_display` false. On failure, the paths before the failing one succeeded, and the result is the failing call's error and messages. |
| `NemCommands.GetPublicKey` | src/device/NemCommands.ts:58-75 | A null device or path gives INVALID_PARAM. A parse failure gives PATH_NOT_VALID. In neither case is anything sent. Otherwise one `GetPublicKey` is sent, expecting `PublicKey`, with `show_display` passed as given. |
| `NemCommands.ParseFailureReporting` | src/device/NemCommands.ts:34-68 | For a path string the parser rejects, `GetAddress` fails with the parser's error while `GetPublicKey` fails with PATH_NOT_VALID. Neither sends a message. |
| `NemCommands.SignMessage` | src/device/NemCommands.ts:77-92 | One `SignMessage` is sent, with coin name defaulting to `Nem` and the script type of the path. A present signature comes back hex-encoded; an absent one stays absent. The call succeeds iff the device answers; a refusal comes back as the device's failure. Without a device, the call fails before sending. |
| `NemCommands.SignTransaction` | src/device/NemCommands.ts:94-99 | This is a stub. It returns `{data: "test", signature: "test"}` and sends nothing. |
| `NemCommands.VerifyMessage` | src/device/NemCommands.ts:101-108 | One `VerifyMessage` is sent, expecting `Success`, with coin name defaulting to `Nem`. Without a device, the call fails before sending. |
| `StellarCommands.New` | src/device/StellarCommands.ts:21-23 | The descriptor is looked up under the Ripple base type. A missing descriptor is kept as null; construction never fails. |
| `StellarCommands.GetAddress` | src/device/StellarCommands.ts:25-43 | A null device or path gives INVALID_PARAM. A parse failure gives PATH_NOT_VALID. In neither case is anything sent. Otherwise exactly one `StellarGetAddress` is sent, expecting `StellarAddress`, with `show_display` defaulting to true. |
| `StellarCommands.GetAddresses` | src/device/StellarCommands.ts:45-51 | One reply per path, in order, one `StellarGetAddress` with `show_display` false per path. The first failure stops the loop and is the result. |
| `StellarCommands.GetPublicKey` | src/device/StellarCommands.ts:57-74 | Same checks as `GetAddress`. One `GetPublicKey` is sent, expecting `PublicKey`, with `show_display` defaulting to true. |
| `StellarCommands.SignMessage` | src/device/StellarCommands.ts:76-77 | The body is empty. Nothing is sent and no value is returned. |
| `StellarCommands.SignTransaction` | src/device/StellarCommands.ts:79-106 | A null device or transaction gives INVALID_PARAM before any exchange. Otherwise `StellarSignTx` (expecting `StellarTxOpRequest`) is sent first. The `StellarPaymentOp` (expecting `StellarSignedTx`) is sent second, only if the first was answered. Success means both were answered, and it carries no value. |
| `StellarCommands.SignTransactionFollowsProtocol` | src/device/StellarCommands.ts:79-106 | Every exchange the call performs is a run of the signing protocol `IsSigningRun`. In such a run the header goes first, the operation goes only after the header was acknowledged, the run is signed iff the operation was acknowledged too, and otherwise it fails with the refusal that ended it. |
| `StellarCommands.SigningRunUnique` | src/device/StellarCommands.ts:79-106 | For one device and transaction the protocol admits a single run, so it determines the messages and the outcome completely. |
| `StellarCommands.VerifyMessage` | src/device/StellarCommands.ts:108-110 | Resolves with no value and never contacts the device. |
| `RippleCommands.New` | src/device/RippleCommands.ts:37-43 | Construction fails with "Cannot load CoinInfo" exactly when no Ripple descriptor is registered. |
| `RippleCommands.GetAddress` | src/device/RippleCommands.ts:58-85 | A null device or path gives INVALID_PARAM. A null or undefined display flag becomes true. An unparsable string gives PATH_NOT_VALID, and an index list is used unchanged. A valid call sends exactly one `RippleGetAddress`, expecting `RippleAddress`. |
| `RippleCommands.GetPublicKey` | src/device/RippleCommands.ts:139-169 | Same checks and display default as `GetAddress`. One `GetPublicKey` is sent, expecting `PublicKey`. |
| `RippleCommands.SignTransaction` | src/device/RippleCommands.ts:176-178 | Always fails with "Method not implemented." and sends nothing. |
| `RippleCommands.SignMessage` | src/device/RippleCommands.ts:187-193 | Always fails with "Method not implemented." and sends nothing. |
| `RippleCommands.VerifyMessage` | src/device/RippleCommands.ts:203-210 | Always fails with "Method not implemented." and sends nothing. |
| `Http.GetFromServer` | src/blockchain/servers/prokey/src/ProkeyBaseBlockChain.ts:23-41 | GETs the base URL followed by the path. The server's answer is the result, and its failure surfaces as a backend error. |
| `Http.PostToServer` | src/blockchain/servers/prokey/src/ProkeyBaseBlockChain.ts:43-60 | POSTs the body to the base URL followed by the path, with the same result rule. |
| `Http.GetOrNull` | src/blockchain/servers/prokey/src/nem/NemBlockchain.ts:28-34 | The `try … catch → null` read that both clients' `GetAddressInfo` share: it never fails, and it yields a value iff the server answered with a non-null one. |
| `StellarChain.New` | src/blockchain/servers/prokey/src/stellar/Stellar.ts:14-18 | An omitted coin name becomes `Xlm`. An explicit `null` is not replaced and reaches the URLs as `null`. A given name is kept. |
| `StellarChain.SubmitRoute` | src/blockchain/servers/prokey/src/stellar/Stellar.ts:20-22 | The submit route reads as the segments coin, `transaction`, `submit`. |
| `StellarChain.AccountRoute` | src/blockchain/servers/prokey/src/stellar/Stellar.ts:24-30 | The account route reads as the segments coin, `account`, address (for a slash-free coin and address). |
| `StellarChain.OperationsRoute` | src/blockchain/servers/prokey/src/stellar/Stellar.ts:45-47 | The operations route reads as the segments coin, `transaction`, id, `operations`. |
| `StellarChain.LimitText` | src/blockchain/servers/prokey/src/stellar/Stellar.ts:32-33 | `limit: number = 10` prints as `10` when omitted, as `null` for an explicit `null`, and as the given number otherwise. It never contains `&`. |
| `StellarChain.QuerySeparatesCursor` | src/blockchain/servers/prokey/src/stellar/Stellar.ts:32-36 | In the corrected query, a non-empty cursor is a second parameter `cursor=…` after `limit=…`, where limit defaults to 10. |
| `StellarChain.TransactionsQueryAsWritten` | src/blockchain/servers/prokey/src/stellar/Stellar.ts:33-36 | The query as written. Without a cursor it equals the corrected query. With a cursor that holds no `&`, it holds no `&` at all, so it is one parameter. |
| `StellarChain.QueryAsWrittenMergesCursor` | src/blockchain/servers/prokey/src/stellar/Stellar.ts:32-36 | In the query as written, a cursor is glued onto the limit's value. The query stays one parameter. |
| `StellarChain.BroadCastTransaction` | src/blockchain/servers/prokey/src/stellar/Stellar.ts:20-22 | POSTs `{"SignedTransactionBlob": data}` to `{coin}/transaction/submit`. On success the server's answer is returned; a failure escapes unchanged. |
| `StellarChain.GetAddressInfo` | src/blockchain/servers/prokey/src/stellar/Stellar.ts:24-30 | GETs `{coin}/account/{address}`. It never fails. The result is null iff the request failed or the server answered null, and otherwise it is the server's record. |
| `StellarChain.GetAccountTransactions` | src/blockchain/servers/prokey/src/stellar/Stellar.ts:32-43 | GETs the transactions route with the query as the source builds it, cursor glued on without `&`. A failure escapes. The page is returned iff it and its `transactions` field are non-null, and null otherwise. |
| `StellarChain.GetTransactionOperations` | src/blockchain/servers/prokey/src/stellar/Stellar.ts:45-53 | GETs `{coin}/transaction/{id}/operations`. The answer is returned iff it and its `operations` field are non-null. |
| `StellarChain.GetCurrentFee` | src/blockchain/servers/prokey/src/stellar/Stellar.ts:55-57 | GETs `{coin}/fee` and passes the answer through. A failed request surfaces as the client's own failure. |
| `NemChain.New` | src/blockchain/servers/prokey/src/nem/NemBlockchain.ts:14-18 | An omitted coin name becomes `Nem`. An explicit `null` is not replaced and reaches the URLs as `null`. A given name is kept. |
| `NemChain.QueryParameters` | src/blockchain/servers/prokey/src/nem/NemBlockchain.ts:37-40 | The query has an `accountAddress` parameter. It has a second, `hash`, exactly when a non-empty previous-page hash is given. |
| `NemChain.BroadCastTransaction` | src/blockchain/servers/prokey/src/nem/NemBlockchain.ts:20-26 | POSTs the data to `{coin}/transaction/submit`. Every failure becomes "error in submit transaction". |
| `NemChain.GetAddressInfo` | src/blockchain/servers/prokey/src/nem/NemBlockchain.ts:28-34 | GETs `{coin}/account/{address}`. It never fails. The result is null iff the request failed or the server answered null. |
| `NemChain.GetAccountTransactions` | src/blockchain/servers/prokey/src/nem/NemBlockchain.ts:36-47 | A failure escapes. The result is the `data` list iff the answer and its `data` are non-null, and null otherwise. |
| `Discovery.Discover` | src/wallet/StellarWallet.ts:41-56 | The result is the prior list followed by exactly the longest prefix of indices 0, 1, … that all have an account, in index order. The callback receives each appended account, in order, and nothing without a callback. |
| `Discovery.FundedPrefixUnique` | src/wallet/StellarWallet.ts:43-54 | A lookup has only one funded prefix, so discovery's result is determined by the backend. |
| `Discovery.StopsAtFirstGap` | src/wallet/StellarWallet.ts:46-48 | No account at or past the first index without one is ever found (no gap lookahead). |
| `StellarWallet.AccountLookup` | src/wallet/StellarWallet.ts:59-64 | The lookup at an index is null iff the backend request for that index's address failed or answered null. A non-null lookup is the server's record. |
| `StellarWallet.StartDiscovery` | src/wallet/StellarWallet.ts:41-56 | The held accounts are kept and the funded prefix is appended. The returned list is the one held afterwards. |
| `StellarWallet.DiscoverFromBackend` | src/wallet/StellarWallet.ts:41-64 | Discovery composed with the backend lookup. The accounts appended are exactly the backend's records for the addresses at indices 0 … k−1, in order. Index k is the first whose request failed or came back null. |
| `StellarWallet.RediscoveryDuplicates` | src/wallet/StellarWallet.ts:41-56 | Two runs over the same backend leave the prior accounts followed by the funded prefix twice. |
| `StellarWallet.GetAccount` | src/wallet/StellarWallet.ts:137-142 | Fails iff the index is at or past the end. A valid index gives the stored account. A negative index passes the check and reads `undefined`. |
| `StellarWallet.NativeBalance` | src/wallet/StellarWallet.ts:123-130 | The balance of the first entry whose asset type is `native`, or 0 when there is none. |
| `StellarWallet.GetAccountBalance` | src/wallet/StellarWallet.ts:123-130 | The native balance of the stored account. An index past the end fails with "Account number is wrong"; a negative one fails reading `undefined`. |
| `StellarWallet.ReserveSteps` | src/wallet/StellarWallet.ts:132-135 | A bare account reserves 1 XLM. Each subentry or sponsoring entry adds 0.5, and each sponsored entry removes 0.5. |
| `StellarWallet.GetAccountReserveBalance` | src/wallet/StellarWallet.ts:132-135 | Twice the reserve is `2 + subentry_count + num_sponsoring - num_sponsored`. The index errors are the same as for the balance. |
| `StellarWallet.GenerateTransaction` | src/wallet/StellarWallet.ts:74-117 | For a stored account, it fails with insufficient balance iff balance − reserve − amount − fee < 0. On success the header carries the path, the path's address, the fee, the account's sequence, the public network passphrase and one operation. The operation is a `StellarPaymentOp` from that address to the destination, in asset type 0 `XLM`, for the amount as text. |
| `StellarWallet.GenerateAcceptsCovered` | src/wallet/StellarWallet.ts:77-81 | For a stored account, the payment is accepted iff the native balance minus amount and fee still covers the reserve. |
| `StellarWallet.GenerateAcceptanceMonotone` | src/wallet/StellarWallet.ts:77-81 | If a payment is accepted, one with a smaller or equal amount and fee from the same account is accepted too. |
| `StellarWallet.InsufficientBalanceExample` | src/wallet/StellarWallet.ts:77-81 | Balance 10, reserve 1.5, fee 0.01: sending 5 passes the guard and sending 9 does not. |
| `NemWallet.IsAddressValid` | src/wallet/NemWallet.ts:25-27 | Every address is rejected. |
| `NemWallet.AccountLookup` | src/wallet/NemWallet.ts:50-54 | The lookup at an index is null iff the backend request for that index's address failed or answered null. A non-null lookup is the server's record. |
| `NemWallet.StartDiscovery` | src/wallet/NemWallet.ts:29-48 | The list is reset first. The result is exactly the `account` part of the lookups at 0, 1, … up to the first null. The callback receives each of them in order. |
| `NemWallet.DiscoverFromBackend` | src/wallet/NemWallet.ts:29-54 | Discovery composed with the backend lookup. The accounts found are the `account` parts of the backend's records for the addresses at indices 0 … k−1, in order. Index k is the first whose request failed or came back null. |
| `NemWallet.RediscoveryStable` | src/wallet/NemWallet.ts:32-40 | Two runs over the same backend give the same accounts. |
| `NemWallet.GetAccountTransactions` | src/wallet/NemWallet.ts:56-66 | The `transaction` of each listed entry, same length and order. The result is empty when the backend answers null, and backend failures escape. |
| `NemWallet.GetCoinPath` | src/wallet/NemWallet.ts:74-84 | The path is `[0x8000002C, 0x80000000 + slip44, 0x80000000 + n]`. Its notation reads back as that same path (corrected notation, see Findings). |
| `NemWallet.GetCoinPathAsWritten` | src/wallet/NemWallet.ts:74-84 | The code as written. The path is the same as in `GetCoinPath`, but the notation reads back as account `0x8000000 + n` hardened. |
| `NemWallet.AsWrittenNotationDisagrees` | src/wallet/NemWallet.ts:82 | For every index, the notation as written reads back neither as the path it accompanies nor as the corrected notation. |
| `NemWallet.AsWrittenPathAgrees` | src/wallet/NemWallet.ts:76-81 | The path levels are the same in both versions, and the account level minus 2^31 is the index. |

## Findings

| source | as written | input that shows it | evidently intended | confidence | as-written member | corrected member |
|---|---|---|---|---|---|---|
| src/wallet/NemWallet.ts:82 | `serializedPath` writes the account level as `0x8000000 + accountNumber` | slip44 43, account 0: the notation is `44'/43'/134217728'`, while `path[2]` is 2^31 + 0 | `44'/43'/0'`, the account `path` names | high; not executed | `NemWallet.AsWrittenNotationDisagrees` | `NemWallet.GetCoinPath` |
| src/blockchain/servers/prokey/src/stellar/Stellar.ts:34-36 | the cursor is appended as `cursor=…` with no `&` | limit omitted, cursor `abc`: the query is `limit=10cursor=abc`, a single `limit` parameter | `limit=10&cursor=abc` | high; not executed | `StellarChain.QueryAsWrittenMergesCursor` | `StellarChain.QuerySeparatesCursor` |

`StellarChain.TransactionsQueryAsWritten` and `NemWallet.GetCoinPathAsWritten`
model the code as written. `StellarChain.GetAccountTransactions` requests the
as-written query, as the source does. `StellarChain.TransactionsQuery` and
`NemWallet.GetCoinPath` are the corrected forms.

## Left out

- `RippleCommands.GetAddresses`: its `forEach(async …)` returns the list before any push has happened. What it returns depends on promise scheduling, which a sequential model cannot state.
- The device transport (`Device.SendMessage`) is an oracle. Any check it makes of the reply's type against the expected name is not part of this model.
- The HTTP client (request execution, logging, JSON parsing, the `changeJson` hook) is an oracle that yields decoded values or fails.
- `PathUtil.getHDPath`, `PathUtil.GetScriptType`, `PathUtil.GetListOfBipPath`, `Utility.ByteArrayToHexString` and `CoinInfo.Get` are not part of this model. They are parameters (`PathParser`, `scriptType`, `coinPath`, `toHex`, `CoinRegistry`). `Paths.ParseHardened` is a reference reading of the `n'` notation, not a model of `getHDPath`.
- The address the device reports for an account index (`BaseWallet.GetAddress`) is the parameter `addressAt` of the lookups.
- A device failure inside discovery's `GetAccountInfo` throws inside the promise executor, so the returned promise never settles. The lookup here is total, and this case is not modelled.
- Discovery needs an index with no account (`gap`) to terminate. A backend that answers for every index makes the source loop forever, and that case is not modelled.
- `StellarWallet.IsAddressValid` delegates to an external address-validation library.
- `StellarWallet.StartDiscovery`: the source resolves with the wallet's own live `_accounts` array, so a later discovery run also appends its duplicates to the list an earlier call returned. The model returns a value, which is the list as it stood when the call finished; Dafny sequences are immutable values, and aliasing of JavaScript arrays is not modelled. NEM discovery allocates a fresh array per run, so it is unaffected.
- `StellarWallet.GetAccountTransactions`, `GetCurrentFee` and `SendTransaction` are one-line delegations to the client calls modelled in `StellarChain`.
- The stellar-sdk envelope (`TransactionBuilder`, `Account`, `Networks`) is opaque. `StellarEnvelope` records the values handed to the builder.
- `StellarWallet.GenerateTransaction`: amounts and fees are exact reals, which idealises JavaScript's IEEE-754 arithmetic. `selectedFee` arrives already as a number, so a non-numeric fee string (NaN in the source, which passes the guard) is not modelled. `amount.toString()` is the parameter `amountText`. "Fails iff the guard fails" also assumes that `new Account(…)` and `TransactionBuilder…build()` never throw (src/wallet/StellarWallet.ts:104-115); their failures are not modelled.
- `Text.NatToString` is `${n}` only for integers below 10^21, where JavaScript switches to exponent notation. Path indices and limits are naturals, so fractional or negative JavaScript numbers are not modelled.
- `Discovery.Discover`: `notified` records which accounts the callback received and in what order, but not that each call comes right after its push.
- The `errorMessage` texts attached to INVALID_PARAM in Stellar `SignTransaction`, the insufficient-balance message text, and console logging are not modelled.
- `GetLatestTransactions` and `GetTransactions` are empty in both clients.
