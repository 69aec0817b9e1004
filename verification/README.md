# In-memory banking ledger, modelled in Dafny

This project models the core of a toy banking back end. Users are kept in a
user store keyed by a numeric id. Accounts are kept in an account store keyed
by IBAN. A ledger service (`AccountService`) opens accounts for users and
moves money with deposits, withdrawals and transfers. A validation service
checks amounts and IBANs before the ledger is called.

Every mutating ledger method holds one monitor for its whole duration. So
the ledger is modelled as a sequential state machine. The state is a
`Ledger`: the account store, the user store and the account counter. Each
operation is a pure function from a ledger to a `Step`, which holds the next
ledger and a `Result`. A `Result` is a value or one of the typed failures
`UserNotFound`, `AccountNotFound`, `NotEnoughAmount`, `InvalidInput` and
`IbanLibraryFailure`. The last stands for an exception of the IBAN library
other than a format exception, which the IBAN check lets escape uncaught.
Balances are `real`, which is exact, like the decimal arithmetic of the
source.

Files, one module each:

- `outcomes.dfy`: `Option`, `Result` and the failure kinds.
- `decimal.dfy`: decimal rendering of account numbers, and reading digits back.
- `account_store.dfy`: the `Account` entity, the account store, and the sum of all balances.
- `user_store.dfy`: the `User` entity, the user store and its id generator.
- `user_service.dfy`: the user façade and the DTO mapper.
- `account_service.dfy`: the ledger: bank code, account creation, balance check, withdraw, deposit, transfer.
- `validation_service.dfy`: the amount and IBAN checks.
- `ledger_properties.dfy`: the ledger invariant, conservation of money, IBAN freshness, and the multi-call scenarios of the stress tests.
- `counter_overflow.dfy`: the account counter as a 32-bit `int` (see Findings).

Two collaborators come from an IBAN library. They are parameters here:

- `IbanRenderer` builds the IBAN string from the BBAN (basic bank account
  number). The BBAN is the bank code followed by the account number. The
  proofs assume only that an IBAN is its BBAN preceded by four characters,
  the country code and the check digits (`AccountService.IbanEndsWithBban`). That
  is the layout of ISO 13616.
- `IbanChecker` is the library's IBAN validator. It either accepts the
  string, throws a format exception, or throws another library exception.

Two behaviours of the code worth knowing, both modelled as written:

- Transfer is not atomic. It withdraws from the sender, then deposits to the
  receiver. If the receiver is missing, the call fails with
  `AccountNotFound` and the sender stays debited
  (`LedgerProperties.TransferToMissingReceiverLosesAmount`).
- A failed creation still uses up an account number, because the counter is
  advanced before the user is looked up.

## Model

| member | source | states |
|---|---|---|
| `Decimal.NatToString` | src/main/java/esz/dev/account/control/AccountService.java:34 | `String.valueOf` of the counter: a non-empty string of digits, with no leading zero unless the number is 0 |
| `Decimal.IntToString` | src/main/java/esz/dev/account/control/AccountService.java:34 | `String.valueOf` of a Java `int`: a minus sign and the digits of the magnitude for negatives, the plain digits otherwise |
| `Decimal.IntToStringInjective` | src/main/java/esz/dev/account/control/AccountService.java:34 | distinct Java integers, negative ones included, have distinct decimal forms; so the same account number can only come back if the counter itself repeats a value |
| `Decimal.ValueOfNatToString` | src/main/java/esz/dev/account/control/AccountService.java:34 | reading the decimal form of an account number back gives the number (round trip) |
| `Decimal.NatToStringInjective` | src/main/java/esz/dev/account/control/AccountService.java:34 | distinct counter values give distinct account-number strings |
| `Decimal.ValueIgnoresLeadingZeros` | src/main/java/esz/dev/account/control/AccountService.java:81-83 | the zeros the bank code pads with do not change the number the digits denote |
| `Decimal.NatToStringLength` | src/main/java/esz/dev/account/control/AccountService.java:81 | an account number has at most k digits exactly when it is below 10^k |
| `AccountStore.AddAccount` | src/main/java/esz/dev/account/control/AccountStore.java:18-24 | after adding an account, looking up its IBAN returns it; every other IBAN's lookup is unchanged; the key set gains exactly that IBAN |
| `AccountStore.GetAccount` | src/main/java/esz/dev/account/control/AccountStore.java:22-24 | an account is found exactly when one is stored under the IBAN, and it is the stored account; otherwise the result is empty |
| `AccountStore.AddAccountKeepsConsistent` | src/main/java/esz/dev/account/control/AccountStore.java:19 | adding keeps every account stored under its own IBAN |
| `AccountStore.AddAccountOverwrites` | src/main/java/esz/dev/account/control/AccountStore.java:19 | adding under an IBAN already present replaces the old account, and the store does not grow |
| `AccountStore.NeverAddedIsAbsent` | src/main/java/esz/dev/account/control/AccountStore.java:22-24 | an IBAN that no added account carries is not found (empty result) |
| `AccountStore.LastAddedIsFound` | src/main/java/esz/dev/account/control/AccountStore.java:18-24 | after a batch of adds, an IBAN finds the last account added under it |
| `AccountStore.OtherAddsKeepAccount` | src/main/java/esz/dev/account/control/AccountStore.java:19 | adds under other IBANs leave a stored account in place |
| `AccountStore.TotalSplit` | src/test/java/stress/StressTest.java:155 | the sum of all balances is any one balance plus the sum of the others |
| `AccountStore.TotalReplace` | src/test/java/stress/StressTest.java:155 | replacing one account changes the sum of balances by the difference of its balance |
| `AccountStore.TotalAddFresh` | src/test/java/stress/StressTest.java:155 | storing an account under a new IBAN adds its balance to the sum |
| `AccountStore.TotalNonNegative` | src/test/java/stress/StressTest.java:155 | with no negative balance, the sum of balances is not negative |
| `UserStore.AddUser` | src/main/java/esz/dev/user/control/UserStore.java:20-28 | the new id is above every id issued before; the stored user carries that id and `getUser` returns it; every other id's lookup is unchanged; a valid store stays valid and the id was free |
| `UserStore.GetUser` | src/main/java/esz/dev/user/control/UserStore.java:26-28 | a user is found exactly when one is stored under the id, and it is the stored user; otherwise the result is empty |
| `UserStore.UnissuedIdIsAbsent` | src/main/java/esz/dev/user/control/UserStore.java:26-28 | an id the generator never issued finds no user |
| `UserStore.AddAllIds` | src/main/java/esz/dev/user/control/UserStore.java:17-23 | the k-th user of a batch gets id idGenerator + k + 1: ids are consecutive, strictly increasing and never reused |
| `UserStore.FirstIdsFromEmpty` | src/main/java/esz/dev/user/control/UserStore.java:17-21 | from a fresh store the ids issued are 1, 2, …, n; the first is 1 |
| `UserStore.AddAllStoresEach` | src/main/java/esz/dev/user/control/UserStore.java:20-28 | after a batch every user is found under its assigned id, carrying it, and earlier users are untouched |
| `UserService.ToUser` | src/main/java/esz/dev/user/control/UserMapper.java:12 | `userDtoToUser`: copies the first name, last name and address; the new user has no accounts yet |
| `UserService.ToDto` | src/main/java/esz/dev/user/control/UserMapper.java:11 | `userToUserDto`: copies the first name, last name and address |
| `UserService.MapperRoundTrip` | src/main/java/esz/dev/user/control/UserMapper.java:11-12 | mapping a user DTO to a user and back gives the same DTO |
| `UserService.AddUser` | src/main/java/esz/dev/user/control/UserService.java:24-27 | the returned id is the store's next id; `getUser` of it gives back the same names and address; its account set is empty; other users are unchanged |
| `UserService.GetUser` | src/main/java/esz/dev/user/control/UserService.java:29-33 | for a stored id, the same first name, last name and address; otherwise `UserNotFound`; the store is not changed |
| `UserService.GetAccountsForUser` | src/main/java/esz/dev/user/control/UserService.java:35-39 | for a stored id, exactly the user's IBAN set; otherwise `UserNotFound`; the store is not changed |
| `AccountService.BankCode` | src/main/java/esz/dev/account/control/AccountService.java:79-85 | "XXXX" followed only by zeros; for numbers of at most 16 digits, bank code and number together are 20 characters; longer numbers get just "XXXX" |
| `AccountService.Bban` | src/main/java/esz/dev/account/control/AccountService.java:35-39 | the BBAN starts with the "XXXX" prefix and ends with the account number; for numbers of at most 16 digits it is 20 characters long |
| `AccountService.IbanFor` | src/main/java/esz/dev/account/control/AccountService.java:34-39 | under the ISO 13616 layout, the IBAN of counter value n is four characters followed by the BBAN of n's decimal form |
| `AccountService.CreateAccount` | src/main/java/esz/dev/account/control/AccountService.java:33-46 | the counter advances on every call; an unknown user gives `UserNotFound` and changes nothing else; a known user gets a zero-balance account under the returned IBAN, that IBAN joins the user's set, and no other account or user changes |
| `AccountService.CheckFunds` | src/main/java/esz/dev/account/control/AccountService.java:48-51 | the stored balance for a known IBAN, `AccountNotFound` otherwise; no state changes |
| `AccountService.GetAccountOrNotFound` | src/main/java/esz/dev/account/control/AccountService.java:74-77 | the account stored under a known IBAN, `AccountNotFound` for any other IBAN |
| `AccountService.Withdraw` | src/main/java/esz/dev/account/control/AccountService.java:53-61 | `AccountNotFound` for an unknown IBAN; `NotEnoughAmount` with nothing changed when balance − amount < 0; otherwise only that balance changes, to balance − amount, which is ≥ 0 |
| `AccountService.Deposit` | src/main/java/esz/dev/account/control/AccountService.java:63-67 | `AccountNotFound` for an unknown IBAN; otherwise only that balance changes, to balance + amount; a non-negative balance stays non-negative for amount ≥ 0 |
| `AccountService.Transfer` | src/main/java/esz/dev/account/control/AccountService.java:69-72 | missing sender or insufficient funds: the failure, nothing changed; missing receiver: `AccountNotFound` with the sender already debited; otherwise sender −amount, receiver +amount, every other account unchanged |
| `LedgerProperties.InitValid` | src/main/java/esz/dev/account/control/AccountService.java:25 | the fresh ledger (counter 0, empty stores) satisfies the invariant and holds no money |
| `LedgerProperties.BbanValue` | src/main/java/esz/dev/account/control/AccountService.java:34-38 | the BBAN starts with "XXXX", and the digits after it read back as the account number |
| `LedgerProperties.BbanLength` | src/main/java/esz/dev/account/control/AccountService.java:79-85 | every account number below 10^16 yields a BBAN of exactly 20 characters |
| `LedgerProperties.IssuedIbansDistinct` | src/main/java/esz/dev/account/control/AccountService.java:34-39 | distinct counter values yield distinct IBANs, so no IBAN is issued twice |
| `LedgerProperties.RebalancedKeepsValid` | src/main/java/esz/dev/account/control/AccountService.java:59 | changing one balance to a non-negative value keeps the invariant and moves the sum by the difference |
| `LedgerProperties.CreateAccountKeepsValid` | src/main/java/esz/dev/account/control/AccountService.java:33-46 | account creation keeps the invariant and leaves the sum of balances unchanged |
| `LedgerProperties.CreateAccountAddsOne` | src/main/java/esz/dev/account/control/AccountService.java:41-44 | a creation for a known user issues an IBAN not yet in use, adding exactly one account and one IBAN to the user's set |
| `LedgerProperties.WithdrawKeepsValid` | src/main/java/esz/dev/account/control/AccountService.java:53-61 | a withdrawal of any amount keeps every balance ≥ 0; on success the sum drops by the amount, on failure nothing changes |
| `LedgerProperties.DepositKeepsValid` | src/main/java/esz/dev/account/control/AccountService.java:63-67 | a deposit of a non-negative amount keeps every balance ≥ 0; on success the sum rises by the amount |
| `LedgerProperties.NegativeDepositOverdraws` | src/main/java/esz/dev/account/control/AccountService.java:63-67 | the ledger itself does not refuse a negative deposit: it can leave a negative balance |
| `LedgerProperties.ValidatedDepositKeepsValid` | src/main/java/esz/dev/account/boundary/ValidationService.java:16-19 | a deposit request that passes validation keeps every balance ≥ 0 |
| `LedgerProperties.ValidatedTransferKeepsValid` | src/main/java/esz/dev/account/boundary/ValidationService.java:21-25 | a transfer request that passes validation keeps every balance ≥ 0 |
| `LedgerProperties.TransferKeepsValid` | src/main/java/esz/dev/account/control/AccountService.java:69-72 | a transfer of a non-negative amount keeps every balance ≥ 0 and the ledger consistent, whether it succeeds or fails |
| `LedgerProperties.TransferConservesTotal` | src/main/java/esz/dev/account/control/AccountService.java:69-72 | for any ledger and any amount, when both accounts exist a transfer leaves the sum of all balances unchanged, whether it succeeds or not |
| `LedgerProperties.TransferToMissingReceiverLosesAmount` | src/main/java/esz/dev/account/control/AccountService.java:70-71 | on any ledger, sender able to pay and receiver missing: `AccountNotFound`, the sender is debited anyway, and the sum of balances drops by the amount |
| `LedgerProperties.DepositThenWithdrawRestores` | src/main/java/esz/dev/account/control/AccountService.java:53-67 | from a non-negative balance, a deposit followed by a withdrawal of the same amount, negative amounts included, succeeds and restores the ledger exactly |
| `LedgerProperties.WithdrawThenDepositRestores` | src/main/java/esz/dev/account/control/AccountService.java:53-67 | a covered withdrawal followed by a deposit of the same amount restores the ledger exactly |
| `LedgerProperties.AddUserKeepsValid` | src/main/java/esz/dev/user/control/UserService.java:24-27 | adding a user keeps the ledger invariant |
| `LedgerProperties.TransfersConserveTotal` | src/test/java/stress/StressTest.java:121-156 | any sequence of non-negative transfers among existing accounts keeps balances ≥ 0 and the sum unchanged |
| `LedgerProperties.TxnsFinalBalance` | src/test/java/stress/StressTest.java:76-110 | deposits and withdrawals on one account, in any order, with the start covering all debits: all succeed and the balance ends at start + credits − debits |
| `LedgerProperties.CreateAccounts` | src/test/java/stress/StressTest.java:45-66 | n creations for one user all succeed with pairwise distinct, previously unused IBANs; the store and the user's set each grow by exactly n |
| `ValidationService.ValidateAmount` | src/main/java/esz/dev/account/boundary/ValidationService.java:35-42 | a missing or negative amount is `InvalidInput`; zero and positive amounts pass |
| `ValidationService.ValidateIban` | src/main/java/esz/dev/account/boundary/ValidationService.java:27-33 | a format failure becomes `InvalidInput`; other library exceptions escape uncaught; an accepted IBAN passes |
| `ValidationService.Validate` | src/main/java/esz/dev/account/boundary/ValidationService.java:16-19 | passes exactly when the amount is present and ≥ 0 and the IBAN is accepted; a bad amount is reported even when the IBAN is also bad |
| `ValidationService.ValidateTransfer` | src/main/java/esz/dev/account/boundary/ValidationService.java:21-25 | passes exactly when amount, sender and receiver are all valid; the first failure in the order amount, sender, receiver is the one reported |
| `AccountCounter32.Increment` | src/main/java/esz/dev/account/control/AccountService.java:34 | Java `++` on an `int`: +1 below the maximum, the minimum after it |
| `AccountCounter32.CounterAtIsWrapped` | src/main/java/esz/dev/account/control/AccountService.java:25-34 | as written, the counter read by the n-th creation is n wrapped to 32 bits |
| `AccountCounter32.CounterExactBelowOverflow` | src/main/java/esz/dev/account/control/AccountService.java:25-34 | for the first 2^31 creations the as-written number equals the creation's index |
| `AccountCounter32.CounterTurnsNegative` | src/main/java/esz/dev/account/control/AccountService.java:25-34 | as written, creation number 2^31 reads a negative counter |
| `AccountCounter32.NumberReissuedAfterWrap` | src/main/java/esz/dev/account/control/AccountService.java:25-34 | as written, account numbers repeat with period 2^32: creation n + 2^32 reads the same counter and reuses the account number of creation n; creation 2^32 reuses the "0" of the first |
| `AccountCounter32.ReissuedIbanResetsBalance` | src/main/java/esz/dev/account/control/AccountStore.java:19 | storing a reissued IBAN again replaces the funded account with a zero-balance one, and its money leaves the sum |

## Left out

- Concurrency: the monitor on the ledger methods, the concurrent maps and the atomic id generator. Each ledger call is one atomic step. The unsynchronized `checkFunds` and torn reads are not modelled.
- The IBAN library: how check digits are computed, and the validator's rules. Both are parameters. The library may also reject a BBAN longer than 20 characters (numbers of 10^16 and above) or a negative account number. That is not modelled.
- The HTTP layer: `AccountResource`, `UserResource`, the exception-to-status mapping in `App`, and the JSON (de)serialisation.
- Null fields. `AccountService` takes the IBAN and amount as plain values, so a null amount reaching it directly (a null dereference) is not modelled; `ValidationService` rejects a missing amount before that. A user stored with a null account set is not modelled either: the façade always stores an empty set.
- Object aliasing. The in-place update of the user's account set and the account's balance is a functional update of the map entry. `getAccountsForUser` returns the set's value, not the live set.
- AccountService.CreateAccount: the ledger's account counter is unbounded, so it never wraps. The source's counter is a 32-bit `int`. Its wrap-around is modelled separately in `AccountCounter32` and described under Findings.
- UserStore.AddUser: ids are unbounded integers, so the 64-bit wrap-around of the id generator after 2^63 users is not modelled.
- `countAccounts`, which a stress test calls, is not defined in the source; the size of the account map stands in for it.
- Error message texts, and the scale and formatting of decimal amounts.

## Findings

| source | as written | input that shows it | evidently intended | confidence | as-written member | corrected member |
|---|---|---|---|---|---|---|
| src/main/java/esz/dev/account/control/AccountService.java:25-34 | `accountCounter` is a Java `int` advanced with `++`. It wraps to negative at 2^31 and back to 0 after 2^32 creations. | Creation number 2^32 (counting from 0) reads the counter as 0 again and reissues account number "0", so it gets the first IBAN again. `addAccount` then replaces that funded account with a zero-balance one. | Account numbers are never reused. The counter is wide enough (or unbounded) never to wrap. | not executed; high that the counter wraps, given `int` semantics | `AccountCounter32.NumberReissuedAfterWrap` | `LedgerProperties.IssuedIbansDistinct` |
