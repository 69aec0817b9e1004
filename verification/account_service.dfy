/** The ledger (`AccountService`): account creation, balance inspection,
    deposit, withdrawal and transfer over the two stores.

    Every mutating method of the service holds one monitor for its whole
    duration, so each call is one atomic transition from a `Ledger` to a
    `Step`: the next ledger together with the call's result.
 */
module AccountService {
  import opened Outcomes
  import opened Decimal
  import AccountStore
  import UserStore

  /** An IBAN with an amount (`AmountDto`); the amount may be missing. */
  datatype AmountDto = AmountDto(iban: string, amount: Option<real>)

  /** A sender IBAN, a receiver IBAN and an amount (`TransferAmountDto`). */
  datatype TransferAmountDto = TransferAmountDto(senderIban: string, receiverIban: string, amount: Option<real>)

  /** The service's state: both stores and the account counter, the number
      the next created account receives. */
  datatype Ledger = Ledger(accounts: AccountStore.Store, users: UserStore.Store, accountCounter: nat)

  /** The ledger after one call, and what the call returned or threw. */
  datatype Step<+T> = Step(ledger: Ledger, result: Result<T>)

  const Init: Ledger := Ledger(AccountStore.Empty, UserStore.Empty, 0)

  const BankCodePrefix: string := "XXXX"

  /** The width the bank code pads account numbers to. */
  const AccountNumberWidth: nat := 16

  /** Renders the IBAN whose basic bank account number (BBAN) is given: the
      country code and check digits computed by the IBAN library, then the
      BBAN itself. The library is not part of this model. */
  type IbanRenderer = string -> string

  /** The IBAN layout of ISO 13616: the country code and the two check digits,
      then the BBAN unchanged. Distinct BBANs thus render to distinct IBANs. */
  ghost predicate IbanEndsWithBban(render: IbanRenderer) {
    forall bban :: |render(bban)| >= 4 && render(bban)[4..] == bban
  }

  /** `generateBankCode`: the prefix followed by one zero for each digit the
      account number is short of the padding width. */
  function BankCode(accountNumber: string): (r: string)
    ensures |r| >= |BankCodePrefix| && r[..|BankCodePrefix|] == BankCodePrefix
    ensures forall i :: |BankCodePrefix| <= i < |r| ==> r[i] == '0'
    ensures |accountNumber| <= AccountNumberWidth ==> |r| + |accountNumber| == |BankCodePrefix| + AccountNumberWidth
    ensures |accountNumber| > AccountNumberWidth ==> r == BankCodePrefix
  {
    var padding := if |accountNumber| <= AccountNumberWidth then AccountNumberWidth - |accountNumber| else 0;
    BankCodePrefix + Zeros(padding)
  }

  /** The BBAN the IBAN builder assembles from bank code and account number. */
  function Bban(accountNumber: string): (r: string)
    ensures |r| >= |BankCodePrefix| + |accountNumber|
    ensures r[..|BankCodePrefix|] == BankCodePrefix
    ensures r[|r| - |accountNumber|..] == accountNumber
    ensures |accountNumber| <= AccountNumberWidth ==> |r| == |BankCodePrefix| + AccountNumberWidth
  {
    BankCode(accountNumber) + accountNumber
  }

  /** The IBAN issued to the account created while the counter reads `n`. */
  function IbanFor(render: IbanRenderer, n: nat): (r: string)
    ensures IbanEndsWithBban(render) ==> |r| >= 4 && r[4..] == Bban(NatToString(n))
  {
    render(Bban(NatToString(n)))
  }

  predicate Exists(l: Ledger, iban: string) {
    iban in l.accounts.accounts
  }

  function BalanceOf(l: Ledger, iban: string): real
    requires Exists(l, iban)
  {
    l.accounts.accounts[iban].amount
  }

  /** `l'` differs from `l` only in the balance of the account under `iban`,
      which is now `b`. */
  ghost predicate Rebalanced(l: Ledger, l': Ledger, iban: string, b: real)
    requires Exists(l, iban)
  {
    && l'.users == l.users
    && l'.accountCounter == l.accountCounter
    && l'.accounts.accounts.Keys == l.accounts.accounts.Keys
    && l'.accounts.accounts[iban] == l.accounts.accounts[iban].(amount := b)
    && forall k :: k in l.accounts.accounts && k != iban ==> l'.accounts.accounts[k] == l.accounts.accounts[k]
  }

  /** `createAccount`: takes the next account number (whether or not the user
      exists), then, for a known user, stores a zero-balance account under the
      new IBAN and adds the IBAN to the user's account set. */
  function CreateAccount(l: Ledger, render: IbanRenderer, userId: int): (r: Step<string>)
    ensures r.ledger.accountCounter == l.accountCounter + 1
    ensures userId !in l.users.users ==>
              r == Step(l.(accountCounter := l.accountCounter + 1), Err(UserNotFound))
    ensures userId in l.users.users ==>
              && r.result == Ok(IbanFor(render, l.accountCounter))
              && AccountStore.GetAccount(r.ledger.accounts, r.result.value) == Some(AccountStore.Account(r.result.value, 0.0))
              && (forall iban :: iban != r.result.value ==>
                    AccountStore.GetAccount(r.ledger.accounts, iban) == AccountStore.GetAccount(l.accounts, iban))
              && userId in r.ledger.users.users
              && r.ledger.users.users[userId] == l.users.users[userId].(accounts := l.users.users[userId].accounts + {r.result.value})
              && (forall id :: id != userId ==> UserStore.GetUser(r.ledger.users, id) == UserStore.GetUser(l.users, id))
              && r.ledger.users.idGenerator == l.users.idGenerator
  {
    var accountNumber := NatToString(l.accountCounter);
    var counted := l.(accountCounter := l.accountCounter + 1);
    var iban := render(BankCode(accountNumber) + accountNumber);
    match UserStore.GetUser(l.users, userId)
    case None => Step(counted, Err(UserNotFound))
    case Some(user) =>
      var accounts := AccountStore.AddAccount(l.accounts, AccountStore.Account(iban, 0.0));
      var owner := user.(accounts := user.accounts + {iban});
      var users := l.users.(users := l.users.users[userId := owner]);
      Step(counted.(accounts := accounts, users := users), Ok(iban))
  }

  /** `checkFunds`: the balance stored under `iban`, or `AccountNotFound`. */
  function CheckFunds(l: Ledger, iban: string): (r: Result<AmountDto>)
    ensures r.Ok? <==> Exists(l, iban)
    ensures r.Err? ==> r.error == AccountNotFound
    ensures r.Ok? ==> r.value == AmountDto(iban, Some(BalanceOf(l, iban)))
  {
    match AccountStore.GetAccount(l.accounts, iban)
    case Some(a) => Ok(AmountDto(iban, Some(a.amount)))
    case None => Err(AccountNotFound)
  }

  /** `getAccountOrElseThrow`: the account stored under `iban`, or
      `AccountNotFound`. */
  function GetAccountOrNotFound(l: Ledger, iban: string): (r: Result<AccountStore.Account>)
    ensures r.Ok? <==> Exists(l, iban)
    ensures r.Err? ==> r.error == AccountNotFound
    ensures r.Ok? ==> r.value == l.accounts.accounts[iban]
  {
    match AccountStore.GetAccount(l.accounts, iban)
    case Some(a) => Ok(a)
    case None => Err(AccountNotFound)
  }

  /** Overwrites the balance of the account found under `iban`. */
  function SetBalance(l: Ledger, iban: string, a: AccountStore.Account, b: real): Ledger {
    l.(accounts := AccountStore.Store(l.accounts.accounts[iban := a.(amount := b)]))
  }

  /** `withdraw`: `AccountNotFound` for an unknown IBAN; `NotEnoughAmount`,
      changing nothing, when the balance would drop below zero; otherwise the
      balance is reduced by `amount`. */
  function Withdraw(l: Ledger, iban: string, amount: real): (r: Step<()>)
    ensures !Exists(l, iban) ==> r == Step(l, Err(AccountNotFound))
    ensures Exists(l, iban) && BalanceOf(l, iban) - amount < 0.0 ==> r == Step(l, Err(NotEnoughAmount))
    ensures Exists(l, iban) && BalanceOf(l, iban) - amount >= 0.0 ==>
              && r.result == Ok(())
              && Rebalanced(l, r.ledger, iban, BalanceOf(l, iban) - amount)
              && BalanceOf(r.ledger, iban) >= 0.0
  {
    match GetAccountOrNotFound(l, iban)
    case Err(e) => Step(l, Err(e))
    case Ok(a) =>
      var remaining := a.amount - amount;
      if remaining < 0.0 then Step(l, Err(NotEnoughAmount))
      else Step(SetBalance(l, iban, a, remaining), Ok(()))
  }

  /** `deposit`: `AccountNotFound` for an unknown IBAN; otherwise the balance
      is increased by `amount`. */
  function Deposit(l: Ledger, iban: string, amount: real): (r: Step<()>)
    ensures !Exists(l, iban) ==> r == Step(l, Err(AccountNotFound))
    ensures Exists(l, iban) ==>
              && r.result == Ok(())
              && Rebalanced(l, r.ledger, iban, BalanceOf(l, iban) + amount)
    ensures Exists(l, iban) && BalanceOf(l, iban) >= 0.0 && amount >= 0.0 ==> BalanceOf(r.ledger, iban) >= 0.0
  {
    match GetAccountOrNotFound(l, iban)
    case Err(e) => Step(l, Err(e))
    case Ok(a) => Step(SetBalance(l, iban, a, a.amount + amount), Ok(()))
  }

  /** `transfer`: a withdrawal from the sender followed by a deposit to the
      receiver. A failed withdrawal ends the call with nothing changed; a
      missing receiver ends it with the sender already debited. */
  function Transfer(l: Ledger, sender: string, receiver: string, amount: real): (r: Step<()>)
    ensures !Exists(l, sender) ==> r == Step(l, Err(AccountNotFound))
    ensures Exists(l, sender) && BalanceOf(l, sender) < amount ==> r == Step(l, Err(NotEnoughAmount))
    ensures Exists(l, sender) && BalanceOf(l, sender) >= amount && !Exists(l, receiver) ==>
              && r.result == Err(AccountNotFound)
              && Rebalanced(l, r.ledger, sender, BalanceOf(l, sender) - amount)
    ensures Exists(l, sender) && BalanceOf(l, sender) >= amount && Exists(l, receiver) ==>
              && r.result == Ok(())
              && r.ledger.users == l.users
              && r.ledger.accountCounter == l.accountCounter
              && r.ledger.accounts.accounts.Keys == l.accounts.accounts.Keys
              && (sender != receiver ==>
                    && BalanceOf(r.ledger, sender) == BalanceOf(l, sender) - amount
                    && BalanceOf(r.ledger, receiver) == BalanceOf(l, receiver) + amount)
              && (sender == receiver ==> BalanceOf(r.ledger, sender) == BalanceOf(l, sender))
              && (forall k :: k in l.accounts.accounts && k != sender && k != receiver ==>
                    r.ledger.accounts.accounts[k] == l.accounts.accounts[k])
  {
    var w := Withdraw(l, sender, amount);
    if w.result.Err? then w else Deposit(w.ledger, receiver, amount)
  }
}
