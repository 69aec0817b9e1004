/** Properties of the ledger as a state machine: the invariant every
    operation keeps, conservation of money, freshness of issued IBANs, and
    the multi-call scenarios the stress tests exercise.
 */
module LedgerProperties {
  import opened Outcomes
  import opened Decimal
  import AccountStore
  import UserStore
  import UserService
  import opened AccountService
  import ValidationService

  /** The invariant of every reachable ledger, for a fixed IBAN library:
      - each account is stored under its own IBAN, with a balance >= 0;
      - the user store hands out ids 1..idGenerator;
      - no IBAN the counter will issue later is in use yet;
      - each user's IBANs name stored accounts. */
  ghost predicate Valid(l: Ledger, render: IbanRenderer) {
    && AccountStore.Consistent(l.accounts)
    && AccountStore.NonNegative(l.accounts)
    && UserStore.Valid(l.users)
    && (forall n: nat :: n >= l.accountCounter ==> render(Bban(NatToString(n))) !in l.accounts.accounts)
    && (forall id :: id in l.users.users ==> l.users.users[id].accounts <= l.accounts.accounts.Keys)
  }

  ghost function Total(l: Ledger): real {
    AccountStore.Total(l.accounts)
  }

  lemma InitValid(render: IbanRenderer)
    ensures Valid(Init, render)
    ensures Total(Init) == 0.0
  {
  }

  // ---------------------------------------------------------------------
  // Account numbers and IBANs

  /** Past the bank-code prefix, the BBAN of account number `n` reads back as
      `n`: the zero padding only adds leading zeros. */
  lemma BbanValue(n: nat)
    ensures |Bban(NatToString(n))| >= |BankCodePrefix|
    ensures Bban(NatToString(n))[..|BankCodePrefix|] == BankCodePrefix
    ensures Value(Bban(NatToString(n))[|BankCodePrefix|..]) == n
  {
    var acc := NatToString(n);
    var padding := |BankCode(acc)| - |BankCodePrefix|;
    assert BankCode(acc) == BankCodePrefix + Zeros(padding);
    assert Bban(acc)[|BankCodePrefix|..] == Zeros(padding) + acc;
    ValueIgnoresLeadingZeros(padding, acc);
    ValueOfNatToString(n);
  }

  /** Account numbers below 10^16 fill the 20-character BBAN exactly. */
  lemma BbanLength(n: nat)
    requires n < Pow10(AccountNumberWidth)
    ensures |Bban(NatToString(n))| == |BankCodePrefix| + AccountNumberWidth
  {
    NatToStringLength(n, AccountNumberWidth);
  }

  /** Distinct counter values give distinct IBANs: no account number, and no
      IBAN, is ever issued twice. */
  lemma IssuedIbansDistinct(render: IbanRenderer, i: nat, j: nat)
    requires IbanEndsWithBban(render)
    requires i != j
    ensures IbanFor(render, i) != IbanFor(render, j)
  {
    BbanValue(i);
    BbanValue(j);
  }

  // ---------------------------------------------------------------------
  // One call at a time

  /** Changing one balance to a non-negative value keeps the invariant and
      moves the total by the difference. */
  lemma RebalancedKeepsValid(l: Ledger, l': Ledger, render: IbanRenderer, iban: string, b: real)
    requires Valid(l, render)
    requires Exists(l, iban)
    requires Rebalanced(l, l', iban, b)
    requires b >= 0.0
    ensures Valid(l', render)
    ensures Total(l') == Total(l) - BalanceOf(l, iban) + b
  {
    var m := l.accounts.accounts;
    assert l'.accounts.accounts == m[iban := m[iban].(amount := b)];
    AccountStore.TotalReplace(l.accounts, iban, m[iban].(amount := b));
  }

  /** Account creation keeps the invariant and, since the new account starts
      at zero, the total. */
  lemma CreateAccountKeepsValid(l: Ledger, render: IbanRenderer, userId: int)
    requires Valid(l, render)
    requires IbanEndsWithBban(render)
    ensures Valid(CreateAccount(l, render, userId).ledger, render)
    ensures Total(CreateAccount(l, render, userId).ledger) == Total(l)
  {
    var r := CreateAccount(l, render, userId);
    if userId in l.users.users {
      var iban := IbanFor(render, l.accountCounter);
      var a := AccountStore.Account(iban, 0.0);
      var l' := r.ledger;
      assert l'.accounts == AccountStore.AddAccount(l.accounts, a);
      AccountStore.TotalAddFresh(l.accounts, a);
      forall n: nat | n >= l'.accountCounter
        ensures render(Bban(NatToString(n))) !in l'.accounts.accounts
      {
        IssuedIbansDistinct(render, n, l.accountCounter);
      }
    }
  }

  /** A successful creation issues an IBAN that is not in use, so it adds
      exactly one account to the store and one IBAN to the user's set. */
  lemma CreateAccountAddsOne(l: Ledger, render: IbanRenderer, userId: int)
    requires Valid(l, render)
    requires userId in l.users.users
    ensures CreateAccount(l, render, userId).result.Ok?
    ensures CreateAccount(l, render, userId).result.value !in l.accounts.accounts
    ensures |CreateAccount(l, render, userId).ledger.accounts.accounts| == |l.accounts.accounts| + 1
    ensures |CreateAccount(l, render, userId).ledger.users.users[userId].accounts| == |l.users.users[userId].accounts| + 1
  {
    var r := CreateAccount(l, render, userId);
    var iban := IbanFor(render, l.accountCounter);
    assert iban !in l.accounts.accounts;
    assert r.ledger.accounts.accounts.Keys == l.accounts.accounts.Keys + {iban};
    assert iban !in l.users.users[userId].accounts;
  }

  /** A withdrawal keeps the invariant whatever the amount; when it succeeds
      the total drops by exactly the amount. */
  lemma WithdrawKeepsValid(l: Ledger, render: IbanRenderer, iban: string, amount: real)
    requires Valid(l, render)
    ensures Valid(Withdraw(l, iban, amount).ledger, render)
    ensures Withdraw(l, iban, amount).result.Ok? ==> Total(Withdraw(l, iban, amount).ledger) == Total(l) - amount
    ensures Withdraw(l, iban, amount).result.Err? ==> Withdraw(l, iban, amount).ledger == l
  {
    if Exists(l, iban) && BalanceOf(l, iban) - amount >= 0.0 {
      RebalancedKeepsValid(l, Withdraw(l, iban, amount).ledger, render, iban, BalanceOf(l, iban) - amount);
    }
  }

  /** A deposit of a non-negative amount keeps the invariant; when it
      succeeds the total rises by exactly the amount. */
  lemma DepositKeepsValid(l: Ledger, render: IbanRenderer, iban: string, amount: real)
    requires Valid(l, render)
    requires amount >= 0.0
    ensures Valid(Deposit(l, iban, amount).ledger, render)
    ensures Deposit(l, iban, amount).result.Ok? ==> Total(Deposit(l, iban, amount).ledger) == Total(l) + amount
    ensures Deposit(l, iban, amount).result.Err? ==> Deposit(l, iban, amount).ledger == l
  {
    if Exists(l, iban) {
      RebalancedKeepsValid(l, Deposit(l, iban, amount).ledger, render, iban, BalanceOf(l, iban) + amount);
    }
  }

  /** The service itself does not reject a negative deposit: depositing -1
      into an empty account leaves a negative balance. Only the amount check
      in front of the service rules this out. */
  lemma NegativeDepositOverdraws()
    ensures
      var l := Ledger(AccountStore.Store(map["A" := AccountStore.Account("A", 0.0)]), UserStore.Empty, 0);
      BalanceOf(Deposit(l, "A", -1.0).ledger, "A") < 0.0
  {
  }

  /** A deposit request that passes validation keeps the invariant. */
  lemma ValidatedDepositKeepsValid(l: Ledger, render: IbanRenderer, dto: AmountDto, check: ValidationService.IbanChecker)
    requires Valid(l, render)
    requires ValidationService.Validate(dto, check).Ok?
    ensures Valid(Deposit(l, dto.iban, dto.amount.value).ledger, render)
  {
    DepositKeepsValid(l, render, dto.iban, dto.amount.value);
  }

  /** A transfer request that passes validation keeps the invariant. */
  lemma ValidatedTransferKeepsValid(l: Ledger, render: IbanRenderer, dto: TransferAmountDto, check: ValidationService.IbanChecker)
    requires Valid(l, render)
    requires ValidationService.ValidateTransfer(dto, check).Ok?
    ensures Valid(Transfer(l, dto.senderIban, dto.receiverIban, dto.amount.value).ledger, render)
  {
    TransferKeepsValid(l, render, dto.senderIban, dto.receiverIban, dto.amount.value);
  }

  /** A transfer of a non-negative amount keeps the invariant, whether it
      succeeds or not. */
  lemma TransferKeepsValid(l: Ledger, render: IbanRenderer, sender: string, receiver: string, amount: real)
    requires Valid(l, render)
    requires amount >= 0.0
    ensures Valid(Transfer(l, sender, receiver, amount).ledger, render)
  {
    var w := Withdraw(l, sender, amount);
    WithdrawKeepsValid(l, render, sender, amount);
    if w.result.Ok? {
      DepositKeepsValid(w.ledger, render, receiver, amount);
    }
  }

  /** With both accounts present a transfer conserves the total, whether it
      succeeds or not, for any ledger and any amount: the withdrawal takes
      from one entry exactly what the deposit adds to another. */
  lemma TransferConservesTotal(l: Ledger, sender: string, receiver: string, amount: real)
    requires Exists(l, sender) && Exists(l, receiver)
    ensures Total(Transfer(l, sender, receiver, amount).ledger) == Total(l)
  {
    var w := Withdraw(l, sender, amount);
    if w.result.Ok? {
      var a := l.accounts.accounts[sender];
      AccountStore.TotalReplace(l.accounts, sender, a.(amount := a.amount - amount));
      var b := w.ledger.accounts.accounts[receiver];
      AccountStore.TotalReplace(w.ledger.accounts, receiver, b.(amount := b.amount + amount));
    }
  }

  /** The lossy case: with the sender able to pay and the receiver missing,
      the call fails with `AccountNotFound` after the sender was debited, and
      the amount leaves the ledger. */
  lemma TransferToMissingReceiverLosesAmount(l: Ledger, sender: string, receiver: string, amount: real)
    requires Exists(l, sender) && BalanceOf(l, sender) >= amount
    requires !Exists(l, receiver)
    ensures Transfer(l, sender, receiver, amount).result == Err(AccountNotFound)
    ensures BalanceOf(Transfer(l, sender, receiver, amount).ledger, sender) == BalanceOf(l, sender) - amount
    ensures Total(Transfer(l, sender, receiver, amount).ledger) == Total(l) - amount
  {
    var a := l.accounts.accounts[sender];
    AccountStore.TotalReplace(l.accounts, sender, a.(amount := a.amount - amount));
  }

  /** A deposit followed by a withdrawal of the same amount succeeds and
      restores the ledger exactly. */
  lemma DepositThenWithdrawRestores(l: Ledger, iban: string, amount: real)
    requires Exists(l, iban)
    requires BalanceOf(l, iban) >= 0.0
    ensures Withdraw(Deposit(l, iban, amount).ledger, iban, amount) == Step(l, Ok(()))
  {
    var l' := Withdraw(Deposit(l, iban, amount).ledger, iban, amount).ledger;
    assert l'.accounts.accounts == l.accounts.accounts;
  }

  /** A withdrawal the balance covers, followed by a deposit of the same
      amount, restores the ledger exactly. */
  lemma WithdrawThenDepositRestores(l: Ledger, iban: string, amount: real)
    requires Exists(l, iban)
    requires BalanceOf(l, iban) >= amount
    ensures Withdraw(l, iban, amount).result == Ok(())
    ensures Deposit(Withdraw(l, iban, amount).ledger, iban, amount) == Step(l, Ok(()))
  {
    var l' := Deposit(Withdraw(l, iban, amount).ledger, iban, amount).ledger;
    assert l'.accounts.accounts == l.accounts.accounts;
  }

  /** Adding a user through the user façade keeps the invariant. */
  lemma AddUserKeepsValid(l: Ledger, render: IbanRenderer, dto: UserService.UserDto)
    requires Valid(l, render)
    ensures Valid(l.(users := UserService.AddUser(l.users, dto).store), render)
  {
  }

  // ---------------------------------------------------------------------
  // Many calls in a row

  /** One transfer request: sender, receiver, amount. */
  datatype Move = Move(sender: string, receiver: string, amount: real)

  /** The ledger after executing the transfers one after the other, each
      failure (insufficient funds) simply skipped. */
  function RunTransfers(l: Ledger, moves: seq<Move>): Ledger
    decreases |moves|
  {
    if moves == [] then l
    else RunTransfers(Transfer(l, moves[0].sender, moves[0].receiver, moves[0].amount).ledger, moves[1..])
  }

  /** Any sequence of non-negative transfers among existing accounts keeps
      every balance non-negative and conserves the total. */
  lemma {:induction false} TransfersConserveTotal(l: Ledger, render: IbanRenderer, moves: seq<Move>)
    requires Valid(l, render)
    requires forall i :: 0 <= i < |moves| ==>
               && Exists(l, moves[i].sender) && Exists(l, moves[i].receiver) && moves[i].amount >= 0.0
    ensures Valid(RunTransfers(l, moves), render)
    ensures Total(RunTransfers(l, moves)) == Total(l)
    ensures RunTransfers(l, moves).accounts.accounts.Keys == l.accounts.accounts.Keys
    decreases |moves|
  {
    if moves != [] {
      var m := moves[0];
      var l' := Transfer(l, m.sender, m.receiver, m.amount).ledger;
      TransferKeepsValid(l, render, m.sender, m.receiver, m.amount);
      TransferConservesTotal(l, m.sender, m.receiver, m.amount);
      assert l'.accounts.accounts.Keys == l.accounts.accounts.Keys;
      TransfersConserveTotal(l', render, moves[1..]);
    }
  }

  /** One single-account transaction. */
  datatype Txn = Credit(amount: real) | Debit(amount: real)

  function Credits(ts: seq<Txn>): real
    decreases |ts|
  {
    if ts == [] then 0.0 else (if ts[0].Credit? then ts[0].amount else 0.0) + Credits(ts[1..])
  }

  function Debits(ts: seq<Txn>): real
    decreases |ts|
  {
    if ts == [] then 0.0 else (if ts[0].Debit? then ts[0].amount else 0.0) + Debits(ts[1..])
  }

  /** The ledger after applying the transactions to one account in order,
      and whether every one of them succeeded. */
  function RunTxns(l: Ledger, iban: string, ts: seq<Txn>): (Ledger, bool)
    decreases |ts|
  {
    if ts == [] then (l, true)
    else
      var s := match ts[0]
        case Credit(a) => Deposit(l, iban, a)
        case Debit(a) => Withdraw(l, iban, a);
      var rest := RunTxns(s.ledger, iban, ts[1..]);
      (rest.0, s.result.Ok? && rest.1)
  }

  /** With non-negative amounts and a starting balance that covers all
      debits, every transaction succeeds in any order and the final balance
      is the start plus the credits minus the debits. */
  lemma {:induction false} TxnsFinalBalance(l: Ledger, iban: string, ts: seq<Txn>)
    requires Exists(l, iban)
    requires forall i :: 0 <= i < |ts| ==> ts[i].amount >= 0.0
    requires BalanceOf(l, iban) >= Debits(ts)
    ensures Exists(RunTxns(l, iban, ts).0, iban)
    ensures RunTxns(l, iban, ts).1
    ensures BalanceOf(RunTxns(l, iban, ts).0, iban) == BalanceOf(l, iban) + Credits(ts) - Debits(ts)
    decreases |ts|
  {
    if ts != [] {
      DebitsNonNegative(ts[1..]);
      var s := match ts[0]
        case Credit(a) => Deposit(l, iban, a)
        case Debit(a) => Withdraw(l, iban, a);
      TxnsFinalBalance(s.ledger, iban, ts[1..]);
    }
  }

  lemma {:induction false} DebitsNonNegative(ts: seq<Txn>)
    requires forall i :: 0 <= i < |ts| ==> ts[i].amount >= 0.0
    ensures Debits(ts) >= 0.0
    decreases |ts|
  {
    if ts != [] {
      DebitsNonNegative(ts[1..]);
    }
  }

  /** `n` account creations for one existing user, one after the other. Each
      succeeds; the IBANs issued are pairwise distinct and were not in use, so
      exactly `n` accounts join the store and `n` IBANs join the user's set,
      with none lost or duplicated. */
  method CreateAccounts(l: Ledger, render: IbanRenderer, userId: int, n: nat) returns (l': Ledger, ibans: seq<string>)
    requires Valid(l, render)
    requires IbanEndsWithBban(render)
    requires userId in l.users.users
    ensures Valid(l', render)
    ensures Total(l') == Total(l)
    ensures |ibans| == n
    ensures forall i, j :: 0 <= i < j < n ==> ibans[i] != ibans[j]
    ensures forall i :: 0 <= i < n ==> ibans[i] !in l.accounts.accounts && ibans[i] in l'.accounts.accounts
    ensures |l'.accounts.accounts| == |l.accounts.accounts| + n
    ensures userId in l'.users.users
    ensures |l'.users.users[userId].accounts| == |l.users.users[userId].accounts| + n
  {
    l' := l;
    ibans := [];
    var i := 0;
    while i < n
      invariant i <= n
      invariant Valid(l', render)
      invariant Total(l') == Total(l)
      invariant |ibans| == i
      invariant l.accounts.accounts.Keys <= l'.accounts.accounts.Keys
      invariant forall k :: 0 <= k < i ==> ibans[k] !in l.accounts.accounts && ibans[k] in l'.accounts.accounts
      invariant forall a, b :: 0 <= a < b < i ==> ibans[a] != ibans[b]
      invariant |l'.accounts.accounts| == |l.accounts.accounts| + i
      invariant userId in l'.users.users
      invariant |l'.users.users[userId].accounts| == |l.users.users[userId].accounts| + i
    {
      var r := CreateAccount(l', render, userId);
      assert Valid(r.ledger, render) && Total(r.ledger) == Total(l') by {
        CreateAccountKeepsValid(l', render, userId);
      }
      assert && r.result.Ok?
             && r.result.value !in l'.accounts.accounts
             && r.ledger.accounts.accounts.Keys == l'.accounts.accounts.Keys + {r.result.value}
             && |r.ledger.accounts.accounts| == |l'.accounts.accounts| + 1
             && userId in r.ledger.users.users
             && |r.ledger.users.users[userId].accounts| == |l'.users.users[userId].accounts| + 1 by {
        CreateAccountAddsOne(l', render, userId);
      }
      l' := r.ledger;
      ibans := ibans + [r.result.value];
      i := i + 1;
    }
  }
}
