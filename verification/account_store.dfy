/** The in-memory account store: a map from IBAN to account record. */
module AccountStore {
  import opened Outcomes

  /** A bank account (entity `Account`): its IBAN and its balance. */
  datatype Account = Account(iban: string, amount: real)

  datatype Store = Store(accounts: map<string, Account>)

  const Empty: Store := Store(map[])

  /** `addAccount`: stores the account under its own IBAN, replacing any
      account already stored under that IBAN. */
  function AddAccount(s: Store, a: Account): (r: Store)
    ensures GetAccount(r, a.iban) == Some(a)
    ensures forall iban :: iban != a.iban ==> GetAccount(r, iban) == GetAccount(s, iban)
    ensures r.accounts.Keys == s.accounts.Keys + {a.iban}
  {
    Store(s.accounts[a.iban := a])
  }

  /** `getAccount`: the account stored under `iban`, if any. */
  function GetAccount(s: Store, iban: string): (r: Option<Account>)
    ensures r.Some? <==> iban in s.accounts
    ensures r.Some? ==> r.value == s.accounts[iban]
  {
    if iban in s.accounts then Some(s.accounts[iban]) else None
  }

  /** Every account is stored under its own IBAN. */
  ghost predicate Consistent(s: Store) {
    forall iban :: iban in s.accounts ==> s.accounts[iban].iban == iban
  }

  ghost predicate NonNegative(s: Store) {
    forall iban :: iban in s.accounts ==> s.accounts[iban].amount >= 0.0
  }

  /** The accounts stored by adding `batch` one after the other to `s`. */
  function AddAll(s: Store, batch: seq<Account>): Store
    decreases |batch|
  {
    if batch == [] then s else AddAll(AddAccount(s, batch[0]), batch[1..])
  }

  /** Adding an account keeps every account stored under its own IBAN. */
  lemma AddAccountKeepsConsistent(s: Store, a: Account)
    requires Consistent(s)
    ensures Consistent(AddAccount(s, a))
  {
  }

  /** Adding under an IBAN already present replaces the old account and does
      not grow the store. */
  lemma AddAccountOverwrites(s: Store, a: Account)
    requires a.iban in s.accounts
    ensures AddAccount(s, a).accounts[a.iban] == a
    ensures |AddAccount(s, a).accounts| == |s.accounts|
  {
    assert AddAccount(s, a).accounts.Keys == s.accounts.Keys;
  }

  /** An IBAN that no added account carries is not found. */
  lemma {:induction false} NeverAddedIsAbsent(s: Store, batch: seq<Account>, iban: string)
    requires GetAccount(s, iban) == None
    requires forall i :: 0 <= i < |batch| ==> batch[i].iban != iban
    ensures GetAccount(AddAll(s, batch), iban) == None
    decreases |batch|
  {
    if batch != [] {
      NeverAddedIsAbsent(AddAccount(s, batch[0]), batch[1..], iban);
    }
  }

  /** The last account added under an IBAN is the one found under it. */
  lemma {:induction false} LastAddedIsFound(s: Store, batch: seq<Account>, k: nat)
    requires k < |batch|
    requires forall i :: k < i < |batch| ==> batch[i].iban != batch[k].iban
    ensures GetAccount(AddAll(s, batch), batch[k].iban) == Some(batch[k])
    decreases |batch|
  {
    if k == 0 {
      OtherAddsKeepAccount(AddAccount(s, batch[0]), batch[1..], batch[0]);
    } else {
      LastAddedIsFound(AddAccount(s, batch[0]), batch[1..], k - 1);
    }
  }

  /** Adding accounts under other IBANs leaves a stored account in place. */
  lemma {:induction false} OtherAddsKeepAccount(s: Store, batch: seq<Account>, a: Account)
    requires GetAccount(s, a.iban) == Some(a)
    requires forall i :: 0 <= i < |batch| ==> batch[i].iban != a.iban
    ensures GetAccount(AddAll(s, batch), a.iban) == Some(a)
    decreases |batch|
  {
    if batch != [] {
      OtherAddsKeepAccount(AddAccount(s, batch[0]), batch[1..], a);
    }
  }

  /** Any one key of a non-empty map. */
  ghost function AnyKey(m: map<string, Account>): (k: string)
    requires m != map[]
    ensures k in m
  {
    var k :| k in m; k
  }

  /** The sum of all balances in the store. */
  ghost function Total(s: Store): real
    decreases |s.accounts|
  {
    if s.accounts == map[] then 0.0
    else
      var k := AnyKey(s.accounts);
      s.accounts[k].amount + Total(Store(s.accounts - {k}))
  }

  /** The total is any one balance plus the total of the others. */
  lemma {:induction false} TotalSplit(s: Store, k: string)
    requires k in s.accounts
    ensures Total(s) == s.accounts[k].amount + Total(Store(s.accounts - {k}))
    decreases |s.accounts|
  {
    var j := AnyKey(s.accounts);
    if j != k {
      var m := s.accounts;
      assert |m - {j}| < |m|;
      assert |m - {k}| < |m|;
      TotalSplit(Store(m - {j}), k);
      TotalSplit(Store(m - {k}), j);
      assert m - {j} - {k} == m - {k} - {j};
    }
  }

  /** Replacing one stored account changes the total by the balance difference. */
  lemma TotalReplace(s: Store, k: string, a: Account)
    requires k in s.accounts
    ensures Total(Store(s.accounts[k := a])) == Total(s) - s.accounts[k].amount + a.amount
  {
    var m' := s.accounts[k := a];
    TotalSplit(s, k);
    TotalSplit(Store(m'), k);
    assert m' - {k} == s.accounts - {k};
  }

  /** Storing an account under a new IBAN adds its balance to the total. */
  lemma TotalAddFresh(s: Store, a: Account)
    requires a.iban !in s.accounts
    ensures Total(AddAccount(s, a)) == Total(s) + a.amount
  {
    var m' := s.accounts[a.iban := a];
    TotalSplit(Store(m'), a.iban);
    assert m' - {a.iban} == s.accounts;
  }

  /** With no negative balance, the total is not negative. */
  lemma {:induction false} TotalNonNegative(s: Store)
    requires NonNegative(s)
    ensures Total(s) >= 0.0
    decreases |s.accounts|
  {
    if s.accounts != map[] {
      var k := AnyKey(s.accounts);
      TotalNonNegative(Store(s.accounts - {k}));
    }
  }
}
