/** The account counter as the source declares it: a Java `int` advanced
    with `++`, which wraps from the largest `int` to the smallest.

    Wrapping makes the counter return to 0 after 2^32 creations, so the
    account number "0", and with it the first IBAN ever issued, is issued a
    second time. The rest of this model uses an unbounded counter instead
    (`AccountService.Ledger.accountCounter`), under which no number repeats
    (`LedgerProperties.IssuedIbansDistinct`).
 */
module AccountCounter32 {
  import opened Decimal
  import AccountStore

  const IntMin: int := -0x8000_0000
  const IntMax: int := 0x7FFF_FFFF
  const Modulus: int := 0x1_0000_0000

  predicate IsInt32(c: int) {
    IntMin <= c <= IntMax
  }

  /** Java's `c++` on an `int`: two's-complement wrap-around at the top. */
  function Increment(c: int): (r: int)
    requires IsInt32(c)
    ensures IsInt32(r)
    ensures c < IntMax ==> r == c + 1
    ensures c == IntMax ==> r == IntMin
  {
    if c == IntMax then IntMin else c + 1
  }

  /** `x` reduced into the `int` range, as a 32-bit register holds it. */
  function Wrap(x: int): (r: int)
    ensures IsInt32(r)
  {
    (x + 0x8000_0000) % Modulus - 0x8000_0000
  }

  /** The counter value read by the `n`-th creation (counting from 0). */
  function CounterAt(n: nat): (c: int)
    ensures IsInt32(c)
  {
    if n == 0 then 0 else Increment(CounterAt(n - 1))
  }

  /** The account number the `n`-th creation uses, as `String.valueOf` renders it. */
  function AccountNumberAt(n: nat): string {
    IntToString(CounterAt(n))
  }

  /** One step past `x`, the remainder modulo 2^32 either grows by one or
      wraps to 0. */
  lemma SuccessorMod(x: int)
    ensures x % Modulus < Modulus - 1 ==> (x + 1) % Modulus == x % Modulus + 1
    ensures x % Modulus == Modulus - 1 ==> (x + 1) % Modulus == 0
  {
  }

  /** Wrapping forgets whole multiples of 2^32. */
  lemma WrapPeriodic(x: int)
    ensures Wrap(x + Modulus) == Wrap(x)
  {
    var y := x + 0x8000_0000;
    assert y + Modulus == (y / Modulus + 1) * Modulus + y % Modulus;
  }

  /** The counter after `n` creations is `n` wrapped to 32 bits. */
  lemma {:induction false} CounterAtIsWrapped(n: nat)
    ensures CounterAt(n) == Wrap(n)
  {
    if n > 0 {
      CounterAtIsWrapped(n - 1);
      var m := (n - 1 + 0x8000_0000) % Modulus;
      assert Wrap(n - 1) == m - 0x8000_0000;
      SuccessorMod(n - 1 + 0x8000_0000);
      if m == Modulus - 1 {
        assert Wrap(n - 1) == IntMax;
        assert Wrap(n) == IntMin;
      } else {
        assert Wrap(n) == m + 1 - 0x8000_0000;
      }
    }
  }

  /** Up to the 2^31-th creation the counter equals the creation's index. */
  lemma CounterExactBelowOverflow(n: nat)
    requires n <= IntMax
    ensures CounterAt(n) == n
    ensures AccountNumberAt(n) == NatToString(n)
  {
    CounterAtIsWrapped(n);
  }

  /** The 2^31-th creation reads a negative counter. */
  lemma CounterTurnsNegative()
    ensures CounterAt(0x8000_0000) == IntMin
  {
    CounterAtIsWrapped(0x8000_0000);
  }

  /** Account numbers repeat with period 2^32: the creation 2^32 places after
      the `n`-th reads the same counter and so reuses its account number; the
      2^32-th creation reuses the "0" of the very first. */
  lemma NumberReissuedAfterWrap(n: nat)
    ensures CounterAt(n + Modulus) == CounterAt(n)
    ensures AccountNumberAt(n + Modulus) == AccountNumberAt(n)
    ensures n == 0 ==> AccountNumberAt(n + Modulus) == "0"
  {
    CounterAtIsWrapped(n);
    CounterAtIsWrapped(n + Modulus);
    WrapPeriodic(n);
  }

  /** When a reissued IBAN is stored again, the new zero-balance account
      replaces the funded one: its balance is gone from the store. */
  lemma ReissuedIbanResetsBalance(s: AccountStore.Store, iban: string)
    requires iban in s.accounts && s.accounts[iban].amount > 0.0
    ensures AccountStore.AddAccount(s, AccountStore.Account(iban, 0.0)).accounts[iban].amount == 0.0
    ensures |AccountStore.AddAccount(s, AccountStore.Account(iban, 0.0)).accounts| == |s.accounts|
    ensures AccountStore.Total(AccountStore.AddAccount(s, AccountStore.Account(iban, 0.0)))
            == AccountStore.Total(s) - s.accounts[iban].amount
  {
    AccountStore.AddAccountOverwrites(s, AccountStore.Account(iban, 0.0));
    AccountStore.TotalReplace(s, iban, AccountStore.Account(iban, 0.0));
  }
}
