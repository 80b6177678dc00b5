/** Accounts: a nonce and one balance per asset.  The overlay of touched accounts and the trie below
    it are one map here: a missing account reads as zero, and FinalizeAccounts drops only accounts
    that hold nothing. */
module Accounts {
  import opened Common
  import opened Sums
  import opened Transactions

  datatype Account = Account(nonce: nat, balances: map<Uint256, int>)
  type AccountMap = map<Uint160, Account>

  datatype LedgerError = InsufficientFunds | AssetExists | NoSuchAsset | SupplyOverflow | UnsupportedPayload | NoDonation

  const NewAccount := Account(0, map[])

  function GetOrNew(accounts: AccountMap, addr: Uint160): Account {
    if addr in accounts then accounts[addr] else NewAccount
  }

  function BalanceOf(accounts: AccountMap, addr: Uint160, asset: Uint256): int {
    Get(GetOrNew(accounts, addr).balances, asset)
  }

  function NonceOf(accounts: AccountMap, addr: Uint160): nat {
    GetOrNew(accounts, addr).nonce
  }

  function SetBalance(accounts: AccountMap, addr: Uint160, asset: Uint256, value: int): AccountMap {
    var acc := GetOrNew(accounts, addr);
    accounts[addr := acc.(balances := acc.balances[asset := value])]
  }

  /** UpdateBalance(..., Subtraction) */
  function Debit(accounts: AccountMap, addr: Uint160, asset: Uint256, value: int): Result<AccountMap, LedgerError> {
    var amount := BalanceOf(accounts, addr, asset);
    if amount < value then Err(InsufficientFunds)
    else Ok(SetBalance(accounts, addr, asset, Wrap64(amount - value)))
  }

  /** UpdateBalance(..., Addition): the sum is an int64. */
  function Credit(accounts: AccountMap, addr: Uint160, asset: Uint256, value: int): AccountMap {
    SetBalance(accounts, addr, asset, Wrap64(BalanceOf(accounts, addr, asset) + value))
  }

  /** IncrNonce: the nonce is a uint64. */
  function IncrNonce(accounts: AccountMap, addr: Uint160): AccountMap {
    var acc := GetOrNew(accounts, addr);
    accounts[addr := acc.(nonce := (acc.nonce + 1) % TWO_64)]
  }

  // ----- Totals -----

  function Holdings(accounts: AccountMap, asset: Uint256): map<Uint160, int> {
    map a | a in accounts :: Get(accounts[a].balances, asset)
  }

  /** All units of an asset held by accounts. */
  ghost function Total(accounts: AccountMap, asset: Uint256): int {
    Sum(Holdings(accounts, asset))
  }

  ghost predicate Solvent(accounts: AccountMap, asset: Uint256) {
    NonNegative(Holdings(accounts, asset))
  }

  /** Every balance of a solvent ledger lies between zero and the total. */
  lemma BalanceWithinTotal(accounts: AccountMap, asset: Uint256, addr: Uint160)
    requires Solvent(accounts, asset)
    ensures 0 <= BalanceOf(accounts, addr, asset) <= Total(accounts, asset)
  {
    SumBounds(Holdings(accounts, asset), addr);
  }

  lemma SetBalanceTotal(accounts: AccountMap, addr: Uint160, asset: Uint256, value: int)
    ensures Total(SetBalance(accounts, addr, asset, value), asset)
         == Total(accounts, asset) - BalanceOf(accounts, addr, asset) + value
    ensures value >= 0 && Solvent(accounts, asset) ==> Solvent(SetBalance(accounts, addr, asset, value), asset)
  {
    SumSet(Holdings(accounts, asset), addr, value);
    assert Holdings(SetBalance(accounts, addr, asset, value), asset) == Holdings(accounts, asset)[addr := value];
  }

  /** Other assets and other accounts are not touched. */
  lemma SetBalanceFrame(accounts: AccountMap, addr: Uint160, asset: Uint256, value: int)
    ensures forall a, x :: BalanceOf(SetBalance(accounts, addr, asset, value), a, x)
                       == if a == addr && x == asset then value else BalanceOf(accounts, a, x)
    ensures forall a :: NonceOf(SetBalance(accounts, addr, asset, value), a) == NonceOf(accounts, a)
  {
  }

  /** A successful debit takes exactly value out of circulation. */
  lemma DebitTotal(accounts: AccountMap, addr: Uint160, asset: Uint256, value: int)
    requires Solvent(accounts, asset) && Total(accounts, asset) < TWO_63 && value >= 0
    requires Debit(accounts, addr, asset, value).Ok?
    ensures var after := Debit(accounts, addr, asset, value).value;
      && after == SetBalance(accounts, addr, asset, BalanceOf(accounts, addr, asset) - value)
      && Solvent(after, asset) && Total(after, asset) == Total(accounts, asset) - value
  {
    BalanceWithinTotal(accounts, asset, addr);
    SetBalanceTotal(accounts, addr, asset, BalanceOf(accounts, addr, asset) - value);
  }

  /** A credit that fits the int64 range puts exactly value into circulation. */
  lemma CreditTotal(accounts: AccountMap, addr: Uint160, asset: Uint256, value: int)
    requires Solvent(accounts, asset) && value >= 0 && Total(accounts, asset) + value < TWO_63
    ensures var after := Credit(accounts, addr, asset, value);
      && after == SetBalance(accounts, addr, asset, BalanceOf(accounts, addr, asset) + value)
      && Solvent(after, asset) && Total(after, asset) == Total(accounts, asset) + value
  {
    BalanceWithinTotal(accounts, asset, addr);
    SetBalanceTotal(accounts, addr, asset, BalanceOf(accounts, addr, asset) + value);
  }

  /** Nonces and holdings of other assets do not enter a total. */
  lemma SameHoldings(accounts: AccountMap, addr: Uint160, acc: Account, asset: Uint256)
    requires Get(acc.balances, asset) == BalanceOf(accounts, addr, asset)
    ensures Total(accounts[addr := acc], asset) == Total(accounts, asset)
    ensures Solvent(accounts, asset) ==> Solvent(accounts[addr := acc], asset)
  {
    SumSet(Holdings(accounts, asset), addr, Get(acc.balances, asset));
    assert Holdings(accounts[addr := acc], asset) == Holdings(accounts, asset)[addr := Get(acc.balances, asset)];
  }
}
