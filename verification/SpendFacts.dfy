/** What executing one checked transaction does to the NKN held by accounts. */
module SpendFacts {
  import opened Common
  import opened Sums
  import opened Transactions
  import opened Accounts
  import opened Rewards
  import opened Execution
  import opened BlockValidation
  import ET = ExpiryTables

  /** Enough head room for every sum of this module to fit an int64. */
  const HEADROOM := 20 * MAX_SUPPLY

  function Bal(net: Network, accounts: AccountMap, a: Uint160): int {
    BalanceOf(accounts, a, net.nknAsset)
  }

  ghost function Held(net: Network, accounts: AccountMap): int {
    Total(accounts, net.nknAsset)
  }

  ghost predicate Sound(net: Network, accounts: AccountMap) {
    Solvent(accounts, net.nknAsset) && Held(net, accounts) <= HEADROOM
  }

  /** The fee actually taken. */
  function Charged(txn: Txn, height: nat): int {
    if FeeCharged(txn, height) then txn.fee else 0
  }

  lemma ChargeFacts(net: Network, accounts: AccountMap, txn: Txn, height: nat)
    requires Sound(net, accounts) && txn.fee >= 0
    ensures ChargeFee(accounts, net, txn, height).Ok? <==> Charged(txn, height) <= Bal(net, accounts, txn.sender)
    ensures ChargeFee(accounts, net, txn, height).Ok? ==>
      var after := ChargeFee(accounts, net, txn, height).value;
      && Sound(net, after) && Held(net, after) == Held(net, accounts) - Charged(txn, height)
      && (forall s :: Bal(net, after, s) == Bal(net, accounts, s) - if s == txn.sender then Charged(txn, height) else 0)
      && (forall s :: NonceOf(after, s) == NonceOf(accounts, s))
  {
    hide SetBalance, BalanceOf, NonceOf, Total, Solvent;
    BalanceWithinTotal(accounts, net.nknAsset, txn.sender);
    if FeeCharged(txn, height) && txn.fee <= Bal(net, accounts, txn.sender) {
      DebitTotal(accounts, txn.sender, net.nknAsset, txn.fee);
      SetBalanceFrame(accounts, txn.sender, net.nknAsset, Bal(net, accounts, txn.sender) - txn.fee);
    }
  }

  lemma BumpFacts(net: Network, accounts: AccountMap, txn: Txn)
    ensures var after := BumpNonce(accounts, txn);
      && Held(net, after) == Held(net, accounts) && (Sound(net, accounts) ==> Sound(net, after))
      && (forall s :: Bal(net, after, s) == Bal(net, accounts, s))
  {
    var acc := GetOrNew(accounts, txn.sender);
    SameHoldings(accounts, txn.sender, acc.(nonce := (acc.nonce + 1) % TWO_64), net.nknAsset);
  }

  /** A covered transfer moves value and keeps the total. */
  lemma MoveFacts(net: Network, accounts: AccountMap, from: Uint160, to: Uint160, value: int)
    requires Sound(net, accounts) && 0 <= value <= Bal(net, accounts, from)
    ensures Move(accounts, net, from, to, value).Ok?
    ensures var after := Move(accounts, net, from, to, value).value;
      && Sound(net, after) && Held(net, after) == Held(net, accounts)
      && (forall s :: Bal(net, after, s) == Bal(net, accounts, s) - (if s == from then value else 0) + (if s == to then value else 0))
      && (forall s :: NonceOf(after, s) == NonceOf(accounts, s))
  {
    hide SetBalance, BalanceOf, NonceOf, Total, Solvent;
    DebitTotal(accounts, from, net.nknAsset, value);
    SetBalanceFrame(accounts, from, net.nknAsset, Bal(net, accounts, from) - value);
    var debited := Debit(accounts, from, net.nknAsset, value).value;
    CreditTotal(debited, to, net.nknAsset, value);
    SetBalanceFrame(debited, to, net.nknAsset, Bal(net, debited, to) + value);
  }

  /** Crediting another asset leaves NKN alone. */
  lemma ForeignCredit(net: Network, accounts: AccountMap, a: Uint160, asset: Uint256, value: int)
    requires asset != net.nknAsset
    ensures var after := Credit(accounts, a, asset, value);
      && Held(net, after) == Held(net, accounts) && (Sound(net, accounts) ==> Sound(net, after))
      && (forall s :: Bal(net, after, s) == Bal(net, accounts, s))
      && (forall s :: NonceOf(after, s) == NonceOf(accounts, s))
  {
    var acc := GetOrNew(accounts, a);
    SameHoldings(accounts, a, acc.(balances := acc.balances[asset := Wrap64(Get(acc.balances, asset) + value)]),
      net.nknAsset);
    SetBalanceFrame(accounts, a, asset, Wrap64(BalanceOf(accounts, a, asset) + value));
  }

  /** What a transaction other than a coinbase takes from its sender, fee aside. */
  function Due(st: State, txn: Txn): int {
    if txn.payload.NanoPay? then txn.payload.amount - ET.Peek(st.nanoPay, Channel(txn)).data else Amount(txn)
  }

  /** Who receives what a transaction other than a coinbase takes from its sender. */
  function Payee(net: Network, txn: Txn): Option<Uint160> {
    match txn.payload
    case TransferAsset(recipient, _) => Some(recipient)
    case NanoPay(recipient, _, _, _, _) => Some(recipient)
    case RegisterName(_, _, _) => Some(net.donationAddress)
    case GenerateID(_, _) => Some(net.donationAddress)
    case _ => None
  }

  /** A payload that pays somebody is a transfer of what is due. */
  lemma PayloadMoves(st: State, net: Network, txn: Txn, totalFee: int, height: nat, donation: Result<int, LedgerError>)
    requires Payee(net, txn).Some?
    ensures var r := SpendPayload(st, net, txn, totalFee, false, height, donation);
      var moved := Move(st.accounts, net, txn.sender, Payee(net, txn).value, Due(st, txn));
      (r.Ok? <==> moved.Ok?) && (r.Ok? ==> r.value.accounts == moved.value && r.value.assets == st.assets)
  {
    hide Move, Credit, ET.Claim, ET.Subscribe, ET.Unsubscribe;
  }

  /** The payload of a transaction other than a coinbase executes when its sender can pay for it,
      and moves NKN without creating or destroying any. */
  lemma PayloadFacts(st: State, net: Network, txn: Txn, totalFee: int, height: nat, donation: Result<int, LedgerError>)
    requires !txn.payload.Coinbase? && !txn.payload.Unsupported?
    requires Sound(net, st.accounts) && 0 <= Due(st, txn) <= Bal(net, st.accounts, txn.sender)
    requires net.nknAsset in st.assets && (txn.payload.IssueAsset? ==> txn.hash !in st.assets)
    ensures SpendPayload(st, net, txn, totalFee, false, height, donation).Ok?
    ensures var st' := SpendPayload(st, net, txn, totalFee, false, height, donation).value;
      && Sound(net, st'.accounts) && Held(net, st'.accounts) == Held(net, st.accounts)
      && (forall s :: Bal(net, st'.accounts, s) == Bal(net, st.accounts, s)
            - (if s == txn.sender then Due(st, txn) else 0) + (if Payee(net, txn) == Some(s) then Due(st, txn) else 0))
      && (forall s :: NonceOf(st'.accounts, s) == NonceOf(st.accounts, s))
      && st'.assets == (if txn.payload.IssueAsset? then st.assets[txn.hash := txn.payload.totalSupply] else st.assets)
  {
    hide Bal, Held, Sound, NonceOf, Move, Credit, ET.Claim, ET.Subscribe, ET.Unsubscribe;
    if Payee(net, txn).Some? {
      PayloadMoves(st, net, txn, totalFee, height, donation);
      MoveFacts(net, st.accounts, txn.sender, Payee(net, txn).value, Due(st, txn));
    } else if txn.payload.IssueAsset? {
      ForeignCredit(net, st.accounts, txn.sender, txn.hash, txn.payload.totalSupply);
    }
  }

  /** A coinbase executes exactly when its sender can pay both its fee and the donation; it issues
      the reward, and pays out the block's fees in advance. */
  lemma CoinbaseFacts(st: State, net: Network, txn: Txn, totalFee: int, height: nat, donation: int)
    requires txn.payload.Coinbase? && height > 0 && Sound(net, st.accounts)
    requires CheckAmount(txn.fee) && CheckAmount(txn.payload.amount)
    requires donation >= 0 && txn.payload.amount == RewardAt(height) + donation
    requires 0 <= totalFee <= Held(net, st.accounts) <= LEDGER_LIMIT
    requires net.nknAsset in st.assets && 0 < st.assets[net.nknAsset] <= MAX_SUPPLY
    ensures Spend(st, net, txn, totalFee, false, height, Ok(donation)).Ok? <==> txn.fee + donation <= Bal(net, st.accounts, txn.sender)
    ensures Spend(st, net, txn, totalFee, false, height, Ok(donation)).Ok? ==>
      var st' := Spend(st, net, txn, totalFee, false, height, Ok(donation)).value;
      && Sound(net, st'.accounts)
      && Held(net, st'.accounts) == Held(net, st.accounts) + RewardAt(height) + totalFee - txn.fee
      && (forall s :: Bal(net, st'.accounts, s) >= Bal(net, st.accounts, s) - if s == txn.sender then txn.fee + donation else 0)
      && st' == st.(accounts := st'.accounts, assets := st.assets[net.nknAsset := st.assets[net.nknAsset] + RewardAt(height)])
  {
    hide SetBalance, BalanceOf, NonceOf, Total, Solvent, ChargeFee, BumpNonce, RewardAt;
    ChargeFacts(net, st.accounts, txn, height);
    assert Charged(txn, height) == txn.fee;
    BalanceWithinTotal(st.accounts, net.nknAsset, txn.sender);
    if txn.fee <= Bal(net, st.accounts, txn.sender) {
      var charged := BumpNonce(ChargeFee(st.accounts, net, txn, height).value, txn);
      BumpFacts(net, ChargeFee(st.accounts, net, txn, height).value, txn);
      if donation <= Bal(net, charged, txn.sender) {
        DebitTotal(charged, txn.sender, net.nknAsset, donation);
        SetBalanceFrame(charged, txn.sender, net.nknAsset, Bal(net, charged, txn.sender) - donation);
        var drawn := Debit(charged, txn.sender, net.nknAsset, donation).value;
        var pay := txn.payload.amount + totalFee;
        CreditTotal(drawn, txn.payload.recipient, net.nknAsset, pay);
        SetBalanceFrame(drawn, txn.payload.recipient, net.nknAsset, Bal(net, drawn, txn.payload.recipient) + pay);
      }
    }
  }

  /** Whatever the block's fees are, a coinbase whose sender cannot pay both fails. */
  lemma CoinbaseUncovered(st: State, net: Network, txn: Txn, totalFee: int, height: nat, donation: int)
    requires txn.payload.Coinbase? && Sound(net, st.accounts) && txn.fee >= 0 && donation >= 0
    requires txn.fee + donation > Bal(net, st.accounts, txn.sender)
    ensures Spend(st, net, txn, totalFee, false, height, Ok(donation)).Err?
  {
    hide SetBalance, BalanceOf, NonceOf, Total, Solvent, ChargeFee, BumpNonce, Credit, IncreaseTotalSupply;
    ChargeFacts(net, st.accounts, txn, height);
    assert Charged(txn, height) == txn.fee;
    if ChargeFee(st.accounts, net, txn, height).Ok? {
      BumpFacts(net, ChargeFee(st.accounts, net, txn, height).value, txn);
    }
  }

  /** A transaction other than a coinbase executes when its sender can pay fee and payload.  It takes
      the charged fee out of circulation, to be returned by the coinbase; the sender pays fee and
      amount, the payee receives the amount, and nobody else notices. */
  lemma TxnFacts(st: State, net: Network, txn: Txn, totalFee: int, height: nat, donation: Result<int, LedgerError>)
    requires !txn.payload.Coinbase? && !txn.payload.Unsupported? && txn.fee >= 0
    requires Sound(net, st.accounts) && 0 <= Due(st, txn) && Due(st, txn) + txn.fee <= Bal(net, st.accounts, txn.sender)
    requires net.nknAsset in st.assets && (txn.payload.IssueAsset? ==> txn.hash !in st.assets)
    ensures Spend(st, net, txn, totalFee, false, height, donation).Ok?
    ensures var st' := Spend(st, net, txn, totalFee, false, height, donation).value;
      && Sound(net, st'.accounts) && Held(net, st'.accounts) == Held(net, st.accounts) - Charged(txn, height)
      && (forall s :: Bal(net, st'.accounts, s) == Bal(net, st.accounts, s)
            - (if s == txn.sender then Charged(txn, height) + Due(st, txn) else 0)
            + (if Payee(net, txn) == Some(s) then Due(st, txn) else 0))
      && st'.assets == (if txn.payload.IssueAsset? then st.assets[txn.hash := txn.payload.totalSupply] else st.assets)
  {
    hide Bal, Held, Sound, NonceOf, ChargeFee, BumpNonce, SpendPayload, FeeCharged, Amount, Payee;
    ChargeFacts(net, st.accounts, txn, height);
    var charged := ChargeFee(st.accounts, net, txn, height).value;
    BumpFacts(net, charged, txn);
    var st1 := st.(accounts := BumpNonce(charged, txn));
    assert Due(st1, txn) == Due(st, txn);
    PayloadFacts(st1, net, txn, totalFee, height, donation);
  }

  /** The exact effect of a coinbase that executes: its sender pays fee and donation, its recipient
      receives reward, donation and the fees of the whole block. */
  lemma CoinbaseEffect(st: State, net: Network, txn: Txn, totalFee: int, height: nat, donation: int, s: Uint160)
    requires txn.payload.Coinbase? && height > 0 && Sound(net, st.accounts)
    requires CheckAmount(txn.fee) && CheckAmount(txn.payload.amount)
    requires donation >= 0 && 0 <= totalFee <= Held(net, st.accounts) <= LEDGER_LIMIT
    requires Spend(st, net, txn, totalFee, false, height, Ok(donation)).Ok?
    ensures Bal(net, Spend(st, net, txn, totalFee, false, height, Ok(donation)).value.accounts, s)
         == Bal(net, st.accounts, s) - (if s == txn.sender then txn.fee + donation else 0)
            + (if s == txn.payload.recipient then txn.payload.amount + totalFee else 0)
  {
    hide SetBalance, BalanceOf, NonceOf, Total, Solvent, ChargeFee, BumpNonce, RewardAt;
    ChargeFacts(net, st.accounts, txn, height);
    assert Charged(txn, height) == txn.fee;
    BalanceWithinTotal(st.accounts, net.nknAsset, txn.sender);
    var charged := BumpNonce(ChargeFee(st.accounts, net, txn, height).value, txn);
    BumpFacts(net, ChargeFee(st.accounts, net, txn, height).value, txn);
    DebitTotal(charged, txn.sender, net.nknAsset, donation);
    SetBalanceFrame(charged, txn.sender, net.nknAsset, Bal(net, charged, txn.sender) - donation);
    var drawn := Debit(charged, txn.sender, net.nknAsset, donation).value;
    var pay := txn.payload.amount + totalFee;
    CreditTotal(drawn, txn.payload.recipient, net.nknAsset, pay);
    SetBalanceFrame(drawn, txn.payload.recipient, net.nknAsset, Bal(net, drawn, txn.payload.recipient) + pay);
  }

  /** The channel records other transactions will read are not touched. */
  lemma ChannelFrame(st: State, net: Network, txn: Txn, totalFee: int, genesis: bool, height: nat,
          donation: Result<int, LedgerError>)
    requires Spend(st, net, txn, totalFee, genesis, height, donation).Ok?
    ensures var st' := Spend(st, net, txn, totalFee, genesis, height, donation).value;
      && st'.nanoPay == (if txn.payload.NanoPay? then ET.Claim(st.nanoPay, Channel(txn), txn.payload.amount, txn.payload.nanoPayExpiration) else st.nanoPay)
      && (forall ch :: !(txn.payload.NanoPay? && ch == Channel(txn)) ==> ET.Peek(st'.nanoPay, ch) == ET.Peek(st.nanoPay, ch))
  {
    hide ChargeFee, BumpNonce, Move, Credit, Debit, IncreaseTotalSupply, RewardAt;
  }
}
