/** TransactionCheck and VerifyTransactionWithLedger: what makes a block acceptable on a store. */
module BlockCheck {
  import opened Common
  import opened Transactions
  import opened Execution
  import opened Ledger
  import opened BlockValidation
  import Merkle

  /** The checks and functions whose definitions are outside the model: signature and syntax rules,
      the history rules for names and node IDs, the pair hash and the state root. */
  datatype Rules = Rules(
    wellFormed: (Txn, nat) -> bool,
    history: (Txn, nat) -> bool,
    maxSubscriptions: nat,
    pairHash: (Uint256, Uint256) -> Uint256,
    stateRoot: State -> Uint256)

  datatype CheckError =
    | EmptyBlock | TooManyTxns | BlockTooBig | FirstNotCoinbase | RootMismatch | CoinbaseOrder | InvalidTxn
    | InvalidInBlock(bvs: BvsError) | InvalidWithLedger | NonceMismatch | WinnerNotFound | ExecutionFailed | StateRootMismatch

  /** txvalidator.VerifyTransaction */
  predicate VerifyTransaction(rules: Rules, store: Store, txn: Txn, height: nat) {
    Sane(store.net, txn, height) && rules.wellFormed(txn, height)
  }

  /** What VerifyTransactionWithLedger wants covered besides the fee. */
  function LedgerAmount(store: Store, txn: Txn, height: nat): int {
    match txn.payload
    case TransferAsset(_, amount) => amount
    case RegisterName(_, _, fee) => if LegacyNameService(height) then 0 else fee
    case GenerateID(_, fee) => fee
    case NanoPay(_, _, _, _, _) => ClaimOf(store, txn)
    case _ => 0
  }

  predicate PayloadFitsLedger(rules: Rules, store: Store, txn: Txn, height: nat) {
    match txn.payload
    case Coinbase(_, _) =>
      var donation := GetDonation(store);
      donation.Ok? && GetBalance(store, store.net.donationAddress) >= donation.value
    case Subscribe(topic, bucket, _, _, _, _) =>
      AlreadySubscribed(store, txn) || rules.maxSubscriptions == 0 || SubscribersCount(store, topic, bucket) < rules.maxSubscriptions
    case Unsubscribe(_, _, _) => AlreadySubscribed(store, txn)
    case NanoPay(_, _, _, txnExpiration, expiration) =>
      height <= txnExpiration && height <= expiration && ClaimOf(store, txn) > 0
    case IssueAsset(_) => txn.hash !in store.state.assets
    case Unsupported => false
    case TransferAsset(_, _) => true
    case SigChainTxn => true
    case _ => rules.history(txn, height)
  }

  /** VerifyTransactionWithLedger */
  predicate VerifyWithLedger(rules: Rules, store: Store, txn: Txn, height: nat) {
    && txn.hash !in store.txnHashes
    && (!txn.payload.NanoPay? && !txn.payload.SigChainTxn? ==> txn.nonce >= GetNonce(store, txn.sender))
    && PayloadFitsLedger(rules, store, txn, height)
    && GetBalance(store, txn.sender) >= LedgerAmount(store, txn, height) + txn.fee
  }

  /** The running state of TransactionCheck's loop. */
  datatype CheckState = CheckState(bvs: Bvs, nonces: map<Uint160, nat>)

  const NewCheck := CheckState(NewBvs, map[])

  function ExpectedNonce(store: Store, nonces: map<Uint160, nat>, addr: Uint160): nat {
    if addr in nonces then nonces[addr] else GetNonce(store, addr)
  }

  /** One iteration, for the transaction at position i. */
  function CheckTxn(rules: Rules, store: Store, c: CheckState, i: nat, txn: Txn,
          height: nat): Result<CheckState, CheckError>
    requires height > 0
  {
    if i != 0 && txn.payload.Coinbase? then Err(CoinbaseOrder)
    else if !VerifyTransaction(rules, store, txn, height) then Err(InvalidTxn)
    else
      var e := VerifyError(c.bvs, store, rules.maxSubscriptions, txn, height);
      if e.Some? then Err(InvalidInBlock(e.value))
      else if !VerifyWithLedger(rules, store, txn, height) then Err(InvalidWithLedger)
      else
        var bvs := Admit(c.bvs, store, txn);
        if !Ordinary(txn) then Ok(CheckState(bvs, c.nonces))
        else
          var nonce := ExpectedNonce(store, c.nonces, txn.sender);
          if nonce != txn.nonce then Err(NonceMismatch)
          else Ok(CheckState(bvs, c.nonces[txn.sender := (nonce + 1) % TWO_64]))
  }

  /** The loop over the first n transactions. */
  function CheckPrefix(rules: Rules, store: Store, txns: seq<Txn>, n: nat, height: nat): Result<CheckState, CheckError>
    requires n <= |txns| && height > 0
  {
    if n == 0 then Ok(NewCheck)
    else
      var c :- CheckPrefix(rules, store, txns, n - 1, height);
      CheckTxn(rules, store, c, n - 1, txns[n - 1], height)
  }

  function TxnHashes(txns: seq<Txn>): (hs: seq<Uint256>)
    ensures |hs| == |txns| && forall i :: 0 <= i < |txns| ==> hs[i] == txns[i].hash
  {
    seq(|txns|, i requires 0 <= i < |txns| => txns[i].hash)
  }

  /** The checks before the loop. */
  function StructureError(rules: Rules, b: Block): Option<CheckError> {
    if b.txns == [] then Some(EmptyBlock)
    else if |b.txns| > MAX_NUM_TXN_PER_BLOCK then Some(TooManyTxns)
    else if TotalSize(b.txns) > MAX_BLOCK_SIZE then Some(BlockTooBig)
    else if !b.txns[0].payload.Coinbase? then Some(FirstNotCoinbase)
    else if Merkle.Root(rules.pairHash, TxnHashes(b.txns)) != b.transactionsRoot then Some(RootMismatch)
    else None
  }

  /** The checks up to and including the loop: what "validated" means below. */
  function ValidationError(rules: Rules, store: Store, b: Block): Option<CheckError>
    requires b.height > 0
  {
    var e := StructureError(rules, b);
    if e.Some? then e
    else
      var c := CheckPrefix(rules, store, b.txns, |b.txns|, b.height);
      if c.Err? then Some(c.error) else None
  }

  predicate Validated(rules: Rules, store: Store, b: Block)
    requires b.height > 0
  {
    ValidationError(rules, store, b).None?
  }

  /** The checks after the loop: winner hash and state root. */
  function FinalError(rules: Rules, store: Store, b: Block): Option<CheckError> {
    if b.winnerHash != 0 && b.winnerHash !in TxnHashes(b.txns) && b.winnerHash !in store.txnHashes then Some(WinnerNotFound)
    else
      var st := ExecuteBlock(store.state, store.net, b, GetDonation(store));
      if st.Err? then Some(ExecutionFailed)
      else if rules.stateRoot(st.value) != b.stateRoot then Some(StateRootMismatch) else None
  }

  /** TransactionCheck without fast sync, on a block not checked before. */
  function TransactionCheck(rules: Rules, store: Store, b: Block): Option<CheckError>
    requires b.height > 0
  {
    var e := ValidationError(rules, store, b);
    if e.Some? then e else FinalError(rules, store, b)
  }
}
