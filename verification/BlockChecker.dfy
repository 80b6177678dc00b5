/** TransactionCheck as the node runs it: one pass over the block, with a validation state and a map
    of expected nonces, and a flag that remembers success. */
module BlockChecker {
  import opened Common
  import opened Transactions
  import opened Execution
  import opened Ledger
  import opened BlockValidation
  import opened BlockCheck
  import opened ValidationState
  import opened StateDatabase
  import Merkle

  class CandidateBlock {
    const block: Block
    var isTxnsChecked: bool

    constructor (block: Block)
      ensures this.block == block && !isTxnsChecked
    {
      this.block := block;
      isTxnsChecked := false;
    }
  }

  /** The loop over the transactions. */
  method CheckLoop(rules: Rules, store: Store, txns: seq<Txn>, height: nat) returns (e: Option<CheckError>)
    requires height > 0
    ensures e.Some? <==> CheckPrefix(rules, store, txns, |txns|, height).Err?
    ensures e.Some? ==> e.value == CheckPrefix(rules, store, txns, |txns|, height).error
  {
    hide VerifyTransaction, VerifyWithLedger, VerifyError, Admit, Verify, Commit, GetNonce;
    var bvs := new BlockValidationState();
    var nonces: map<Uint160, nat> := map[];
    for i := 0 to |txns|
      invariant fresh(bvs) && Clean?(bvs.View())
      invariant CheckPrefix(rules, store, txns, i, height) == Ok(CheckState(bvs.View(), nonces))
    {
      var txn := txns[i];
      ghost var c := CheckState(bvs.View(), nonces);
      ghost var step := CheckTxn(rules, store, c, i, txn, height);
      assert CheckPrefix(rules, store, txns, i + 1, height) == step;
      if step.Err? {
        StaysFailed(rules, store, txns, i + 1, |txns|, height);
      }
      if i != 0 && txn.payload.Coinbase? {
        return Some(CoinbaseOrder);
      }
      if !VerifyTransaction(rules, store, txn, height) {
        return Some(InvalidTxn);
      }
      var bad := bvs.VerifyTransactionWithBlock(store, rules.maxSubscriptions, txn, height);
      if bad.Some? {
        bvs.Reset();
        return Some(InvalidInBlock(bad.value));
      }
      VerifyCommit(c.bvs, store, rules.maxSubscriptions, txn, height);
      AdmitIsClean(c.bvs, store, txn);
      bvs.Commit();
      assert bvs.View() == Admit(c.bvs, store, txn);
      if !VerifyWithLedger(rules, store, txn, height) {
        return Some(InvalidWithLedger);
      }
      if Ordinary(txn) {
        if txn.sender !in nonces {
          nonces := nonces[txn.sender := GetNonce(store, txn.sender)];
        }
        if nonces[txn.sender] != txn.nonce {
          return Some(NonceMismatch);
        }
        nonces := nonces[txn.sender := (nonces[txn.sender] + 1) % TWO_64];
        assert nonces == c.nonces[txn.sender := (txn.nonce + 1) % TWO_64];
      }
      assert step == Ok(CheckState(bvs.View(), nonces));
    }
    e := None;
  }

  lemma {:induction false} StaysFailed(rules: Rules, store: Store, txns: seq<Txn>, i: nat, n: nat, height: nat)
    requires height > 0 && i <= n <= |txns| && CheckPrefix(rules, store, txns, i, height).Err?
    ensures CheckPrefix(rules, store, txns, n, height) == CheckPrefix(rules, store, txns, i, height)
    decreases n
  {
    hide CheckTxn;
    if i == n {
    } else {
      StaysFailed(rules, store, txns, i, n - 1, height);
    }
  }

  /** TransactionCheck, without fast sync. */
  method CheckTransactions(rules: Rules, store: Store, candidate: CandidateBlock) returns (e: Option<CheckError>)
    requires candidate.block.height > 0 && Committed(store.state)
    modifies candidate
    ensures old(candidate.isTxnsChecked) ==> e.None? && candidate.isTxnsChecked
    ensures !old(candidate.isTxnsChecked) ==> e == TransactionCheck(rules, store, candidate.block) && candidate.isTxnsChecked == e.None?
  {
    hide CheckPrefix, TotalSize, ExecuteBlock, GetDonation;
    if candidate.isTxnsChecked {
      return None;
    }
    var b := candidate.block;
    if |b.txns| == 0 {
      return Some(EmptyBlock);
    }
    if |b.txns| > MAX_NUM_TXN_PER_BLOCK {
      return Some(TooManyTxns);
    }
    if TotalSize(b.txns) > MAX_BLOCK_SIZE {
      return Some(BlockTooBig);
    }
    if !b.txns[0].payload.Coinbase? {
      return Some(FirstNotCoinbase);
    }
    var hashes := TxnHashes(b.txns);
    var root := Merkle.ComputeRoot(rules.pairHash, hashes);
    if root != Some(b.transactionsRoot) {
      return Some(RootMismatch);
    }
    e := CheckLoop(rules, store, b.txns, b.height);
    if e.Some? {
      return;
    }
    if b.winnerHash != 0 && b.winnerHash !in hashes && b.winnerHash !in store.txnHashes {
      return Some(WinnerNotFound);
    }
    var states := new StateDB(store.state);
    assert states.View() == store.state;
    var failed := states.GenerateStateRoot(store.net, b, GetDonation(store));
    if failed.Some? {
      return Some(ExecutionFailed);
    }
    if rules.stateRoot(states.View()) != b.stateRoot {
      return Some(StateRootMismatch);
    }
    candidate.isTxnsChecked := true;
    e := None;
  }
}
