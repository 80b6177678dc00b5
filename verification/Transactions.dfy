/** Transactions, blocks and the consensus constants they are judged by.

    Addresses (20 bytes), hashes (32 bytes) and public keys are plain identifiers: SHA-256 is
    never computed here.  A transaction carries its own hash, so "same hash, same transaction"
    is a hypothesis wherever a result needs it. */
module Transactions {
  import opened Common

  type Uint160 = nat
  type Uint256 = nat

  /** The three 20-byte addresses and the asset the node treats specially. */
  datatype Network = Network(donationAddress: Uint160, issueAddress: Uint160, nknAsset: Uint256, gasAsset: Uint256)

  /** The protobuf payloads.  Unsupported stands for every payload that fails to unpack or has an
      unknown type. */
  datatype Payload =
    | Coinbase(recipient: Uint160, amount: int)
    | SigChainTxn
    | TransferAsset(recipient: Uint160, amount: int)
    | RegisterName(name: string, registrant: string, registrationFee: int)
    | TransferName(name: string, registrant: string)
    | DeleteName(name: string, registrant: string)
    | Subscribe(topic: string, bucket: nat, subscriber: string, identifier: string, meta: string, duration: nat)
    | Unsubscribe(topic: string, subscriber: string, identifier: string)
    | GenerateID(publicKey: string, registrationFee: int)
    | NanoPay(recipient: Uint160, id: nat, amount: int, txnExpiration: nat, nanoPayExpiration: nat)
    | IssueAsset(totalSupply: int)
    | Unsupported

  /** sender is GetProgramHashes()[0], which a verified signature also equates with the program
      code hash. */
  datatype Txn = Txn(hash: Uint256, sender: Uint160, payload: Payload, nonce: nat, fee: int, size: nat)

  /** A nano-pay channel: both its key in the validation state and its id in the state trie. */
  datatype ChannelId = ChannelId(sender: Uint160, recipient: Uint160, id: nat)

  function Channel(txn: Txn): ChannelId
    requires txn.payload.NanoPay?
  {
    ChannelId(txn.sender, txn.payload.recipient, txn.payload.id)
  }

  /** A subscription as the validation state keys it: the topic is kept as written. */
  datatype SubscriptionKey = SubscriptionKey(topic: string, bucket: nat, subscriber: string, identifier: string)

  /** A subscription as the state trie keys it: the topic is lower-cased. */
  datatype PubSubId = PubSubId(lowerTopic: string, bucket: nat, subscriber: string, identifier: string)

  function ToLower(s: string): string {
    seq(|s|, i requires 0 <= i < |s| => if 'A' <= s[i] <= 'Z' then s[i] - 'A' + 'a' else s[i])
  }

  function SubId(topic: string, bucket: nat, subscriber: string, identifier: string): PubSubId {
    PubSubId(ToLower(topic), bucket, subscriber, identifier)
  }

  const STORAGE_FACTOR := 100000000
  const INITIAL_ISSUE_AMOUNT := 700000000 * STORAGE_FACTOR
  const TOTAL_MINING_REWARDS := 300000000 * STORAGE_FACTOR
  const MAX_SUPPLY := INITIAL_ISSUE_AMOUNT + TOTAL_MINING_REWARDS

  /** Eleven times as much is still an int64, which is the largest product the node forms of a balance. */
  const LEDGER_LIMIT := 8 * MAX_SUPPLY
  const MAX_NUM_TXN_PER_BLOCK := 4096
  const MAX_BLOCK_SIZE := 1024 * 1024
  const MAX_HEIGHT := 0xFFFF_FFFF - 400000

  predicate ChargeNanoPayTxnFee(height: nat) { height >= 1072500 }
  predicate LegacyNameService(height: nat) { height < 980000 }
  predicate AllowTxnRegisterName(height: nat) { height < 7500 || height >= 980000 }
  predicate DonationNoDelay(height: nat) { height >= 3030000 }
  function MaxSubscribeDuration(height: nat): nat { if height >= 245000 then 400000 else 65535 }
  function MaxSubscribeBucket(height: nat): nat { if height >= 245000 then 0 else 1000 }

  /** CheckAmount: no amount or fee is negative or above the maximal supply. */
  predicate CheckAmount(amount: int) {
    0 <= amount <= MAX_SUPPLY
  }

  /** The part of txvalidator.VerifyTransaction the ledger arguments rest on.  Signature, name and
      topic syntax are left to the caller's predicate.  While names are registered the legacy way their
      fee may be any int64.  No sender but a coinbase's is the donation address, for which there is no
      key to sign with. */
  predicate Sane(net: Network, txn: Txn, height: nat) {
    && 0 < txn.size <= MAX_BLOCK_SIZE
    && CheckAmount(txn.fee)
    && (txn.payload.Coinbase? <==> txn.sender == net.donationAddress)
    && match txn.payload {
      case Coinbase(_, amount) => CheckAmount(amount)
      case TransferAsset(_, amount) => CheckAmount(amount)
      case RegisterName(_, _, fee) =>
        AllowTxnRegisterName(height) && -TWO_63 <= fee < TWO_63 && (LegacyNameService(height) || CheckAmount(fee))
      case Subscribe(_, bucket, _, _, _, duration) =>
        0 < duration <= MaxSubscribeDuration(height) && bucket <= MaxSubscribeBucket(height)
      case GenerateID(_, fee) => CheckAmount(fee)
      case NanoPay(_, _, amount, txnExpiration, nanoPayExpiration) =>
        CheckAmount(amount) && txnExpiration <= nanoPayExpiration
      case IssueAsset(totalSupply) => 0 <= totalSupply
      case Unsupported => false
      case _ => true
    }
  }

  /** A registration fee that would pass the check every other amount has to pass. */
  predicate RegistrationInRange(txn: Txn) {
    txn.payload.RegisterName? ==> CheckAmount(txn.payload.registrationFee)
  }

  /** Transactions that consume the sender's nonce. */
  predicate Ordinary(txn: Txn) {
    !txn.payload.Coinbase? && !txn.payload.SigChainTxn? && !txn.payload.NanoPay?
  }

  datatype Block = Block(height: nat, transactionsRoot: Uint256, stateRoot: Uint256, winnerHash: Uint256, txns: seq<Txn>)

  /** GetTxsSize */
  function TotalSize(txns: seq<Txn>): nat {
    if txns == [] then 0 else TotalSize(txns[..|txns| - 1]) + txns[|txns| - 1].size
  }
}
