/** metier.model.Transaction: a transfer record whose fee and status are the only mutable fields. */
module TransactionModel {
  import opened Wrappers
  import opened Enums
  import opened Ids

  class Transaction {
    const id: string
    const fromAddress: string
    const toAddress: string
    const amount: real
    const feePriority: FeePriority
    /** Instant.now() at construction, as a clock reading passed in. */
    const createdAt: int
    /** `None` until a fee is assigned (Java: null). */
    var feeAmount: Option<real>
    var status: TransactionStatus
    const walletId: string

    /** A new transaction: a freshly minted id, no fee yet, status PENDING. */
    constructor (fromAddress: string, toAddress: string, amount: real, feePriority: FeePriority,
                 walletId: string, ids: IdSupply, now: int)
      modifies ids
      ensures id !in old(ids.issued) && ids.issued == old(ids.issued) + {id}
      ensures this.fromAddress == fromAddress && this.toAddress == toAddress
      ensures this.amount == amount && this.feePriority == feePriority && this.walletId == walletId
      ensures createdAt == now
      ensures feeAmount == None && status == PENDING
    {
      var newId := ids.Mint();
      id := newId;
      this.fromAddress := fromAddress;
      this.toAddress := toAddress;
      this.amount := amount;
      this.feePriority := feePriority;
      createdAt := now;
      status := PENDING;
      this.walletId := walletId;
      feeAmount := None;
    }

    /** Replaces the fee; nothing else changes. */
    method SetFeeAmount(fee: Option<real>)
      modifies this`feeAmount
      ensures feeAmount == fee
      ensures status == old(status)
    {
      feeAmount := fee;
    }

    /** Replaces the status, whatever the current one is; nothing else changes. */
    method SetStatus(s: TransactionStatus)
      modifies this`status
      ensures status == s
      ensures feeAmount == old(feeAmount)
    {
      status := s;
    }
  }
}
