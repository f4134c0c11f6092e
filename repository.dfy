/** The two repositories (repository.WalletRepository and repository.TransactionRepository)
    as an abstract store: `save` records a snapshot row of what was saved, and a wallet
    lookup by id is answered from a map. What a later lookup returns after a save is not
    modelled. */
module Repository {
  import opened Wrappers
  import opened Enums
  import opened TransactionModel
  import opened WalletModel

  /** The columns of a saved wallet. */
  datatype WalletRow = WalletRow(id: string, cryptoType: CryptoType, address: string, balance: real, createdAt: int)

  /** The columns of a saved transaction. */
  datatype TransactionRow = TransactionRow(
    id: string, fromAddress: string, toAddress: string, amount: real, feePriority: FeePriority,
    feeAmount: Option<real>, status: TransactionStatus, createdAt: int, walletId: string)

  /** The wallet's fields at the moment of the call. */
  function RowOfWallet(w: Wallet): WalletRow
    reads w
  {
    WalletRow(w.id, w.cryptoType, w.address, w.balance, w.createdAt)
  }

  /** The transaction's fields at the moment of the call. */
  function RowOfTransaction(t: Transaction): TransactionRow
    reads t
  {
    TransactionRow(t.id, t.fromAddress, t.toAddress, t.amount, t.feePriority, t.feeAmount, t.status,
                   t.createdAt, t.walletId)
  }

  class WalletStore {
    /** What findById answers. */
    var byId: map<string, Wallet>
    /** Every save call, in order. */
    var saved: seq<WalletRow>

    constructor (contents: map<string, Wallet>)
      ensures byId == contents && saved == []
    {
      byId := contents;
      saved := [];
    }

    function FindById(id: string): (r: Option<Wallet>)
      reads this
      ensures r.Some? <==> id in byId
      ensures r.Some? ==> r.value == byId[id]
    {
      if id in byId then Some(byId[id]) else None
    }

    /** Records one write of the wallet's current state. */
    method Save(w: Wallet)
      modifies this`saved
      ensures saved == old(saved) + [RowOfWallet(w)]
    {
      saved := saved + [RowOfWallet(w)];
    }
  }

  class TransactionStore {
    /** Every save call, in order. */
    var saved: seq<TransactionRow>

    constructor ()
      ensures saved == []
    {
      saved := [];
    }

    /** Records one write of the transaction's current state. */
    method Save(t: Transaction)
      modifies this
      ensures saved == old(saved) + [RowOfTransaction(t)]
    {
      saved := saved + [RowOfTransaction(t)];
    }
  }
}
