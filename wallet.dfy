/** metier.model.Wallet (with its two subclasses folded into the `cryptoType` tag). */
module WalletModel {
  import opened Enums
  import opened Ids
  import opened TransactionModel

  class Wallet {
    const id: string
    const cryptoType: CryptoType
    const address: string
    var balance: real
    /** Instant.now() at construction, as a clock reading passed in. */
    const createdAt: int
    var transactions: seq<Transaction>

    /** A brand-new wallet: fresh id, zero balance, no transactions. */
    constructor (cryptoType: CryptoType, address: string, ids: IdSupply, now: int)
      modifies ids
      ensures id !in old(ids.issued) && ids.issued == old(ids.issued) + {id}
      ensures this.cryptoType == cryptoType && this.address == address
      ensures balance == 0.0 && transactions == [] && createdAt == now
    {
      var newId := ids.Mint();
      id := newId;
      this.cryptoType := cryptoType;
      this.address := address;
      balance := 0.0;
      createdAt := now;
      transactions := [];
    }

    /** Reconstruction from stored values: every field as given, no transactions. */
    constructor Restore(id: string, cryptoType: CryptoType, address: string, balance: real, createdAt: int)
      ensures this.id == id && this.cryptoType == cryptoType && this.address == address
      ensures this.balance == balance && this.createdAt == createdAt
      ensures transactions == []
    {
      this.id := id;
      this.cryptoType := cryptoType;
      this.address := address;
      this.balance := balance;
      this.createdAt := createdAt;
      transactions := [];
    }

    /** Replaces the balance with any value, negative included. */
    method SetBalance(b: real)
      modifies this`balance
      ensures balance == b
      ensures transactions == old(transactions)
    {
      balance := b;
    }

    /** Appends a transaction at the end of the list. */
    method AddTransaction(tx: Transaction)
      modifies this`transactions
      ensures transactions == old(transactions) + [tx]
      ensures balance == old(balance)
    {
      transactions := transactions + [tx];
    }
  }
}
