/** metier.service.TransactionService: settles a transfer against a wallet's balance. */
module TransactionService {
  import opened Wrappers
  import opened Enums
  import opened Ids
  import opened TransactionModel
  import opened WalletModel
  import opened Repository
  import opened FeeCalculatorFactory

  /** Why a settlement was refused: the balance and the amount-plus-fee it fell short of. */
  datatype SettleError = InsufficientFunds(balance: real, required: real)

  class TransactionService {
    const walletRepository: WalletStore
    /** The UUID source that Transaction's constructor draws from. */
    const ids: IdSupply

    constructor (walletRepository: WalletStore, ids: IdSupply)
      ensures this.walletRepository == walletRepository && this.ids == ids
    {
      this.walletRepository := walletRepository;
      this.ids := ids;
    }

    /** Charges amount + fee, the fee being the wallet kind's fee for the tier. It fails
        exactly when the balance is below that total, and then changes no balance and saves
        nothing. Otherwise the balance drops by exactly the total (so it ends at zero when it
        equalled the total, and it is never negative afterwards), the wallet is saved once,
        and a fresh PENDING transaction from the wallet carrying the fee is returned. The
        amount and the address are not checked here. */
    method CreateTransaction(wallet: Wallet, toAddress: string, amount: real, priority: FeePriority, now: int)
      returns (result: Result<Transaction, SettleError>)
      modifies wallet`balance, walletRepository`saved, ids
      ensures result.Failure? <==> old(wallet.balance) < amount + FeeFor(wallet.cryptoType, priority)
      ensures result.Failure? ==>
                result.error == InsufficientFunds(old(wallet.balance), amount + FeeFor(wallet.cryptoType, priority)) &&
                wallet.balance == old(wallet.balance) && walletRepository.saved == old(walletRepository.saved)
      ensures result.Success? ==>
                wallet.balance == old(wallet.balance) - (amount + FeeFor(wallet.cryptoType, priority)) &&
                wallet.balance >= 0.0 &&
                walletRepository.saved == old(walletRepository.saved) + [RowOfWallet(wallet)]
      ensures old(wallet.balance) == amount + FeeFor(wallet.cryptoType, priority) ==>
                result.Success? && wallet.balance == 0.0
      ensures result.Success? ==>
                var t := result.value;
                fresh(t) && t.id !in old(ids.issued) &&
                t.fromAddress == wallet.address && t.walletId == wallet.id &&
                t.toAddress == toAddress && t.amount == amount && t.feePriority == priority &&
                t.feeAmount == Some(FeeFor(wallet.cryptoType, priority)) && t.status == PENDING && t.createdAt == now
    {
      var tempTx := new Transaction(wallet.address, toAddress, amount, priority, wallet.id, ids, now);
      var calculator := ForType(wallet.cryptoType);
      var fee := calculator.CalculateFee(tempTx, wallet, priority);
      FeeDependsOnKindAndTierOnly(wallet.cryptoType, tempTx, wallet, priority);
      var totalRequired := amount + fee;
      if wallet.balance < totalRequired {
        return Failure(InsufficientFunds(wallet.balance, totalRequired));
      }
      var transaction := new Transaction(wallet.address, toAddress, amount, priority, wallet.id, ids, now);
      transaction.SetFeeAmount(Some(fee));
      var newBalance := wallet.balance - totalRequired;
      wallet.SetBalance(newBalance);
      walletRepository.Save(wallet);
      return Success(transaction);
    }

    /** Credits any amount, negative included, and saves the wallet once. */
    method AddFunds(wallet: Wallet, amount: real)
      modifies wallet`balance, walletRepository`saved
      ensures wallet.balance == old(wallet.balance) + amount
      ensures walletRepository.saved == old(walletRepository.saved) + [RowOfWallet(wallet)]
    {
      var newBalance := wallet.balance + amount;
      wallet.SetBalance(newBalance);
      walletRepository.Save(wallet);
    }
  }
}
