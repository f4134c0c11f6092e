/** metier.service.BitcoinFeeCalculator: 250 bytes at a tiered satoshi-per-byte rate. */
module BitcoinFee {
  import opened Enums
  import opened TransactionModel
  import opened WalletModel

  /** The assumed size of every transaction, in bytes. */
  const EstimatedSizeBytes: int := 250
  /** Satoshis in one bitcoin. */
  const SatsPerBitcoin: int := 100_000_000
  /** The rate of the switch's default branch, which no FeePriority value reaches. */
  const DefaultSatPerByte: int := 10

  /** The tier's rate in satoshis per byte. */
  function SatPerByte(priority: FeePriority): (rate: int)
    ensures 5 <= rate <= 60
  {
    match priority
    case ECONOMIQUE => 5
    case STANDARD => 20
    case RAPIDE => 60
  }

  /** The fee in bitcoins for a rate in satoshis per byte: the exact quotient of the
      satoshi total by 10^8 (BigDecimal.divide, which terminates here). */
  function FeeAtRate(satPerByte: int): (fee: real)
    ensures satPerByte > 0 ==> fee > 0.0
  {
    (EstimatedSizeBytes * satPerByte) as real / SatsPerBitcoin as real
  }

  /** The fee for a tier; the transaction and the wallet are not consulted. */
  function CalculateFee(tx: Transaction?, wallet: Wallet?, priority: FeePriority): (fee: real)
    ensures priority == ECONOMIQUE ==> fee == 0.0000125
    ensures priority == STANDARD ==> fee == 0.00005
    ensures priority == RAPIDE ==> fee == 0.00015
  {
    FeeAtRate(SatPerByte(priority))
  }

  /** Every fee, the default branch's included, is strictly positive. */
  lemma FeePositive(tx: Transaction?, wallet: Wallet?, priority: FeePriority)
    ensures CalculateFee(tx, wallet, priority) > 0.0
    ensures FeeAtRate(DefaultSatPerByte) == 0.000025
  {
  }

  /** Fees rise strictly from economy to standard to fast. */
  lemma FeesIncrease(tx: Transaction?, wallet: Wallet?)
    ensures CalculateFee(tx, wallet, ECONOMIQUE) < CalculateFee(tx, wallet, STANDARD)
    ensures CalculateFee(tx, wallet, STANDARD) < CalculateFee(tx, wallet, RAPIDE)
  {
  }

  /** The fee depends on the tier alone. */
  lemma FeeIgnoresTxAndWallet(tx1: Transaction?, w1: Wallet?, tx2: Transaction?, w2: Wallet?, priority: FeePriority)
    ensures CalculateFee(tx1, w1, priority) == CalculateFee(tx2, w2, priority)
  {
  }
}
