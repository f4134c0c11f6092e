/** metier.service.EthereumFeeCalculator: 21000 gas at a tiered gas price in gwei. */
module EthereumFee {
  import opened Enums
  import opened TransactionModel
  import opened WalletModel

  /** The gas limit of a plain transfer. */
  const GasLimit: int := 21_000
  /** One gwei in ether. */
  const EtherPerGwei: real := 0.000000001
  /** The gas price of the switch's default branch, which no FeePriority value reaches. */
  const DefaultGasPriceGwei: int := 10

  /** The tier's gas price in gwei. */
  function GasPriceGwei(priority: FeePriority): (price: int)
    ensures 5 <= price <= 60
  {
    match priority
    case ECONOMIQUE => 5
    case STANDARD => 20
    case RAPIDE => 60
  }

  /** The fee in ether for a gas price: gas times (price times 10^-9), exact. */
  function FeeAtGasPrice(gasPriceGwei: int): (fee: real)
    ensures gasPriceGwei > 0 ==> fee > 0.0
  {
    GasLimit as real * (gasPriceGwei as real * EtherPerGwei)
  }

  /** The fee for a tier; the transaction and the wallet are not consulted. */
  function CalculateFee(tx: Transaction?, wallet: Wallet?, priority: FeePriority): (fee: real)
    ensures priority == ECONOMIQUE ==> fee == 0.000105
    ensures priority == STANDARD ==> fee == 0.00042
    ensures priority == RAPIDE ==> fee == 0.00126
  {
    FeeAtGasPrice(GasPriceGwei(priority))
  }

  /** Every fee, the default branch's included, is strictly positive. */
  lemma FeePositive(tx: Transaction?, wallet: Wallet?, priority: FeePriority)
    ensures CalculateFee(tx, wallet, priority) > 0.0
    ensures FeeAtGasPrice(DefaultGasPriceGwei) == 0.00021
  {
  }

  /** Fees rise strictly from economy to standard to fast. */
  lemma FeesIncrease(tx: Transaction?, wallet: Wallet?)
    ensures CalculateFee(tx, wallet, ECONOMIQUE) < CalculateFee(tx, wallet, STANDARD)
    ensures CalculateFee(tx, wallet, STANDARD) < CalculateFee(tx, wallet, RAPIDE)
  {
  }

  /** The fee depends on the tier alone. */
  lemma FeeIgnoresTxAndWallet(tx1: Transaction?, w1: Wallet?, tx2: Transaction?, w2: Wallet?, priority: FeePriority)
    ensures CalculateFee(tx1, w1, priority) == CalculateFee(tx2, w2, priority)
  {
  }
}
