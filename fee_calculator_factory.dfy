/** metier.service.FeeCalculatorFactory and the FeeCalculator interface: a stateless
    calculator per asset kind, chosen by a switch on the kind. */
module FeeCalculatorFactory {
  import opened Enums
  import opened TransactionModel
  import opened WalletModel
  import BitcoinFee
  import EthereumFee

  /** The two stateless calculators. */
  datatype FeeCalculator = BitcoinFeeCalculator | EthereumFeeCalculator
  {
    function CalculateFee(tx: Transaction?, wallet: Wallet?, priority: FeePriority): (fee: real)
      ensures fee > 0.0
    {
      match this
      case BitcoinFeeCalculator => BitcoinFee.CalculateFee(tx, wallet, priority)
      case EthereumFeeCalculator => EthereumFee.CalculateFee(tx, wallet, priority)
    }
  }

  /** The calculator for an asset kind. */
  function ForType(t: CryptoType): (c: FeeCalculator)
    ensures t == BITCOIN <==> c == BitcoinFeeCalculator
    ensures t == ETHEREUM <==> c == EthereumFeeCalculator
  {
    match t
    case BITCOIN => BitcoinFeeCalculator
    case ETHEREUM => EthereumFeeCalculator
  }

  /** The fee schedule as a table of (kind, tier): what the factory's calculator returns,
      with no transaction and no wallet supplied. */
  function FeeFor(t: CryptoType, priority: FeePriority): (fee: real)
    ensures fee > 0.0
  {
    ForType(t).CalculateFee(null, null, priority)
  }

  /** The factory's calculators reproduce the published fee table exactly. */
  lemma FeeTable(t: CryptoType, priority: FeePriority)
    ensures FeeFor(t, priority) ==
      match (t, priority)
      case (BITCOIN, ECONOMIQUE) => 0.0000125
      case (BITCOIN, STANDARD) => 0.00005
      case (BITCOIN, RAPIDE) => 0.00015
      case (ETHEREUM, ECONOMIQUE) => 0.000105
      case (ETHEREUM, STANDARD) => 0.00042
      case (ETHEREUM, RAPIDE) => 0.00126
  {
  }

  /** Because the calculators hold no state, a fee is a function of (kind, tier) alone:
      whatever transaction and wallet are passed, the result is the table entry. */
  lemma FeeDependsOnKindAndTierOnly(t: CryptoType, tx: Transaction?, wallet: Wallet?, priority: FeePriority)
    ensures ForType(t).CalculateFee(tx, wallet, priority) == FeeFor(t, priority)
  {
  }

  /** Fees are strictly positive and strictly increasing with the tier, for both kinds. */
  lemma FeeScheduleIncreasing(t: CryptoType)
    ensures 0.0 < FeeFor(t, ECONOMIQUE) < FeeFor(t, STANDARD) < FeeFor(t, RAPIDE)
  {
  }
}
