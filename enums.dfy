/** The enumerations of package metier.enums, reconstructed from their uses. */
module Enums {

  /** The asset kind of a wallet. */
  datatype CryptoType = BITCOIN | ETHEREUM

  /** The three fee tiers, ordered economy < standard < fast. */
  datatype FeePriority = ECONOMIQUE | STANDARD | RAPIDE

  /** A transaction's lifecycle status. Only PENDING is used by the modelled code;
      every other status is kept abstract, identified by its name. */
  datatype TransactionStatus = PENDING | OtherStatus(name: string)
}
