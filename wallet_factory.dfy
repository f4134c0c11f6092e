/** metier.service.WalletFactory: a new wallet of the requested kind with a generated address. */
module WalletFactory {
  import opened Wrappers
  import opened Enums
  import opened Ids
  import opened WalletModel
  import opened ValidationUtils
  import opened AddressGenerator

  /** The random draws an address of kind `t` consumes: for Bitcoin, nextInt(3) for the
      variant and one nextInt(58) per character; for Ethereum, forty nextInt(16). */
  predicate AddressDrawsFit(t: CryptoType, variant: nat, draws: seq<nat>)
  {
    match t
    case BITCOIN => variant < 3 && |draws| == BitcoinBodyLength(variant) && DrawsBelow(draws, |BASE58|)
    case ETHEREUM => |draws| == 40 && DrawsBelow(draws, |HEX|)
  }

  /** A fresh wallet of kind `t`: zero balance, no transactions, and an address from the
      generator for that kind, which passes that kind's address check. */
  method CreateWallet(t: CryptoType, variant: nat, draws: seq<nat>, ids: IdSupply, now: int) returns (w: Wallet)
    requires AddressDrawsFit(t, variant, draws)
    modifies ids
    ensures fresh(w) && w.id !in old(ids.issued) && ids.issued == old(ids.issued) + {w.id}
    ensures w.cryptoType == t && w.balance == 0.0 && w.transactions == [] && w.createdAt == now
    ensures t == BITCOIN ==> w.address == BitcoinPrefix(variant) + Spell(BASE58, draws)
    ensures t == ETHEREUM ==> w.address == "0x" + Spell(HEX, draws)
    ensures t == BITCOIN ==> IsValidBitcoinAddress(Some(w.address))
    ensures t == ETHEREUM ==> IsValidEthereumAddress(Some(w.address))
  {
    match t
    case BITCOIN =>
      var address := GenerateBitcoinAddress(variant, draws);
      w := new Wallet(BITCOIN, address, ids, now);
    case ETHEREUM =>
      var address := GenerateEthereumAddress(draws);
      w := new Wallet(ETHEREUM, address, ids, now);
  }
}
