/** util.ValidationUtils: null-safe predicates on amounts and address strings. */
module ValidationUtils {
  import opened Wrappers

  /** `v != null && v > 0`. */
  predicate IsPositive(v: Option<real>)
  {
    v.Some? && v.value > 0.0
  }

  /** One character of the class [0-9a-fA-F]. */
  predicate IsHexDigit(c: char)
  {
    '0' <= c <= '9' || 'a' <= c <= 'f' || 'A' <= c <= 'F'
  }

  /** String.startsWith. */
  predicate StartsWith(s: string, prefix: string)
  {
    |prefix| <= |s| && s[..|prefix|] == prefix
  }

  /** The whole string matches 0x[0-9a-fA-F]{40}: a lower-case "0x" and exactly forty
      hexadecimal digits of either case. */
  predicate IsValidEthereumAddress(address: Option<string>)
  {
    address.Some? && |address.value| == 42 && address.value[..2] == "0x" &&
    forall i :: 2 <= i < 42 ==> IsHexDigit(address.value[i])
  }

  /** The string starts with "1", "3" or "bc1"; neither length nor alphabet is checked. */
  predicate IsValidBitcoinAddress(address: Option<string>)
  {
    address.Some? &&
    (StartsWith(address.value, "1") || StartsWith(address.value, "3") || StartsWith(address.value, "bc1"))
  }

  /** All three predicates reject null. */
  lemma NullRejected()
    ensures !IsPositive(None) && !IsValidEthereumAddress(None) && !IsValidBitcoinAddress(None)
  {
  }

  /** Zero is not positive. */
  lemma ZeroNotPositive()
    ensures !IsPositive(Some(0.0))
  {
  }

  /** An accepted Ethereum address has length 42 and begins with the characters '0' and 'x'. */
  lemma EthereumAddressShape(s: string)
    requires IsValidEthereumAddress(Some(s))
    ensures |s| == 42 && s[0] == '0' && s[1] == 'x'
  {
    assert s[..2][0] == s[0] && s[..2][1] == s[1];
  }

  /** The Bitcoin check is a bare prefix test: "1" alone passes, and so does anything after "bc1". */
  lemma BitcoinPrefixOnly(rest: string)
    ensures IsValidBitcoinAddress(Some("1"))
    ensures IsValidBitcoinAddress(Some("bc1" + rest))
  {
    assert ("bc1" + rest)[..3] == "bc1";
  }

  /** An accepted Bitcoin address begins with '1', '3' or 'b'. */
  lemma BitcoinAddressFirstChar(s: string)
    requires IsValidBitcoinAddress(Some(s))
    ensures |s| > 0 && (s[0] == '1' || s[0] == '3' || s[0] == 'b')
  {
    if StartsWith(s, "bc1") {
      assert s[..3][0] == s[0];
    } else {
      assert s[..1][0] == s[0];
    }
  }

  /** No string is accepted by both address checks: an Ethereum address starts with '0'. */
  lemma NoAddressIsBoth(a: Option<string>)
    ensures !(IsValidEthereumAddress(a) && IsValidBitcoinAddress(a))
  {
    if IsValidEthereumAddress(a) && IsValidBitcoinAddress(a) {
      EthereumAddressShape(a.value);
      BitcoinAddressFirstChar(a.value);
    }
  }
}
