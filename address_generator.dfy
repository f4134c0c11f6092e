/** util.AddressGenerator: addresses spelled from random draws over a fixed alphabet.
    The draws of SecureRandom.nextInt are parameters, constrained to their ranges. */
module AddressGenerator {
  import opened Wrappers
  import opened ValidationUtils

  const HEX: string := "0123456789abcdef"
  /** Base58: the digits and letters without '0', 'O', 'I' and 'l' (written in runs
      between the left-out characters; the string is the Java constant). */
  const BASE58: string :=
    "123456789" + "ABCDEFGH" + "JKLMN" + "PQRSTUVWXYZ" + "abcdefghijk" + "mnopqrstuvwxyz"

  /** Every draw is a valid index into an alphabet of n characters (nextInt(n)). */
  predicate DrawsBelow(draws: seq<nat>, n: nat)
  {
    forall i :: 0 <= i < |draws| ==> draws[i] < n
  }

  /** The characters the draws select, in order. */
  function Spell(alphabet: string, draws: seq<nat>): (s: string)
    requires DrawsBelow(draws, |alphabet|)
  {
    seq(|draws|, i requires 0 <= i < |draws| => alphabet[draws[i]])
  }

  /** None of the characters that Base58 leaves out. */
  predicate NoConfusable(s: string)
  {
    forall i :: 0 <= i < |s| ==> s[i] != '0' && s[i] != 'O' && s[i] != 'I' && s[i] != 'l'
  }

  lemma ConcatNoConfusable(a: string, b: string)
    requires NoConfusable(a) && NoConfusable(b)
    ensures NoConfusable(a + b)
  {
    forall i | 0 <= i < |a + b|
      ensures (a + b)[i] != '0' && (a + b)[i] != 'O' && (a + b)[i] != 'I' && (a + b)[i] != 'l'
    {
      if i < |a| { assert (a + b)[i] == a[i]; } else { assert (a + b)[i] == b[i - |a|]; }
    }
  }

  /** The alphabet has 58 characters, none of them confusable. */
  lemma Base58HasNoConfusable()
    ensures |BASE58| == 58 && NoConfusable(BASE58)
  {
    assert NoConfusable("123456789") && NoConfusable("ABCDEFGH") && NoConfusable("JKLMN");
    assert NoConfusable("PQRSTUVWXYZ") && NoConfusable("abcdefghijk") && NoConfusable("mnopqrstuvwxyz");
    ConcatNoConfusable("123456789", "ABCDEFGH");
    ConcatNoConfusable("123456789" + "ABCDEFGH", "JKLMN");
    ConcatNoConfusable("123456789" + "ABCDEFGH" + "JKLMN", "PQRSTUVWXYZ");
    ConcatNoConfusable("123456789" + "ABCDEFGH" + "JKLMN" + "PQRSTUVWXYZ", "abcdefghijk");
    ConcatNoConfusable("123456789" + "ABCDEFGH" + "JKLMN" + "PQRSTUVWXYZ" + "abcdefghijk", "mnopqrstuvwxyz");
  }

  /** The StringBuilder loop: appends one alphabet character per draw to a prefix. */
  method AppendDrawn(prefix: string, alphabet: string, draws: seq<nat>) returns (s: string)
    requires DrawsBelow(draws, |alphabet|)
    ensures |s| == |prefix| + |draws| && s[..|prefix|] == prefix
    ensures forall i :: 0 <= i < |draws| ==> s[|prefix| + i] == alphabet[draws[i]]
  {
    s := prefix;
    for i := 0 to |draws|
      invariant |s| == |prefix| + i && s[..|prefix|] == prefix
      invariant forall j :: 0 <= j < i ==> s[|prefix| + j] == alphabet[draws[j]]
    {
      s := s + [alphabet[draws[i]]];
    }
  }

  /** "0x" followed by forty lower-case hexadecimal digits; it passes the Ethereum check. */
  method GenerateEthereumAddress(draws: seq<nat>) returns (address: string)
    requires |draws| == 40 && DrawsBelow(draws, |HEX|)
    ensures address == "0x" + Spell(HEX, draws)
    ensures |address| == 42 && IsValidEthereumAddress(Some(address))
  {
    address := AppendDrawn("0x", HEX, draws);
    assert address == "0x" + Spell(HEX, draws);
    forall i | 2 <= i < 42 ensures IsHexDigit(address[i]) {
      assert address[i] == HEX[draws[i - 2]];
    }
  }

  /** The prefix of each address variant (nextInt(3)): "bc1" for 2, '1' for 0, '3' for 1. */
  function BitcoinPrefix(variant: nat): string
  {
    if variant == 2 then "bc1" else if variant == 0 then "1" else "3"
  }

  /** The number of Base58 draws each variant consumes. */
  function BitcoinBodyLength(variant: nat): nat
  {
    if variant == 2 then 30 else 33
  }

  /** A Bitcoin-like address of the drawn variant `variant` with Base58 draws `draws`:
      "bc1" and thirty characters for variant 2, otherwise '1' (variant 0) or '3' and
      thirty-three characters. It passes the Bitcoin check and contains none of '0', 'O',
      'I', 'l'. */
  method GenerateBitcoinAddress(variant: nat, draws: seq<nat>) returns (address: string)
    requires variant < 3
    requires |draws| == BitcoinBodyLength(variant) && DrawsBelow(draws, |BASE58|)
    ensures address == BitcoinPrefix(variant) + Spell(BASE58, draws)
    ensures variant == 2 ==> |address| == 33 && address[..3] == "bc1"
    ensures variant == 0 ==> |address| == 34 && address[0] == '1'
    ensures variant == 1 ==> |address| == 34 && address[0] == '3'
    ensures IsValidBitcoinAddress(Some(address))
    ensures NoConfusable(address)
  {
    var prefix := BitcoinPrefix(variant);
    address := AppendDrawn(prefix, BASE58, draws);
    assert address == prefix + Spell(BASE58, draws);
    assert address[..|prefix|] == prefix;
    Base58HasNoConfusable();
    forall i | 0 <= i < |address|
      ensures address[i] != '0' && address[i] != 'O' && address[i] != 'I' && address[i] != 'l'
    {
      if i >= |prefix| {
        assert address[i] == BASE58[draws[i - |prefix|]];
      } else {
        assert address[i] == prefix[i];
      }
    }
  }
}
