/** metier.service.WalletService: validates raw user input, then delegates to the factory,
    the repositories and TransactionService. Every outcome is a success carrying data or a
    failure carrying the reason (ServiceResult); the human-readable messages are the
    ServiceError constructors. */
module WalletService {
  import opened Wrappers
  import opened Enums
  import opened Ids
  import opened TransactionModel
  import opened WalletModel
  import opened Repository
  import opened ValidationUtils
  import opened AddressGenerator
  import opened WalletFactory
  import opened FeeCalculatorFactory
  import TS = TransactionService

  datatype ServiceError =
    | WalletIdRequired
    | WalletNotFound
    | InvalidWalletType
    | InvalidAddress(kind: CryptoType)
    | InvalidAmount
    | AmountNotPositive
    | InvalidPriority
    | InsufficientFunds(balance: real, required: real)
    | NotImplemented

  /** WalletService.FeeComparison: one row of the (unimplemented) fee comparison. */
  datatype FeeComparison = FeeComparison(priority: FeePriority, fee: real, position: int, estimatedMinutes: int)

  // ---- String.trim ----

  /** Every character is at most U+0020, the set String.trim strips. */
  predicate IsBlank(s: string)
  {
    forall i :: 0 <= i < |s| ==> s[i] <= ' '
  }

  function TrimStart(s: string): (r: string)
    ensures r == [] <==> IsBlank(s)
    ensures r != [] ==> r[0] > ' '
    ensures |r| <= |s| && r == s[|s| - |r|..]
    ensures IsBlank(s[..|s| - |r|])
  {
    if s != [] && s[0] <= ' ' then TrimStart(s[1..]) else s
  }

  function TrimEnd(s: string): (r: string)
    ensures r == [] <==> IsBlank(s)
    ensures r != [] ==> r[|r| - 1] > ' '
    ensures |r| <= |s| && r == s[..|r|]
    ensures IsBlank(s[|r|..])
  {
    if s != [] && s[|s| - 1] <= ' ' then TrimEnd(s[..|s| - 1]) else s
  }

  /** `r` sits at offset `a` of `s` with only blanks before and after it. */
  predicate FramedByBlanks(s: string, r: string, a: int)
  {
    0 <= a <= |s| - |r| && r == s[a..a + |r|] && IsBlank(s[..a]) && IsBlank(s[a + |r|..])
  }

  /** A blank-prefixed suffix `t` of `s` whose own blank-suffixed prefix is `r`: then `r`
      is framed by blanks in `s`, at the offset where `t` starts. */
  lemma BlankFramedInfix(s: string, t: string, r: string)
    requires |t| <= |s| && t == s[|s| - |t|..] && IsBlank(s[..|s| - |t|])
    requires |r| <= |t| && r == t[..|r|] && IsBlank(t[|r|..])
    ensures FramedByBlanks(s, r, |s| - |t|)
  {
    var a := |s| - |t|;
    assert s[a + |r|..] == t[|r|..];
    assert r == s[a..a + |r|];
  }

  /** String.trim: empty exactly when the input is blank; otherwise its first and last
      characters are not blank; and it is the infix left once the leading and trailing
      blanks are removed. */
  function Trim(s: string): (r: string)
    ensures r == [] <==> IsBlank(s)
    ensures r != [] ==> r[0] > ' ' && r[|r| - 1] > ' '
    ensures |r| <= |s|
    ensures exists a :: FramedByBlanks(s, r, a)
  {
    var t := TrimStart(s);
    var r := TrimEnd(t);
    BlankFramedInfix(s, t, r);
    r
  }

  // ---- input parsing ----

  /** The menu code of a wallet kind. */
  function TypeCode(t: CryptoType): string
  {
    match t
    case BITCOIN => "1"
    case ETHEREUM => "2"
  }

  /** parseWalletType: "1" or "2" exactly, anything else (null included) is refused. */
  function ParseWalletType(typeInput: Option<string>): (r: Option<CryptoType>)
    ensures r.Some? ==> typeInput == Some(TypeCode(r.value))
  {
    if typeInput == Some("1") then Some(BITCOIN)
    else if typeInput == Some("2") then Some(ETHEREUM)
    else None
  }

  lemma ParseWalletTypeRoundTrip(t: CryptoType)
    ensures ParseWalletType(Some(TypeCode(t))) == Some(t)
  {
  }

  /** The menu code of a fee tier. */
  function PriorityCode(p: FeePriority): string
  {
    match p
    case ECONOMIQUE => "1"
    case STANDARD => "2"
    case RAPIDE => "3"
  }

  /** parsePriority: "1", "2" or "3" exactly, anything else is refused. */
  function ParsePriority(priorityInput: string): (r: Option<FeePriority>)
    ensures r.Some? ==> priorityInput == PriorityCode(r.value)
  {
    if priorityInput == "1" then Some(ECONOMIQUE)
    else if priorityInput == "2" then Some(STANDARD)
    else if priorityInput == "3" then Some(RAPIDE)
    else None
  }

  lemma ParsePriorityRoundTrip(p: FeePriority)
    ensures ParsePriority(PriorityCode(p)) == Some(p)
  {
  }

  /** isValidAddress: the check of the wallet's own kind. */
  function IsValidAddress(t: CryptoType, address: Option<string>): (b: bool)
    ensures t == ETHEREUM ==> (b <==> IsValidEthereumAddress(address))
    ensures t == BITCOIN ==> (b <==> IsValidBitcoinAddress(address))
  {
    match t
    case ETHEREUM => IsValidEthereumAddress(address)
    case BITCOIN => IsValidBitcoinAddress(address)
  }

  /** A destination is acceptable for at most one wallet kind. */
  lemma DestinationKindIsUnique(address: Option<string>)
    ensures !(IsValidAddress(BITCOIN, address) && IsValidAddress(ETHEREUM, address))
  {
    NoAddressIsBoth(address);
  }

  /** The inputs of createTransaction once every check has passed. */
  datatype Settlement = Settlement(wallet: Wallet, toAddress: string, amount: real, priority: FeePriority)

  /** What a settlement charges the wallet: the amount plus the fee of its kind and tier. */
  function Required(s: Settlement): real
  {
    s.amount + FeeFor(s.wallet.cryptoType, s.priority)
  }

  /** The transaction a settlement records, given the identifier it was minted with and the
      time it was created at: from the wallet, PENDING, carrying the fee. */
  function SettledRow(id: string, s: Settlement, now: int): TransactionRow
  {
    TransactionRow(id, s.wallet.address, s.toAddress, s.amount, s.priority,
                   Some(FeeFor(s.wallet.cryptoType, s.priority)), PENDING, now, s.wallet.id)
  }

  class WalletService {
    const walletRepository: WalletStore
    const transactionRepository: TransactionStore
    const transactionService: TS.TransactionService
    /** The UUID source shared by wallets and transactions. */
    const ids: IdSupply

    /** The TransactionService settles against this service's own wallet store. */
    predicate Valid()
    {
      transactionService.walletRepository == walletRepository && transactionService.ids == ids
    }

    constructor (walletRepository: WalletStore, transactionRepository: TransactionStore, ids: IdSupply)
      ensures this.walletRepository == walletRepository
      ensures this.transactionRepository == transactionRepository
      ensures this.ids == ids
      ensures fresh(transactionService) && Valid()
    {
      this.walletRepository := walletRepository;
      this.transactionRepository := transactionRepository;
      this.ids := ids;
      this.transactionService := new TS.TransactionService(walletRepository, ids);
    }

    /** createWallet: the kind is parsed first; a refused code creates and saves nothing.
        Otherwise a fresh wallet of that kind with a valid address is saved once. */
    method CreateWallet(typeInput: Option<string>, variant: nat, draws: seq<nat>, now: int)
      returns (r: Result<Wallet, ServiceError>)
      requires ParseWalletType(typeInput).Some? ==> AddressDrawsFit(ParseWalletType(typeInput).value, variant, draws)
      modifies walletRepository`saved, ids
      ensures ParseWalletType(typeInput).None? ==>
                r == Failure(InvalidWalletType) &&
                walletRepository.saved == old(walletRepository.saved) && ids.issued == old(ids.issued)
      ensures ParseWalletType(typeInput).Some? ==>
                r.Success? && fresh(r.value) && r.value.id !in old(ids.issued) &&
                r.value.cryptoType == ParseWalletType(typeInput).value &&
                r.value.balance == 0.0 && r.value.transactions == [] &&
                IsValidAddress(r.value.cryptoType, Some(r.value.address)) &&
                walletRepository.saved == old(walletRepository.saved) + [RowOfWallet(r.value)]
    {
      var parsed := ParseWalletType(typeInput);
      if parsed.None? {
        return Failure(InvalidWalletType);
      }
      var wallet := WalletFactory.CreateWallet(parsed.value, variant, draws, ids, now);
      walletRepository.Save(wallet);
      return Success(wallet);
    }

    /** What findWallet answers: a missing or blank id is refused before the store is
        asked, and the store is asked with the trimmed id. */
    ghost function WalletLookup(walletId: Option<string>): Result<Wallet, ServiceError>
      reads walletRepository
    {
      if walletId.None? || IsBlank(walletId.value) then Failure(WalletIdRequired)
      else if Trim(walletId.value) in walletRepository.byId then Success(walletRepository.byId[Trim(walletId.value)])
      else Failure(WalletNotFound)
    }

    /** The wallet a lookup by this id finds, if any: the only wallet that addFunds and
        createTransaction may change. */
    ghost function WalletNamed(walletId: Option<string>): set<Wallet>
      reads walletRepository
    {
      if WalletLookup(walletId).Success? then {WalletLookup(walletId).value} else {}
    }

    method FindWallet(walletId: Option<string>) returns (r: Result<Wallet, ServiceError>)
      ensures r == WalletLookup(walletId)
      ensures r.Success? ==> r.value in walletRepository.byId.Values
    {
      if walletId.None? || Trim(walletId.value) == "" {
        return Failure(WalletIdRequired);
      }
      var found := walletRepository.FindById(Trim(walletId.value));
      if found.Some? {
        return Success(found.value);
      }
      return Failure(WalletNotFound);
    }

    /** The checks of addFunds, in order: the wallet lookup, then the amount must parse,
        then it must be strictly positive. */
    ghost function FundsCheck(walletId: Option<string>, amountInput: Option<real>): Result<Wallet, ServiceError>
      reads walletRepository
    {
      match WalletLookup(walletId)
      case Failure(e) => Failure(e)
      case Success(w) =>
        if amountInput.None? then Failure(InvalidAmount)
        else if !IsPositive(amountInput) then Failure(AmountNotPositive)
        else Success(w)
    }

    /** addFunds: a refused check changes no wallet and saves nothing; otherwise the
        looked-up wallet alone is credited with the amount and saved once. */
    method AddFunds(walletId: Option<string>, amountInput: Option<real>) returns (r: Result<Wallet, ServiceError>)
      requires Valid()
      modifies WalletNamed(walletId)`balance, walletRepository`saved
      ensures r == old(FundsCheck(walletId, amountInput))
      ensures r.Failure? ==> walletRepository.saved == old(walletRepository.saved)
      ensures r.Success? ==>
                amountInput.Some? && r.value.balance == old(r.value.balance) + amountInput.value &&
                walletRepository.saved == old(walletRepository.saved) + [RowOfWallet(r.value)]
      ensures r.Failure? ==> unchanged(WalletNamed(walletId))
    {
      var walletResult := FindWallet(walletId);
      if walletResult.Failure? {
        return walletResult;
      }
      if amountInput.None? {
        return Failure(InvalidAmount);
      }
      if !IsPositive(amountInput) {
        return Failure(AmountNotPositive);
      }
      var wallet := walletResult.value;
      transactionService.AddFunds(wallet, amountInput.value);
      r := Success(wallet);
    }

    /** The checks of createTransaction, in the order the service runs them: wallet,
        destination for the wallet's kind, amount parses, amount positive, priority code. */
    ghost function Precheck(walletId: Option<string>, toAddress: Option<string>, amountInput: Option<real>,
                            priorityInput: string): Result<Settlement, ServiceError>
      reads walletRepository
    {
      match WalletLookup(walletId)
      case Failure(e) => Failure(e)
      case Success(w) =>
        if !IsValidAddress(w.cryptoType, toAddress) then Failure(InvalidAddress(w.cryptoType))
        else if amountInput.None? then Failure(InvalidAmount)
        else if !IsPositive(amountInput) then Failure(AmountNotPositive)
        else match ParsePriority(priorityInput)
          case None => Failure(InvalidPriority)
          case Some(p) => Success(Settlement(w, toAddress.value, amountInput.value, p))
    }

    /** The validation half of createTransaction: runs the checks in order and stops at
        the first refusal. It changes nothing. */
    method Validate(walletId: Option<string>, toAddress: Option<string>, amountInput: Option<real>,
                    priorityInput: string)
      returns (pc: Result<Settlement, ServiceError>)
      ensures pc == Precheck(walletId, toAddress, amountInput, priorityInput)
      ensures pc.Success? ==> pc.value.wallet in walletRepository.byId.Values && pc.value.amount > 0.0
    {
      var walletResult := FindWallet(walletId);
      if walletResult.Failure? {
        return Failure(walletResult.error);
      }
      var wallet := walletResult.value;
      if !IsValidAddress(wallet.cryptoType, toAddress) {
        return Failure(InvalidAddress(wallet.cryptoType));
      }
      if amountInput.None? {
        return Failure(InvalidAmount);
      }
      if !IsPositive(amountInput) {
        return Failure(AmountNotPositive);
      }
      var priority := ParsePriority(priorityInput);
      if priority.None? {
        return Failure(InvalidPriority);
      }
      return Success(Settlement(wallet, toAddress.value, amountInput.value, priority.value));
    }

    /** The settlement half of createTransaction, once the checks have passed: a balance
        below what the settlement requires changes no wallet and saves nothing; otherwise
        the wallet pays it and is saved once, and a fresh transaction recording the
        settlement is saved once. */
    method Settle(s: Settlement, now: int) returns (r: Result<Transaction, ServiceError>)
      requires Valid()
      modifies s.wallet`balance, walletRepository`saved, transactionRepository, ids
      ensures old(s.wallet.balance) < Required(s) ==>
                r == Failure(InsufficientFunds(old(s.wallet.balance), Required(s))) &&
                s.wallet.balance == old(s.wallet.balance) &&
                walletRepository.saved == old(walletRepository.saved) &&
                transactionRepository.saved == old(transactionRepository.saved)
      ensures old(s.wallet.balance) >= Required(s) ==>
                r.Success? && fresh(r.value) && r.value.id !in old(ids.issued) &&
                RowOfTransaction(r.value) == SettledRow(r.value.id, s, now) &&
                s.wallet.balance == old(s.wallet.balance) - Required(s) &&
                walletRepository.saved == old(walletRepository.saved) + [RowOfWallet(s.wallet)] &&
                transactionRepository.saved == old(transactionRepository.saved) + [SettledRow(r.value.id, s, now)]
    {
      var result := transactionService.CreateTransaction(s.wallet, s.toAddress, s.amount, s.priority, now);
      if result.Failure? {
        return Failure(InsufficientFunds(result.error.balance, result.error.required));
      }
      var transaction := result.value;
      transactionRepository.Save(transaction);
      return Success(transaction);
    }

    /** createTransaction: a refused check changes no wallet and saves nothing; once every
        check has passed, the outcome is that of Settle on the checked inputs. No wallet
        other than the one charged changes. */
    method CreateTransaction(walletId: Option<string>, toAddress: Option<string>, amountInput: Option<real>,
                             priorityInput: string, now: int)
      returns (r: Result<Transaction, ServiceError>)
      requires Valid()
      modifies WalletNamed(walletId)`balance, walletRepository`saved, transactionRepository, ids
      ensures var pc := old(Precheck(walletId, toAddress, amountInput, priorityInput));
              pc.Failure? ==>
                r == Failure(pc.error) && unchanged(walletRepository.byId.Values) &&
                walletRepository.saved == old(walletRepository.saved) &&
                transactionRepository.saved == old(transactionRepository.saved) &&
                ids.issued == old(ids.issued)
      ensures var pc := old(Precheck(walletId, toAddress, amountInput, priorityInput));
              pc.Success? && old(pc.value.wallet.balance) < Required(pc.value) ==>
                r == Failure(InsufficientFunds(old(pc.value.wallet.balance), Required(pc.value))) &&
                pc.value.wallet.balance == old(pc.value.wallet.balance) &&
                walletRepository.saved == old(walletRepository.saved) &&
                transactionRepository.saved == old(transactionRepository.saved)
      ensures var pc := old(Precheck(walletId, toAddress, amountInput, priorityInput));
              pc.Success? && old(pc.value.wallet.balance) >= Required(pc.value) ==>
                r.Success? && fresh(r.value) && r.value.id !in old(ids.issued) &&
                RowOfTransaction(r.value) == SettledRow(r.value.id, pc.value, now) &&
                pc.value.wallet.balance == old(pc.value.wallet.balance) - Required(pc.value) &&
                walletRepository.saved == old(walletRepository.saved) + [RowOfWallet(pc.value.wallet)] &&
                transactionRepository.saved == old(transactionRepository.saved) + [SettledRow(r.value.id, pc.value, now)]
    {
      var pc := Validate(walletId, toAddress, amountInput, priorityInput);
      if pc.Failure? {
        return Failure(pc.error);
      }
      r := Settle(pc.value, now);
    }

    /** compareFees: only the wallet lookup is implemented; past it the call always fails. */
    method CompareFees(walletId: Option<string>, toAddress: Option<string>, amountInput: Option<real>)
      returns (r: Result<seq<FeeComparison>, ServiceError>)
      ensures r.Failure?
      ensures WalletLookup(walletId).Failure? ==> r.error == WalletLookup(walletId).error
      ensures WalletLookup(walletId).Success? ==> r.error == NotImplemented
    {
      var walletResult := FindWallet(walletId);
      if walletResult.Failure? {
        return Failure(walletResult.error);
      }
      return Failure(NotImplemented);
    }
  }
}
