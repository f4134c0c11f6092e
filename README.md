# cryptoWalletSimulator: settlement and mempool engine in Dafny

This project models the core of a small Java wallet simulator and proves properties of the model. The core has five parts:

- **Fee schedule.** A flat fee per asset kind and priority tier. Bitcoin charges 250 bytes at 5, 20 or 60 sat/byte. Ethereum charges 21000 gas at 5, 20 or 60 gwei. A factory picks the calculator from the wallet's crypto type.
- **Balance settlement.** `TransactionService` charges amount plus fee against a wallet's balance, refuses when the balance is short, and saves the wallet once on success. `addFunds` credits a wallet.
- **Request validation.** `WalletService` turns raw user input into calls, checking in a fixed order: wallet lookup, destination address for the wallet's kind, amount parse, amount positive, priority code. Then it settles and saves the transaction.
- **In-memory mempool.** `MempoolService` keeps a list of pending transactions. It offers a stable fee-descending view of those whose fee is set, 1-based positions (or -1), what-if positions for a hypothetical fee, a wait estimate of ten minutes per position, and a generator of synthetic pools.
- **Addresses.** Validators for Ethereum (`0x` plus 40 hexadecimal digits) and Bitcoin (a `1`, `3` or `bc1` prefix), and generators that spell addresses from random draws.

Mapping of the Java to Dafny:

- `BigDecimal` becomes `real`. Add, subtract, multiply and the terminating divide are exact in Java, and `compareTo` ignores scale, so `real` is faithful.
- A possibly-null value becomes `Option`. A call that can fail returns `Result`.
- `Wallet`, `Transaction`, `MempoolService`, `TransactionService`, `WalletService` and the two stores are classes. Final Java fields are `const`, except the two final lists `Wallet.transactions` and `MempoolService.pending`: they are changed in place, so they are `var` seq fields. Mutable fields are `var` too. Every `var` is changed only by methods whose `modifies` names it.
- The two subclasses `BitcoinWallet` and `EthereumWallet` only fix the type tag, so they are the `cryptoType` field of the one `Wallet` class.
- `UUID.randomUUID()` is `Ids.IdSupply.Mint`: each draw is a string not issued before, and nothing else about it is fixed. `Instant.now()` is a `now` parameter.
- Draws from `Random`/`SecureRandom` are parameters (sequences of indices) whose ranges are stated as preconditions.
- The two repositories are an abstract store. `WalletStore.byId` answers `findById`. Each `save` appends a snapshot row of the saved object to a `saved` log. Nothing is claimed about how a later lookup reflects a save.
- The mempool view is a sequence of `Entry(tx, fee)`: the sorted Java list together with the fee each entry was sorted by. `Stream.sorted` is stable, so the sort is a stable insertion sort. Its properties are proved once (`FeeRanking.SortFacts`) and then used for the service's queries.

Behaviour the code has that a reader might not expect, all modelled as the code does it:

- `generateRandomPending` clears the whole pool first, so user transactions are dropped (`MempoolService.MempoolService.GenerateRandomPending`, last ensures).
- A found transaction's position is not always one more than the number of strictly higher fees. Equal fees keep insertion order, so a later entry with a tied fee ranks lower (`FeeRanking.TieExample`).
- `TransactionService.createTransaction` checks neither the amount's sign nor the address. `WalletService` checks both before calling it. `TransactionService.addFunds` credits any amount, negative included.
- `WalletService.createTransaction` saves the transaction but does not add it to the mempool.
- The constructor of `Transaction` mints an id each time it runs. `createTransaction` builds a throw-away `tempTx` before the funds check, so an id is used up even when the transfer is refused.

## Model

| member | source | states |
|---|---|---|
| Ids.IdSupply.Mint | src/metier/model/Transaction.java:23 | each minted id is new, and it is the one id added to the issued set |
| TransactionModel.Transaction.constructor | src/metier/model/Transaction.java:22-31 | a fresh id; from, to, amount, tier and wallet id as given; createdAt is the clock reading; the fee is unset; the status is PENDING |
| TransactionModel.Transaction.SetFeeAmount | src/metier/model/Transaction.java:43 | replaces the fee only; the status is kept |
| TransactionModel.Transaction.SetStatus | src/metier/model/Transaction.java:44 | replaces the status, from any status, and keeps the fee |
| WalletModel.Wallet.constructor | src/metier/model/Wallet.java:20-27 | a fresh id, the kind and address as given, balance zero, no transactions |
| WalletModel.Wallet.Restore | src/metier/model/Wallet.java:30-37 | id, kind, address, balance and createdAt stored exactly as given, no transactions |
| WalletModel.Wallet.SetBalance | src/metier/model/Wallet.java:46 | sets the balance to any value, negative included, and keeps the transaction list |
| WalletModel.Wallet.AddTransaction | src/metier/model/Wallet.java:48 | appends at the end, keeping earlier entries and the balance |
| BitcoinFee.SatPerByte | src/metier/service/BitcoinFeeCalculator.java:16-21 | the tier's rate is one of the switch's values, between 5 and 60 sat/byte |
| BitcoinFee.FeeAtRate | src/metier/service/BitcoinFeeCalculator.java:14-24 | 250 bytes times a positive rate, divided by 10^8, is a positive fee |
| BitcoinFee.CalculateFee | src/metier/service/BitcoinFeeCalculator.java:16-24 | the fee is 0.0000125, 0.00005 or 0.00015 for the three tiers |
| BitcoinFee.FeePositive | src/metier/service/BitcoinFeeCalculator.java:16-24 | every tier's fee is positive; the default rate of 10 gives 0.000025 |
| BitcoinFee.FeesIncrease | src/metier/service/BitcoinFeeCalculator.java:17-19 | fees rise strictly from economy to standard to fast |
| BitcoinFee.FeeIgnoresTxAndWallet | src/metier/service/BitcoinFeeCalculator.java:13-25 | the fee does not depend on the transaction or wallet argument |
| EthereumFee.GasPriceGwei | src/metier/service/EthereumFeeCalculator.java:18-23 | the tier's gas price is one of the switch's values, between 5 and 60 gwei |
| EthereumFee.FeeAtGasPrice | src/metier/service/EthereumFeeCalculator.java:16-27 | 21000 gas at a positive gwei price is a positive fee |
| EthereumFee.CalculateFee | src/metier/service/EthereumFeeCalculator.java:18-27 | the fee is 0.000105, 0.00042 or 0.00126 for the three tiers |
| EthereumFee.FeePositive | src/metier/service/EthereumFeeCalculator.java:18-27 | every tier's fee is positive; the default price of 10 gives 0.00021 |
| EthereumFee.FeesIncrease | src/metier/service/EthereumFeeCalculator.java:19-21 | fees rise strictly from economy to standard to fast |
| EthereumFee.FeeIgnoresTxAndWallet | src/metier/service/EthereumFeeCalculator.java:15-28 | the fee does not depend on the transaction or wallet argument |
| FeeCalculatorFactory.FeeCalculator.CalculateFee | src/metier/service/FeeCalculator.java:12-14 | the interface call dispatches to the chosen calculator, and every fee either calculator returns is positive |
| FeeCalculatorFactory.FeeFor | src/metier/service/FeeCalculatorFactory.java:12-21 | the fee of the factory's calculator for a (kind, tier) pair is positive; its values are the table of FeeTable |
| FeeCalculatorFactory.ForType | src/metier/service/FeeCalculatorFactory.java:12-21 | BITCOIN gives the Bitcoin calculator and ETHEREUM the Ethereum one, each in both directions |
| FeeCalculatorFactory.FeeTable | src/metier/service/FeeCalculatorFactory.java:12-21 | the factory's calculators give the six table fees for (kind, tier) |
| FeeCalculatorFactory.FeeDependsOnKindAndTierOnly | src/metier/service/FeeCalculatorFactory.java:12-21 | the calculators hold no state, so any transaction and wallet give the same fee |
| FeeCalculatorFactory.FeeScheduleIncreasing | src/metier/service/FeeCalculatorFactory.java:12-21 | for both kinds, fees are positive and strictly increasing with the tier |
| ValidationUtils.IsPositive | src/util/ValidationUtils.java:10-12 | the definition: non-null and strictly above zero; its properties are NullRejected and ZeroNotPositive |
| ValidationUtils.IsValidEthereumAddress | src/util/ValidationUtils.java:14-16 | the definition: the whole string is a lower-case "0x" and forty hexadecimal digits of either case; its properties are NullRejected, EthereumAddressShape and NoAddressIsBoth |
| ValidationUtils.IsValidBitcoinAddress | src/util/ValidationUtils.java:18-20 | the definition: non-null and starting with "1", "3" or "bc1"; its properties are NullRejected, BitcoinPrefixOnly, BitcoinAddressFirstChar and NoAddressIsBoth |
| ValidationUtils.NullRejected | src/util/ValidationUtils.java:10-20 | all three predicates reject null |
| ValidationUtils.ZeroNotPositive | src/util/ValidationUtils.java:10-12 | zero is not positive |
| ValidationUtils.EthereumAddressShape | src/util/ValidationUtils.java:14-16 | an accepted Ethereum address has length 42 and starts with "0x" |
| ValidationUtils.BitcoinPrefixOnly | src/util/ValidationUtils.java:18-20 | the Bitcoin check is a bare prefix test: "1" alone passes, and so does anything after "bc1" |
| ValidationUtils.BitcoinAddressFirstChar | src/util/ValidationUtils.java:18-20 | an accepted Bitcoin address starts with '1', '3' or 'b' |
| ValidationUtils.NoAddressIsBoth | src/util/ValidationUtils.java:14-20 | no string passes both address checks |
| AddressGenerator.ConcatNoConfusable | src/util/AddressGenerator.java:8 | joining two strings free of '0', 'O', 'I', 'l' gives such a string |
| AddressGenerator.Base58HasNoConfusable | src/util/AddressGenerator.java:8 | the Base58 alphabet has 58 characters and none of '0', 'O', 'I', 'l' |
| AddressGenerator.AppendDrawn | src/util/AddressGenerator.java:14-18 | the StringBuilder loop keeps the prefix and appends one alphabet character per draw, in order |
| AddressGenerator.GenerateEthereumAddress | src/util/AddressGenerator.java:13-19 | "0x" and the forty drawn hexadecimal digits, length 42, accepted by the Ethereum check |
| AddressGenerator.GenerateBitcoinAddress | src/util/AddressGenerator.java:21-38 | variant 2 gives "bc1" and 30 drawn characters (length 33); variants 0 and 1 give '1' or '3' and 33 (length 34); accepted by the Bitcoin check; free of '0', 'O', 'I', 'l' |
| WalletFactory.CreateWallet | src/metier/service/WalletFactory.java:16-25 | a fresh wallet of the requested kind with zero balance and no transactions, its address from that kind's generator, accepted by that kind's check |
| Repository.WalletStore.constructor | src/repository/WalletRepository.java:9-15 | the lookup map as given, no saves yet |
| Repository.WalletStore.FindById | src/repository/WalletRepository.java:11 | finds a wallet exactly when the id is a key, and then it is the stored wallet |
| Repository.WalletStore.Save | src/repository/WalletRepository.java:10 | records one row holding the wallet's fields at the time of the call |
| Repository.TransactionStore.constructor | src/repository/TransactionRepository.java:9-15 | the save log starts empty |
| Repository.TransactionStore.Save | src/repository/TransactionRepository.java:10 | records one row holding the transaction's fields at the time of the call |
| FeeRanking.Insert | src/metier/service/MempoolService.java:33 | the definition of one step of the stable sort: the entry goes behind every entry of equal or higher fee; its properties are InsertMultiset, InsertDescending, InsertWithFee and InsertCountAbove |
| FeeRanking.SortByFeeDesc | src/metier/service/MempoolService.java:33 | the definition of the stable descending sort as repeated insertion; its properties are SortFacts, SortedAdjacent and TiesKeepInsertionOrder |
| FeeRanking.CountAbove | src/metier/service/MempoolService.java:54-58 | the count of strictly higher fees is at most the length |
| FeeRanking.PositionOf | src/metier/service/MempoolService.java:39-44 | -1 exactly when no entry has the id; otherwise a 1-based index in range whose entry has the id and before which none does |
| FeeRanking.FirstMatchIsPosition | src/metier/service/MempoolService.java:39-42 | the first index holding the id, plus one, is the position |
| FeeRanking.HypotheticalPosition | src/metier/service/MempoolService.java:51-60 | the what-if position lies in 1..length+1 |
| FeeRanking.WithFeeConcat | src/metier/service/MempoolService.java:33 | the entries of one fee from a concatenation are those of each part, in order |
| FeeRanking.WithFeeEmpty | src/metier/service/MempoolService.java:33 | a sequence without that fee has no entries of that fee |
| FeeRanking.CountAboveConcat | src/metier/service/MempoolService.java:54-58 | the count over a concatenation is the sum of the counts |
| FeeRanking.CountAboveAll | src/metier/service/MempoolService.java:54-58 | when every fee is higher, the count is the length |
| FeeRanking.CountAboveNone | src/metier/service/MempoolService.java:54-58 | when no fee is higher, the count is zero |
| FeeRanking.InsertMultiset | src/metier/service/MempoolService.java:33 | inserting adds exactly the one entry |
| FeeRanking.InsertMembers | src/metier/service/MempoolService.java:33 | every entry after insertion is the new one or an old one |
| FeeRanking.InsertDescending | src/metier/service/MempoolService.java:33 | inserting into a fee-descending sequence keeps it fee-descending |
| FeeRanking.DescendingTail | src/metier/service/MempoolService.java:33 | the tail of a fee-descending sequence is fee-descending |
| FeeRanking.WithFeeCons | src/metier/service/MempoolService.java:33 | the entries of one fee in a sequence are its head, when the head has that fee, followed by those of its tail |
| FeeRanking.WithFeeSameHead | src/metier/service/MempoolService.java:33 | putting the same entry in front of two sequences keeps how their entries of one fee differ |
| FeeRanking.NoneAboveHead | src/metier/service/MempoolService.java:33 | in a fee-descending sequence headed by fee f, nothing has a fee above f |
| FeeRanking.InsertWithFee | src/metier/service/MempoolService.java:31-34 | inserting after every entry of equal or higher fee puts the new entry last among its equals, so order within each fee is kept |
| FeeRanking.InsertCountAbove | src/metier/service/MempoolService.java:33 | inserting changes the count of higher fees only by the new entry itself |
| FeeRanking.SortFacts | src/metier/service/MempoolService.java:31-34 | the sort gives a fee-descending permutation of its input that keeps the input order within each fee and keeps every count of higher fees |
| FeeRanking.SortedAdjacent | src/metier/service/MempoolService.java:33 | adjacent sorted entries are in non-increasing fee order |
| FeeRanking.TiesKeepInsertionOrder | src/metier/service/MempoolService.java:31-34 | the sorted entries of each fee appear in input order |
| FeeRanking.HypotheticalMonotone | src/metier/service/MempoolService.java:51-60 | a higher hypothetical fee never gives a later position |
| FeeRanking.CountAboveOnlyBefore | src/metier/service/MempoolService.java:37-60 | in a fee-descending sequence only entries before index k can outbid entry k |
| FeeRanking.RankVersusCount | src/metier/service/MempoolService.java:37-60 | entry k is outbid by at most k entries, and by exactly k when its fee is unshared |
| FeeRanking.ShareFreeRank | src/metier/service/MempoolService.java:37-60 | in a fee-descending sequence, entry k is outbid by exactly k entries when no earlier entry has its fee |
| FeeRanking.PositionVersusHypothetical | src/metier/service/MempoolService.java:37-60 | a found position is at least the what-if position of its own fee, equal when no other entry shares that fee |
| FeeRanking.ThreeFeeExample | src/metier/service/MempoolService.java:30-60 | fees 0.3, 0.1, 0.2 sort to 0.3, 0.2, 0.1, and a fee of 0.25 would rank second |
| FeeRanking.TieExample | src/metier/service/MempoolService.java:37-60 | of two entries with the same fee the later ranks second, while the what-if position of that fee is first |
| MempoolService.FeeView | src/metier/service/MempoolService.java:31-32 | the filter keeps only pending transactions with a set fee, each paired with that fee |
| MempoolService.FeeViewCount | src/metier/service/MempoolService.java:31-32 | each pending transaction with a set fee appears in the view exactly as often as in the list |
| MempoolService.SyntheticFee | src/metier/service/MempoolService.java:73 | a fee of 1..90 units of 10^-7 lies between 0.0000001 and 0.000009 |
| MempoolService.AnonymAddr | src/metier/service/MempoolService.java:79-84 | "0x" and the eight drawn hexadecimal digits, length 10 |
| MempoolService.SyntheticTransaction | src/metier/service/MempoolService.java:72-74 | a fresh transaction with anonymous addresses, amount 0.01, STANDARD, PENDING, the drawn fee, and a new id |
| MempoolService.MempoolService.constructor | src/metier/service/MempoolService.java:22-24 | the pool starts empty |
| MempoolService.MempoolService.AddTransaction | src/metier/service/MempoolService.java:26-28 | appends at the end and changes nothing else |
| MempoolService.MempoolService.GetPendingSortedByFeeDesc | src/metier/service/MempoolService.java:30-35 | fee-descending; a permutation of exactly the pending transactions with a set fee; ties in list order; each entry pending with its own fee |
| MempoolService.MempoolService.ComputePosition | src/metier/service/MempoolService.java:37-45 | the 1-based index of the first sorted entry with the id, or -1; the pool is not changed |
| MempoolService.MempoolService.ComputeHypotheticalPosition | src/metier/service/MempoolService.java:51-60 | one more than the number of pending transactions whose set fee is strictly higher; the pool is not changed |
| MempoolService.MempoolService.EstimateConfirmationTime | src/metier/service/MempoolService.java:62-66 | zero minutes when not found, ten per position when found, so zero or between 10 and ten times the view's length |
| MempoolService.MempoolService.GenerateRandomPending | src/metier/service/MempoolService.java:68-77 | exactly max(count, 0) fresh synthetic transactions, one per draw, with distinct new ids, and none of the previous pool |
| MempoolService.PositionOfPendingTransaction | src/metier/service/MempoolService.java:32-60 | a pending transaction with an id of its own is found exactly when its fee is set; then it is the entry found, and its position is at least the what-if position of its fee |
| MempoolService.OtherTransactionOtherFee | src/metier/service/MempoolService.java:37-60 | when no other pending transaction carries t's fee, a pending transaction with another id has another fee |
| MempoolService.UnsharedFeeRank | src/metier/service/MempoolService.java:37-60 | when no other pending transaction carries t's fee and t's entry is the first with its id, exactly as many entries outbid it as stand before it |
| MempoolService.PositionOfUnsharedFee | src/metier/service/MempoolService.java:37-60 | a pending transaction with an id and a set fee of its own is found at exactly the what-if position of its fee |
| MempoolService.AbsentTransactionNotFound | src/metier/service/MempoolService.java:37-45 | a transaction whose id is nowhere in the pool is not found |
| TransactionService.TransactionService.constructor | src/metier/service/TransactionService.java:21-23 | the service keeps the wallet store it is given |
| TransactionService.TransactionService.CreateTransaction | src/metier/service/TransactionService.java:35-76 | fails exactly when balance < amount + the factory's fee, reporting both and changing nothing; otherwise deducts exactly that total (zero left when the balance equalled it, never negative), saves the wallet once, and returns a fresh PENDING transaction from the wallet carrying the fee |
| TransactionService.TransactionService.AddFunds | src/metier/service/TransactionService.java:81-90 | adds any amount to the balance and saves the wallet once |
| WalletService.TrimStart | src/metier/service/WalletService.java:88 | a suffix of the input whose removed prefix is all characters up to U+0020; empty exactly when the input is blank, otherwise starting with a non-blank character |
| WalletService.TrimEnd | src/metier/service/WalletService.java:88 | a prefix of the input whose removed suffix is blank; empty exactly when the input is blank, otherwise ending with a non-blank character |
| WalletService.BlankFramedInfix | src/metier/service/WalletService.java:88 | cutting a blank prefix, then a blank suffix, leaves an infix of the input with only blanks before and after it, starting where the cut prefix ends |
| WalletService.Trim | src/metier/service/WalletService.java:88-92 | the infix of the input between a blank prefix and a blank suffix; empty exactly when the input is blank, otherwise starting and ending with a non-blank character |
| WalletService.ParseWalletType | src/metier/service/WalletService.java:199-207 | accepts only the exact codes "1" and "2", null refused |
| WalletService.ParseWalletTypeRoundTrip | src/metier/service/WalletService.java:199-207 | "1" parses to BITCOIN and "2" to ETHEREUM |
| WalletService.ParsePriority | src/metier/service/WalletService.java:209-216 | accepts only the exact codes "1", "2", "3" |
| WalletService.ParsePriorityRoundTrip | src/metier/service/WalletService.java:209-216 | "1", "2", "3" parse to ECONOMIQUE, STANDARD, RAPIDE |
| WalletService.IsValidAddress | src/metier/service/WalletService.java:218-227 | ETHEREUM uses the Ethereum check and BITCOIN the Bitcoin check |
| WalletService.DestinationKindIsUnique | src/metier/service/WalletService.java:218-227 | no destination is acceptable for both kinds |
| WalletService.WalletService.constructor | src/metier/service/WalletService.java:28-32 | the stores as given and a new TransactionService over the same wallet store |
| WalletService.WalletService.CreateWallet | src/metier/service/WalletService.java:64-82 | a refused type code creates and saves nothing; otherwise a fresh wallet of that kind, zero balance, valid address, saved once |
| WalletService.WalletService.FindWallet | src/metier/service/WalletService.java:87-98 | refuses a null or blank id; otherwise looks up the trimmed id and succeeds exactly when the store has it, with the stored wallet |
| WalletService.WalletService.AddFunds | src/metier/service/WalletService.java:103-130 | lookup, amount parse and amount > 0, in that order, decide the failure, and then no wallet changes and nothing is saved; otherwise only the found wallet's balance is credited (its other fields, the transaction list included, are kept), and it is saved once |
| WalletService.WalletService.Validate | src/metier/service/WalletService.java:137-169 | the first failing check of wallet, destination, amount parse, amount > 0 and priority decides the failure; on success the wallet is stored and the amount positive |
| WalletService.WalletService.Settle | src/metier/service/WalletService.java:171-180 | insufficient funds change nothing and save nothing; otherwise the wallet pays amount + fee and is saved once, and the new transaction is saved once |
| WalletService.WalletService.CreateTransaction | src/metier/service/WalletService.java:135-181 | a failed check changes no stored wallet, saves nothing and draws no id; insufficient funds keep the balance and save nothing; otherwise the charged wallet pays amount + fee and only its balance changes, both stores get one row, and the returned transaction is fresh and matches the saved row |
| WalletService.WalletService.CompareFees | src/metier/service/WalletService.java:186-196 | never succeeds: a lookup failure is reported as such, and otherwise the result is "not implemented" |

## Left out

- Null objects passed to the mempool. Java's `addTransaction(null)` is accepted, and afterwards every `getPendingSortedByFeeDesc` throws a `NullPointerException` in the filter; `computePosition(null)` and `estimateConfirmationTime(null)` throw when they compare ids. Transactions in the model are non-null references, so these crashes are not modelled.
- The console user interface (`src/ui/ConsoleApp.java`). It is a menu loop with printing, and its what-if table only combines the fee calculators with `ComputeHypotheticalPosition`.
- JDBC persistence, SQL schema, database and configuration classes, and logger setup. They are I/O. The stores record saves and answer lookups. `save` is an INSERT whose SQL errors are logged and swallowed. Loading rebuilds objects through constructors that mint new ids. So no save/load round trip is stated.
- Log calls and the wording of messages. Each outcome is a `ServiceError` constructor, which names the reason and, for insufficient funds, carries the balance and the required total.
- Thread safety (`synchronized` singletons). The model is sequential.
- Parsing an amount string (`new BigDecimal(amountStr)`). The amount arrives as `Option<real>`, `None` standing for a string that does not parse, null included.
- The random generators (`UUID`, `Random`, `SecureRandom`) and the clock. Draws and the time are parameters; ids come from `Ids.IdSupply`.
- `WalletService.WalletService.CreateWallet`: the generic `catch (Exception)` branch is not modelled, since nothing in the modelled code throws there.
- `WalletService.ParsePriority`: it takes a non-null string. A null priority makes Java's `switch` throw a `NullPointerException` that `createTransaction` does not catch; that crash is not modelled.
- `MempoolService.MempoolService.ComputeHypotheticalPosition`: a null hypothetical fee makes `compareTo` throw when the view is not empty; the parameter is a `real`, so that crash is not modelled.
- The `default` branches that throw `IllegalArgumentException` or return `false` in `forType`, `WalletFactory.createWallet` and `isValidAddress`. The two-value enum cannot reach them. The unreachable default rates of the two fee switches are kept as constants, and `FeePositive` states their fees.
- `TransactionStatus` values other than `PENDING`, which the core never names; they are `OtherStatus(name)`.
- Java integer widths. `int` positions, `long` minutes and `long` satoshi counts cannot overflow for any pool that fits in memory, so unbounded integers are used. `Duration` is a number of minutes.
- `FeeComparison` is declared as a record only, because `compareFees` never builds one.
- The interfaces `WalletRepository`, `TransactionRepository` and `FeeCalculator` are signatures only. They appear as the two store classes and the `FeeCalculator` datatype.
