# Aviator demo services, modelled in Dafny

The demo application wraps the Aviator expression engine in a few Spring
services. The engine itself (lexer, parser, evaluator, compiled-expression
cache) is an external library; what the application owns is:

- **FormulaService**, a catalog of named formulas held in two maps: the
  template texts (`formulaTemplates`) and their compiled forms
  (`formulaCache`). It supports `init`, `addFormula`, `removeFormula`,
  `getAllFormulas`, `calculateByFormula`, `batchCalculate` and
  `validateFormula`.
- **RuleEngineService** and **PriceCalculationService**, business rules, each
  written as an Aviator expression string of nested ternaries: loan
  eligibility and rate, user level, risk score, coupon type, grade; final,
  discount, VIP, full-reduction and tiered prices.
- **CustomAviatorFunctions** and the `math.min` / `min` / `math.max`
  functions that AviatorService registers with the engine.

The Dafny project models each of these as pure functions over immutable
values:

| file | module | models |
|---|---|---|
| `results.dfy` | `Results` | `Option` and `Result`, standing in for null returns and thrown exceptions |
| `java_numbers.dfy` | `JavaNumbers` | the `java.lang.Number` a registered function receives: `Integral` (Long, BigInteger), `Decimal` (BigDecimal), `Double`; `doubleValue()`, `intValue()` with 32-bit wrap-around or saturation, and Java's truncating `/` and `%` |
| `math_functions.dfy` | `MathFunctions` | `math.min`, `min`, `math.max` |
| `custom_functions.dfy` | `CustomFunctions` | `square`, `cube`, `isEven`, `reverse`, `capitalize`, `inRange`, `applyDiscount` |
| `rule_engine.dfy` | `RuleEngine` | the six rules of RuleEngineService |
| `price_service.dfy` | `PriceService` | the five price rules of PriceCalculationService |
| `decimal_text.dfy` | `DecimalText` | the decimal rendering of `"result_" + i`, with its inverse |
| `formula_catalog.dfy` | `FormulaCatalog` | FormulaService as a two-map state machine |

Modelling choices:

- The engine's `compile` is a parameter `compile: string -> Option<C>`.
  `None` stands for a text the engine refuses to compile.
- The engine's `execute` is a parameter `execute: (C, E) -> Result<V, string>`.
  A `Failure` carries the message of the exception the engine would throw.
  The compiled type `C`, environment type `E` and value type `V` are left open.
- Prices, rates, incomes and amounts are read as exact reals, an idealisation
  of Java double arithmetic. The demo parses floating literals as BigDecimal,
  but every price, income and amount input is a Java `Double`. An Aviator
  operation with a double operand is computed in double, so Java's results can
  differ from the model's in the last bits (see "## Left out").
- Tier boundaries are exactly those of the expression strings.
- Rule results that are strings in Java (`'GOLD'`, `'VIP_COUPON'`, `'A'`)
  become datatype constructors of the same names.
- Each nested-ternary rule is paired with an independent reading of it. The
  user level and the coupon are each "the highest tier whose thresholds are
  met", taken from a threshold table. The full reduction subtracts "the largest
  reduction the promotion table (100 off 10, 200 off 25, 500 off 80) grants",
  computed as the maximum of the offers reached. The grade is stated as
  ten-point bands, one if-and-only-if per grade. The loan base rate is "8%
  minus one point per cut-off reached". The tiered price is "the quantity
  tier's discount applied". Monotonicity and boundary lemmas are proved about
  each.
- The risk score is compared with the same formula read in exact arithmetic:
  Java's integer `credit / 10` keeps it within less than a point of it.
- `init` runs on a fresh service. HashMap iteration order is a parameter
  `order`, and the result is proved not to depend on it.
- `square`, `cube`, `applyDiscount`, `math.min`, `min` and `math.max` return an
  AviatorDouble, so these functions return `Double(..)` whatever the type of
  their arguments. `isEven` and `inRange` return an AviatorBoolean (`bool`);
  `reverse` and `capitalize` return an AviatorString (`string`).

Behaviour of the catalog worth stating explicitly:

- `addFormula` stores the template before compiling
  (aviator-demo/src/main/java/com/example/demo/service/FormulaService.java:85-87).
  A text that fails to compile is therefore still listed, and an older
  compiled form under the same name stays in the cache and is what
  `calculateByFormula` runs. `FailedAddKeepsStaleForm` and
  `FailedAddListsUninvokableName` state this.
- `calculateByFormula` and `batchCalculate` read only the compiled map. A
  listed name without a compiled form fails as "formula not found"; no
  compile is attempted on demand.
- The loan rule's comment asks for an income above a tenth of the loan. The
  expression uses `>=`, and `LoanIncomeBoundInclusive` states that.

## Model

| member | source | states |
|---|---|---|
| `FormulaCatalog.PrecompileAll` | aviator-demo/src/main/java/com/example/demo/service/FormulaService.java:50-58 | Whatever order the template map is iterated in, a name ends up compiled exactly when its text compiles, and its compiled form is the compilation of that text; a failing text is skipped without stopping the loop |
| `FormulaCatalog.Init` | aviator-demo/src/main/java/com/example/demo/service/FormulaService.java:35-59 | A fresh service lists exactly the ten default templates; a name is compiled iff its template compiles, so a name whose text fails keeps its template but gets no compiled form; every compiled form matches its listed text |
| `FormulaCatalog.CalculateByFormula` | aviator-demo/src/main/java/com/example/demo/service/FormulaService.java:64-72 | Fails with "formula not found" iff the name has no compiled form (a listed name without one included); otherwise returns what executing the cached form on the parameters returns, or its failure |
| `FormulaCatalog.GetAllFormulas` | aviator-demo/src/main/java/com/example/demo/service/FormulaService.java:77-79 | The listing has exactly the template names, each with its text; as a value it cannot alias the catalog |
| `FormulaCatalog.AddFormula` | aviator-demo/src/main/java/com/example/demo/service/FormulaService.java:84-89 | The text is listed whether or not it compiles; the call succeeds iff it compiles; on success the new compiled form replaces the old, on failure the cache is untouched and the call fails. In Java the failure is the engine's compile exception, propagated out of `addFormula`; the model carries the rejected text in `CompileFailed` in its place |
| `FormulaCatalog.RemoveFormula` | aviator-demo/src/main/java/com/example/demo/service/FormulaService.java:94-98 | The name leaves both maps; every other name keeps its membership and its entries in both maps |
| `FormulaCatalog.ValidateFormula` | aviator-demo/src/main/java/com/example/demo/service/FormulaService.java:122-130 | Validation answers, for every catalog and every name, exactly whether adding the text there would succeed |
| `FormulaCatalog.ResultKeyDecodes` | aviator-demo/src/main/java/com/example/demo/service/FormulaService.java:113 | Decoding a key with `ResultIndex` (strip the `result_` prefix, read the decimal digits) gives back the batch index it was made from |
| `FormulaCatalog.ResultKeyInjective` | aviator-demo/src/main/java/com/example/demo/service/FormulaService.java:113 | Different batch indices give different `result_` keys |
| `FormulaCatalog.ResultKeysCount` | aviator-demo/src/main/java/com/example/demo/service/FormulaService.java:111-114 | The first k batch keys are k distinct strings: index j < k is among them and no index >= k is |
| `FormulaCatalog.BatchStep` | aviator-demo/src/main/java/com/example/demo/service/FormulaService.java:111-114 | Storing the next successful result under its key extends a correct batch prefix by one without disturbing earlier entries |
| `FormulaCatalog.BatchCalculate` | aviator-demo/src/main/java/com/example/demo/service/FormulaService.java:103-117 | An uncompiled name fails before anything runs; otherwise the result has exactly the keys result_0..result_{k-1}, k entries, entry i being the i-th execution, or the failure of the first execution that fails after all earlier ones succeeded |
| `FormulaCatalog.AddPreservesCacheWithinTemplates` | aviator-demo/src/main/java/com/example/demo/service/FormulaService.java:84-87 | Adding keeps every compiled name listed, whether the compile succeeds or fails |
| `FormulaCatalog.RemovePreservesCacheWithinTemplates` | aviator-demo/src/main/java/com/example/demo/service/FormulaService.java:94-96 | Removing keeps every compiled name listed |
| `FormulaCatalog.AddSuccessPreservesCoherent` | aviator-demo/src/main/java/com/example/demo/service/FormulaService.java:84-87 | A successful add keeps every compiled form equal to the compilation of its listed text |
| `FormulaCatalog.RemovePreservesCoherent` | aviator-demo/src/main/java/com/example/demo/service/FormulaService.java:94-96 | Removing keeps every compiled form equal to the compilation of its listed text |
| `FormulaCatalog.FailedAddKeepsStaleForm` | aviator-demo/src/main/java/com/example/demo/service/FormulaService.java:84-87 | A failed add over a compiled name lists the new text while invoking the name still runs the old compiled form, so the catalog is no longer coherent |
| `FormulaCatalog.FailedAddListsUninvokableName` | aviator-demo/src/main/java/com/example/demo/service/FormulaService.java:64-87 | A failed add of a new name lists it, yet invoking it fails with "formula not found" |
| `FormulaCatalog.ListAfterAdd` | aviator-demo/src/main/java/com/example/demo/service/FormulaService.java:77-87 | After an add the listing is the old listing with the name mapped to the new text, success or not |
| `FormulaCatalog.InvokeAfterAdd` | aviator-demo/src/main/java/com/example/demo/service/FormulaService.java:64-87 | After a successful add, invoking the name returns what executing the compilation of the text just added returns, or its failure |
| `FormulaCatalog.AddLeavesOthers` | aviator-demo/src/main/java/com/example/demo/service/FormulaService.java:84-87 | Adding a name does not change how any other name is invoked |
| `FormulaCatalog.InvokeAfterRemove` | aviator-demo/src/main/java/com/example/demo/service/FormulaService.java:64-98 | After a removal the name fails with "formula not found" and every other name is invoked as before |
| `FormulaCatalog.RemoveAbsentIsNoOp` | aviator-demo/src/main/java/com/example/demo/service/FormulaService.java:94-96 | Removing a name in neither map leaves the catalog unchanged |
| `FormulaCatalog.RemoveIdempotent` | aviator-demo/src/main/java/com/example/demo/service/FormulaService.java:94-96 | Removing the same name twice is the same as removing it once |
| `FormulaCatalog.RemoveUndoesAdd` | aviator-demo/src/main/java/com/example/demo/service/FormulaService.java:84-96 | Removing a name just added to a catalog without it restores the catalog, whether the add succeeded or failed |
| `FormulaCatalog.ValidateAgreesWithAdd` | aviator-demo/src/main/java/com/example/demo/service/FormulaService.java:122-130 | Validation answers true exactly when adding the same text would succeed; it takes no catalog, so it changes neither map |
| `FormulaCatalog.InvokeAfterInit` | aviator-demo/src/main/java/com/example/demo/service/FormulaService.java:50-72 | After init a default name can be invoked exactly when its template validates |
| `DecimalText.NatToString` | aviator-demo/src/main/java/com/example/demo/service/FormulaService.java:113 | The decimal rendering of a non-negative index: non-empty, digits only, no leading zero |
| `DecimalText.ParseNatToString` | aviator-demo/src/main/java/com/example/demo/service/FormulaService.java:113 | Reading the rendered digits back gives the index |
| `DecimalText.NatToStringInjective` | aviator-demo/src/main/java/com/example/demo/service/FormulaService.java:113 | Distinct indices render as distinct strings |
| `RuleEngine.EvaluateLoanEligibility` | aviator-demo/src/main/java/com/example/demo/service/RuleEngineService.java:35-53 | Eligible iff 18 <= age <= 65, ten times the income covers the loan (in exact arithmetic), the credit score reaches 550 with collateral or 600 without, and at least one year of employment |
| `RuleEngine.LoanEligibilityMonotone` | aviator-demo/src/main/java/com/example/demo/service/RuleEngineService.java:44-47 | More income, a smaller loan, a higher score, added collateral or more years never make an eligible application ineligible |
| `RuleEngine.LoanIncomeBoundInclusive` | aviator-demo/src/main/java/com/example/demo/service/RuleEngineService.java:30-45 | An income of exactly a tenth of the loan qualifies (the code compares with >= although the rule text says more than); one unit less does not |
| `RuleEngine.LoanCollateralLowersFloor` | aviator-demo/src/main/java/com/example/demo/service/RuleEngineService.java:46 | With the other clauses met and a score in 550..599, the application is eligible iff it has collateral |
| `RuleEngine.LoanAgeLimits` | aviator-demo/src/main/java/com/example/demo/service/RuleEngineService.java:44 | Ages outside 18..65 are never eligible and both limits are inclusive |
| `RuleEngine.BaseLoanRate` | aviator-demo/src/main/java/com/example/demo/service/RuleEngineService.java:65-68 | The base rate lies between 4% and 8% |
| `RuleEngine.BaseLoanRateCountsCutOffs` | aviator-demo/src/main/java/com/example/demo/service/RuleEngineService.java:65-68 | The base rate is 8% minus one point per cut-off (600, 650, 700, 750) the score reaches |
| `RuleEngine.BaseLoanRateNonIncreasing` | aviator-demo/src/main/java/com/example/demo/service/RuleEngineService.java:65-68 | A higher score never has a higher base rate |
| `RuleEngine.CalculateLoanRate` | aviator-demo/src/main/java/com/example/demo/service/RuleEngineService.java:59-73 | The rate lies in [3%, 8%] and is the base rate, or one point below it |
| `RuleEngine.LoanRateCollateralSaving` | aviator-demo/src/main/java/com/example/demo/service/RuleEngineService.java:69 | Collateral lowers the rate by exactly one point at every score |
| `RuleEngine.LoanRateNonIncreasing` | aviator-demo/src/main/java/com/example/demo/service/RuleEngineService.java:65-69 | A higher score or added collateral never raises the rate |
| `RuleEngine.LoanRateCutOffsInclusive` | aviator-demo/src/main/java/com/example/demo/service/RuleEngineService.java:65-69 | Each cut-off score already gets its lower rate: 750 gives 4%, 749 gives 5%, 600 gives 7%, 599 gives 8% |
| `RuleEngine.EvaluateUserLevel` | aviator-demo/src/main/java/com/example/demo/service/RuleEngineService.java:79-91 | The level is one whose spending and order thresholds are both met, and no higher level has both met; NORMAL when none is |
| `RuleEngine.UserLevelMonotone` | aviator-demo/src/main/java/com/example/demo/service/RuleEngineService.java:84-87 | More spending and more orders never lower the level |
| `RuleEngine.UserLevelNeedsBothThresholds` | aviator-demo/src/main/java/com/example/demo/service/RuleEngineService.java:84-87 | Spending alone does not raise the level: 20000 with 4 orders is NORMAL, 10000 with 49 orders is GOLD, with 50 DIAMOND |
| `RuleEngine.RawRiskScore` | aviator-demo/src/main/java/com/example/demo/service/RuleEngineService.java:107-112 | The unclamped score is within less than a point of the exact formula: below it for a non-negative credit score, above it for a negative one, because `credit / 10` is integer division |
| `RuleEngine.CreditPointsBounds` | aviator-demo/src/main/java/com/example/demo/service/RuleEngineService.java:108 | `credit / 10` keeps the whole tens of the credit score, rounded toward zero |
| `RuleEngine.ClampRiskScore` | aviator-demo/src/main/java/com/example/demo/service/RuleEngineService.java:107-115 | The score lies in [0, 100]: 0 for a raw value <= 0, 100 for >= 100, and the raw value rounded toward zero in between |
| `RuleEngine.CalculateRiskScore` | aviator-demo/src/main/java/com/example/demo/service/RuleEngineService.java:97-116 | The risk score always lies in [0, 100] |
| `RuleEngine.RiskScoreMonotone` | aviator-demo/src/main/java/com/example/demo/service/RuleEngineService.java:106-115 | A higher credit score or income, a lower debt ratio, or dropping a default never lowers the risk score |
| `RuleEngine.ClampRiskScoreMonotone` | aviator-demo/src/main/java/com/example/demo/service/RuleEngineService.java:107-115 | A larger raw value never gives a smaller score |
| `RuleEngine.DetermineCouponType` | aviator-demo/src/main/java/com/example/demo/service/RuleEngineService.java:122-137 | A new user, and only a new user, gets WELCOME_COUPON; a returning user gets the highest coupon whose thresholds are met |
| `RuleEngine.CouponShortcuts` | aviator-demo/src/main/java/com/example/demo/service/RuleEngineService.java:130-133 | A new user gets WELCOME_COUPON whatever else holds; a returning user with fewer than 7 login days gets NO_COUPON |
| `RuleEngine.CouponMonotone` | aviator-demo/src/main/java/com/example/demo/service/RuleEngineService.java:130-133 | For a returning user, more login days, orders or order value never give a lesser coupon |
| `RuleEngine.EvaluateGrade` | aviator-demo/src/main/java/com/example/demo/service/RuleEngineService.java:142-153 | A iff score >= 90, B iff 80..89, C iff 70..79, D iff 60..69, F iff below 60 |
| `RuleEngine.GradeMonotone` | aviator-demo/src/main/java/com/example/demo/service/RuleEngineService.java:146-149 | A higher score never yields a worse grade |
| `RuleEngine.GradeBandsAreTenWide` | aviator-demo/src/main/java/com/example/demo/service/RuleEngineService.java:146-149 | Between 60 and 99 the grade rank is the tens digit minus 5: each band is ten points wide |
| `PriceService.CalculateDiscountPrice` | aviator-demo/src/main/java/com/example/demo/service/PriceCalculationService.java:48-55 | A zero rate keeps the price and a full rate makes it zero |
| `PriceService.DiscountPriceIsApplyDiscount` | aviator-demo/src/main/java/com/example/demo/service/PriceCalculationService.java:53 | The service discount and the applyDiscount function compute the same price |
| `PriceService.DiscountPriceBounds` | aviator-demo/src/main/java/com/example/demo/service/PriceCalculationService.java:53 | A rate in [0, 1] on a non-negative price yields a price between 0 and the original |
| `PriceService.DiscountPriceExample` | aviator-demo/src/test/java/com/example/demo/service/PriceCalculationServiceTest.java:32-33 | 100 at 20% off is 80 |
| `PriceService.CalculateFinalPrice` | aviator-demo/src/main/java/com/example/demo/service/PriceCalculationService.java:30-43 | With no tax, the final price is the discount price of the goods total plus the shipping fee |
| `PriceService.FinalPriceShippingNotDiscounted` | aviator-demo/src/main/java/com/example/demo/service/PriceCalculationService.java:38 | Shipping is taxed but not discounted: the total is the free-shipping total plus the shipping fee times (1 + tax) |
| `PriceService.FinalPriceTaxScalesTotal` | aviator-demo/src/main/java/com/example/demo/service/PriceCalculationService.java:38 | The tax scales the whole untaxed total: the total is the zero-tax total times (1 + tax) |
| `PriceService.FinalPriceExample` | aviator-demo/src/test/java/com/example/demo/service/PriceCalculationServiceTest.java:23-27 | (100, 2, 0.1, 10, 0.05) gives 199.5 |
| `PriceService.FinalPriceWithoutAdjustments` | aviator-demo/src/main/java/com/example/demo/service/PriceCalculationService.java:38 | With no discount, shipping or tax the final price is price times quantity |
| `PriceService.FinalPriceMonotoneInShipping` | aviator-demo/src/main/java/com/example/demo/service/PriceCalculationService.java:38 | With a non-negative tax, more shipping never lowers the final price |
| `PriceService.CalculateVipDiscount` | aviator-demo/src/main/java/com/example/demo/service/PriceCalculationService.java:61-70 | A non-negative price never drops below 80% of itself; from level 4 on the price is exactly 80%; every level up to 4, negative ones included, takes 5% per level |
| `PriceService.VipDiscountExample` | aviator-demo/src/test/java/com/example/demo/service/PriceCalculationServiceTest.java:38-40 | Level 3 turns 100 into 85 |
| `PriceService.VipDiscountMonotone` | aviator-demo/src/main/java/com/example/demo/service/PriceCalculationService.java:67 | For a non-negative price a higher level never costs more |
| `PriceService.VipDiscountNegativeLevel` | aviator-demo/src/main/java/com/example/demo/service/PriceCalculationService.java:67 | The cap has no lower end: level -2 turns 100 into 110 in exact arithmetic (Java's doubles give 110.00000000000001) |
| `PriceService.CalculateFullReduction` | aviator-demo/src/main/java/com/example/demo/service/PriceCalculationService.java:76-86 | The result never exceeds the input, drops by at most 80, stays non-negative for a non-negative input, and is unchanged below 100 |
| `PriceService.ReductionTier` | aviator-demo/src/main/java/com/example/demo/service/PriceCalculationService.java:72-75 | The reduction is one the promotion table (100 off 10, 200 off 25, 500 off 80, or nothing) grants the amount, and no reduction the table grants is larger |
| `PriceService.FullReductionIsTierSubtraction` | aviator-demo/src/main/java/com/example/demo/service/PriceCalculationService.java:72-86 | The first-match ternary chain subtracts exactly the largest reduction the promotion table grants |
| `PriceService.ReductionMonotone` | aviator-demo/src/main/java/com/example/demo/service/PriceCalculationService.java:80-82 | A larger amount never earns a smaller reduction |
| `PriceService.FullReductionNotMonotone` | aviator-demo/src/main/java/com/example/demo/service/PriceCalculationService.java:80-82 | The amount paid is not monotone: 499 pays more than 500, and 99 more than 100 |
| `PriceService.FullReductionExamples` | aviator-demo/src/test/java/com/example/demo/service/PriceCalculationServiceTest.java:45-47 | 100 gives 90, 200 gives 175, 500 gives 420 |
| `PriceService.QuantityDiscount` | aviator-demo/src/main/java/com/example/demo/service/PriceCalculationService.java:97-101 | The tier discount is 10% for each of the bounds 10, 50 and 100 the quantity exceeds, so it lies in [0, 30%] |
| `PriceService.CalculateTieredPrice` | aviator-demo/src/main/java/com/example/demo/service/PriceCalculationService.java:92-105 | The total is the undiscounted total with the quantity tier discount applied |
| `PriceService.QuantityDiscountMonotone` | aviator-demo/src/main/java/com/example/demo/service/PriceCalculationService.java:98-101 | A larger quantity never has a smaller tier discount |
| `PriceService.TieredPriceBounds` | aviator-demo/src/main/java/com/example/demo/service/PriceCalculationService.java:98-101 | For non-negative inputs the total lies between 70% and 100% of quantity times price |
| `PriceService.TieredPriceBoundaries` | aviator-demo/src/main/java/com/example/demo/service/PriceCalculationService.java:98-101 | Upper bounds are inclusive: 10 pays full, 11 and 50 pay 90%, 100 pays 80%, 101 pays 70% |
| `PriceService.TieredPriceExamples` | aviator-demo/src/test/java/com/example/demo/service/PriceCalculationServiceTest.java:52-54 | 60 at 10 gives 480; 11 items at 10 cost less than 10 items |
| `CustomFunctions.Square` | aviator-demo/src/main/java/com/example/demo/config/CustomAviatorFunctions.java:46-50 | The result is a double and never negative |
| `CustomFunctions.Cube` | aviator-demo/src/main/java/com/example/demo/config/CustomAviatorFunctions.java:61-65 | The result is a double with the sign of the argument |
| `CustomFunctions.CubeIsSquareTimesValue` | aviator-demo/src/main/java/com/example/demo/config/CustomAviatorFunctions.java:46-65 | cube(x) is square(x) times x |
| `CustomFunctions.SquareEvenCubeOdd` | aviator-demo/src/main/java/com/example/demo/config/CustomAviatorFunctions.java:46-65 | Opposite arguments have equal squares and opposite cubes |
| `CustomFunctions.IsEven` | aviator-demo/src/main/java/com/example/demo/config/CustomAviatorFunctions.java:76-79 | For every argument: an integral value is even iff it is even (negative values and values beyond the int range included); a decimal iff its truncation toward zero is even; a double iff its truncation, saturated to the int range, is even |
| `CustomFunctions.IsEvenTruncates` | aviator-demo/src/main/java/com/example/demo/config/CustomAviatorFunctions.java:76-79 | A fractional argument is truncated toward zero first: 3.7 is odd, -4.5 even, -3 odd |
| `CustomFunctions.IsEvenSaturates` | aviator-demo/src/main/java/com/example/demo/config/CustomAviatorFunctions.java:76-79 | The double 3000000000 saturates to the odd Integer.MAX_VALUE and is reported odd, while the decimal keeps its low 32 bits and is reported even |
| `CustomFunctions.Reverse` | aviator-demo/src/main/java/com/example/demo/config/CustomAviatorFunctions.java:90-94 | Same length, and position i holds the character at the mirrored position |
| `CustomFunctions.ReverseInvolution` | aviator-demo/src/main/java/com/example/demo/config/CustomAviatorFunctions.java:90-94 | Reversing twice gives back the string |
| `CustomFunctions.ReverseConcat` | aviator-demo/src/main/java/com/example/demo/config/CustomAviatorFunctions.java:90-94 | The reverse of s + t is reverse(t) + reverse(s) |
| `CustomFunctions.UpperCase` | aviator-demo/src/main/java/com/example/demo/config/CustomAviatorFunctions.java:110 | The upper-casing of one character: lower-case ASCII letters move to their capitals, everything else is kept |
| `CustomFunctions.Capitalize` | aviator-demo/src/main/java/com/example/demo/config/CustomAviatorFunctions.java:105-111 | Same length; a non-empty string gets its first character upper-cased and the rest unchanged; the empty string stays empty |
| `CustomFunctions.CapitalizeIdempotent` | aviator-demo/src/main/java/com/example/demo/config/CustomAviatorFunctions.java:105-111 | Capitalizing twice is capitalizing once |
| `CustomFunctions.CapitalizeFixesCapitalized` | aviator-demo/src/main/java/com/example/demo/config/CustomAviatorFunctions.java:105-111 | A string not starting with a lower-case letter is returned unchanged |
| `CustomFunctions.InRange` | aviator-demo/src/main/java/com/example/demo/config/CustomAviatorFunctions.java:138-150 | In range exactly when the range is non-empty and clamping the value into it with math.max/math.min leaves it unchanged |
| `CustomFunctions.InRangeInvertedIsEmpty` | aviator-demo/src/main/java/com/example/demo/config/CustomAviatorFunctions.java:138-150 | inRange is false whenever lo > hi |
| `CustomFunctions.InRangeInclusive` | aviator-demo/src/main/java/com/example/demo/config/CustomAviatorFunctions.java:138-150 | Both ends of a non-empty range are in range |
| `CustomFunctions.InRangeIffClampFixes` | aviator-demo/src/main/java/com/example/demo/config/CustomAviatorFunctions.java:138-150 | A value is in [lo, hi] exactly when math.max(lo, math.min(hi, v)) leaves it unchanged |
| `CustomFunctions.ApplyDiscount` | aviator-demo/src/main/java/com/example/demo/config/CustomAviatorFunctions.java:201-208 | The result is a double; a zero rate leaves the price unchanged |
| `CustomFunctions.ApplyDiscountBounds` | aviator-demo/src/main/java/com/example/demo/config/CustomAviatorFunctions.java:201-208 | A rate in [0, 1] on a non-negative price gives a price between 0 and the original |
| `CustomFunctions.ApplyDiscountAntitone` | aviator-demo/src/main/java/com/example/demo/config/CustomAviatorFunctions.java:201-208 | A larger rate never gives a higher price on a non-negative price |
| `MathFunctions.MathMin` | aviator-demo/src/main/java/com/example/demo/service/AviatorService.java:61-74 | A double no larger than either argument and equal to one of them |
| `MathFunctions.Min` | aviator-demo/src/main/java/com/example/demo/service/AviatorService.java:77-90 | The bare `min` returns, as a double, whichever argument is not larger |
| `MathFunctions.MathMax` | aviator-demo/src/main/java/com/example/demo/service/AviatorService.java:93-106 | A double no smaller than either argument and equal to one of them |
| `MathFunctions.MinAliasesAgree` | aviator-demo/src/main/java/com/example/demo/service/AviatorService.java:61-90 | The separately registered `min` and `math.min` agree on every input |
| `MathFunctions.MinOfIntegralsIsDouble` | aviator-demo/src/main/java/com/example/demo/service/AviatorService.java:68-72 | The minimum of two integers comes back as a double, never as an integer |
| `MathFunctions.MinMaxPartition` | aviator-demo/src/main/java/com/example/demo/service/AviatorService.java:68-105 | math.min and math.max of a pair add up to the pair and are ordered |
| `MathFunctions.ClampBounds` | aviator-demo/src/main/java/com/example/demo/service/RuleEngineService.java:107 | math.max(lo, math.min(hi, v)) lies in [lo, hi] and leaves a value already in range unchanged |
| `JavaNumbers.IntValue` | aviator-demo/src/main/java/com/example/demo/config/CustomAviatorFunctions.java:78 | Number.intValue(): always an int; an int-sized integral value is kept; a fractional value is truncated toward zero when that fits |
| `JavaNumbers.JavaDivRem` | aviator-demo/src/main/java/com/example/demo/service/RuleEngineService.java:108 | Java's truncating quotient and remainder recombine to the dividend |

## Left out

- The expression engine: lexing, parsing, evaluation, its LRU expression cache, its options, and its argument-count and type checks on registered functions. These live in the external Aviator library and appear here only as the `compile` and `execute` parameters.
- `validateFormula` calls the uncached `compile(text)`, while `init` and `addFormula` call `compile(text, true)`. Both are the same `compile` parameter here, because the cache flag does not change whether a text compiles.
- `math.pow`, `calculateCompoundInterest`, `round` and `toPercent`. They rest on `Math.pow`, `Math.round` and `String.format` over doubles.
- `formatNow`, because it reads the wall clock.
- `executeCustomRule` and AviatorService's `compile`, `execute`, `addFunction`, `removeFunction` and `clearExpressionCache`. Each is a single call into the engine.
- The Spring Boot starter, the controllers, DTOs and model getters/setters, the application class and all logging. They are wiring and presentation.
- Double arithmetic: rounding to the nearest double, NaN, infinities and signed zero. `DoubleValue` returns the exact value; `Math.min`/`Math.max` are read on reals.
  - The rule and price expressions are read exactly too, though their `Double` inputs make Java compute them in double.
  - Example: `calculateVipDiscount(100.0, -2)` gives 110.00000000000001 in Java but 110 in the model.
  - Example: with amount 23634.577631987064 and income 2363.4577631987063, `income >= amount * 0.1` holds in Java because the product rounds down. The exact eligibility condition `EvaluateLoanEligibility` states rejects it, since ten times the income is below the amount.
  - The tier boundaries, the cut-offs and the integer results (level, coupon, grade, rate tiers) are the same either way for inputs away from such rounding edges.
- Null arguments. Java's boxed `Integer`, `Double` and `Boolean` parameters, a null `paramsList`, and the null branch of `capitalize` have no counterpart: model values are never null.
- Concurrency. `formulaCache` is a ConcurrentHashMap, but the catalog is modelled as sequential calls.
- CustomFunctions.UpperCase: upper-cases only the ASCII letters a-z. Java's `toUpperCase` also maps other letters, can lengthen a string (ß to SS), and depends on the locale.
- CustomFunctions.Reverse: works on Unicode scalar values. StringBuilder.reverse also keeps surrogate pairs together, but its treatment of unpaired surrogates is not modelled.
- RuleEngine.CalculateRiskScore: its own contract states only that the score lies in [0, 100]. `RawRiskScore` bounds the unclamped term against the exact formula, `ClampRiskScore` fixes the clamp, and `RiskScoreMonotone` orders the scores; no closed form of the final integer is stated.
- CustomFunctions.Square: states non-negativity and the relations to `cube` and to the argument's sign, not that the value is exactly x·x.
