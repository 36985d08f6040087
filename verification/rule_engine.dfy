/**
 * The decision rules of RuleEngineService. Each rule is an Aviator expression
 * string of nested ternaries; here each is the function that string computes,
 * with every cut-off exactly as written. Incomes, amounts and ratios are read as
 * exact reals, an idealisation of the double arithmetic Java performs on
 * them. String results ('A', 'GOLD',
 * 'WELCOME_COUPON', ...) become datatype constructors of the same names.
 */
module RuleEngine {
  import opened JavaNumbers
  import MathFunctions

  // ---------------------------------------------------------------------------
  // Loan eligibility
  // ---------------------------------------------------------------------------

  /** The fields of a LoanApplication that the eligibility rule reads. */
  datatype LoanApplication = LoanApplication(
    age: int,
    monthlyIncome: real,
    loanAmount: real,
    creditScore: int,
    hasCollateral: bool,
    employmentYears: int)

  /** The lowest acceptable credit score; collateral lowers it. */
  function CreditFloor(hasCollateral: bool): int {
    if hasCollateral then 550 else 600
  }

  /** `age >= 18 && age <= 65 && income >= amount * 0.1
      && (collateral ? credit >= 550 : credit >= 600) && years >= 1` */
  function EvaluateLoanEligibility(app: LoanApplication): (eligible: bool)
    ensures eligible <==>
      && 18 <= app.age <= 65
      && 10.0 * app.monthlyIncome >= app.loanAmount
      && app.creditScore >= CreditFloor(app.hasCollateral)
      && app.employmentYears >= 1
  {
    && app.age >= 18
    && app.age <= 65
    && app.monthlyIncome >= app.loanAmount * 0.1
    && (if app.hasCollateral then app.creditScore >= 550 else app.creditScore >= 600)
    && app.employmentYears >= 1
  }

  /** An application that is at least as strong in every respect stays eligible: more income,
      a smaller loan, a higher credit score, collateral added, more years employed. */
  lemma LoanEligibilityMonotone(app: LoanApplication, better: LoanApplication)
    requires EvaluateLoanEligibility(app)
    requires better.age == app.age
    requires better.monthlyIncome >= app.monthlyIncome
    requires better.loanAmount <= app.loanAmount
    requires better.creditScore >= app.creditScore
    requires app.hasCollateral ==> better.hasCollateral
    requires better.employmentYears >= app.employmentYears
    ensures EvaluateLoanEligibility(better)
  {
  }

  /** An income of exactly a tenth of the loan qualifies: the comparison is `>=`, although the
      rule's Javadoc says the income must exceed that tenth. */
  lemma LoanIncomeBoundInclusive()
    ensures EvaluateLoanEligibility(LoanApplication(30, 1000.0, 10000.0, 700, false, 2))
    ensures !EvaluateLoanEligibility(LoanApplication(30, 999.0, 10000.0, 700, false, 2))
  {
  }

  /** Collateral is what admits a score between 550 and 599. */
  lemma LoanCollateralLowersFloor(app: LoanApplication)
    requires 18 <= app.age <= 65 && 10.0 * app.monthlyIncome >= app.loanAmount
    requires app.employmentYears >= 1
    requires 550 <= app.creditScore < 600
    ensures EvaluateLoanEligibility(app) <==> app.hasCollateral
  {
  }

  /** Both age limits are inclusive and nothing outside them qualifies. */
  lemma LoanAgeLimits(app: LoanApplication)
    ensures app.age < 18 || app.age > 65 ==> !EvaluateLoanEligibility(app)
    ensures EvaluateLoanEligibility(app.(age := 30)) ==>
      EvaluateLoanEligibility(app.(age := 18)) && EvaluateLoanEligibility(app.(age := 65))
  {
  }

  // ---------------------------------------------------------------------------
  // Loan rate
  // ---------------------------------------------------------------------------

  /** `credit >= 750 ? 0.04 : (credit >= 700 ? 0.05 : (credit >= 650 ? 0.06 :
      (credit >= 600 ? 0.07 : 0.08)))` */
  function BaseLoanRate(credit: int): (rate: real)
    ensures 0.04 <= rate <= 0.08
  {
    if credit >= 750 then 0.04
    else if credit >= 700 then 0.05
    else if credit >= 650 then 0.06
    else if credit >= 600 then 0.07
    else 0.08
  }

  /** The number of the cut-offs 600, 650, 700 and 750 a score reaches. */
  function CutOffsReached(credit: int): (k: nat)
    ensures k <= 4
  {
    (if credit >= 600 then 1 else 0) + (if credit >= 650 then 1 else 0)
    + (if credit >= 700 then 1 else 0) + (if credit >= 750 then 1 else 0)
  }

  /** The base rate starts at 8% and every cut-off reached takes one point off. */
  lemma BaseLoanRateCountsCutOffs(credit: int)
    ensures BaseLoanRate(credit) == 0.08 - 0.01 * CutOffsReached(credit) as real
  {
  }

  /** A higher score never pays a higher base rate. */
  lemma BaseLoanRateNonIncreasing(credit: int, credit': int)
    requires credit <= credit'
    ensures BaseLoanRate(credit') <= BaseLoanRate(credit)
  {
  }

  /** The base rate, one point lower with collateral. */
  function CalculateLoanRate(creditScore: int, hasCollateral: bool): (rate: real)
    ensures 0.03 <= rate <= 0.08
    ensures rate == BaseLoanRate(creditScore) || rate == BaseLoanRate(creditScore) - 0.01
  {
    BaseLoanRate(creditScore) - (if hasCollateral then 0.01 else 0.0)
  }

  /** Collateral saves exactly one percentage point at every score. */
  lemma LoanRateCollateralSaving(creditScore: int)
    ensures CalculateLoanRate(creditScore, false) - CalculateLoanRate(creditScore, true) == 0.01
  {
  }

  /** A higher score, or added collateral, never raises the rate. */
  lemma LoanRateNonIncreasing(credit: int, collateral: bool, credit': int, collateral': bool)
    requires credit <= credit'
    requires collateral ==> collateral'
    ensures CalculateLoanRate(credit', collateral') <= CalculateLoanRate(credit, collateral)
  {
    BaseLoanRateNonIncreasing(credit, credit');
  }

  /** The cut-offs are inclusive: each is the first score of its rate. */
  lemma LoanRateCutOffsInclusive()
    ensures CalculateLoanRate(750, false) == 0.04 && CalculateLoanRate(749, false) == 0.05
    ensures CalculateLoanRate(600, false) == 0.07 && CalculateLoanRate(599, false) == 0.08
    ensures CalculateLoanRate(750, true) == 0.03 && CalculateLoanRate(599, true) == 0.07
  {
  }

  // ---------------------------------------------------------------------------
  // User level
  // ---------------------------------------------------------------------------

  datatype UserLevel = NORMAL | BRONZE | SILVER | GOLD | DIAMOND

  function LevelRank(l: UserLevel): nat {
    match l
    case NORMAL => 0
    case BRONZE => 1
    case SILVER => 2
    case GOLD => 3
    case DIAMOND => 4
  }

  /** The spending and order thresholds of each level, read as a table; NORMAL has none. */
  predicate QualifiesForLevel(l: UserLevel, spent: real, orders: int) {
    match l
    case NORMAL => true
    case BRONZE => spent >= 500.0 && orders >= 5
    case SILVER => spent >= 2000.0 && orders >= 15
    case GOLD => spent >= 5000.0 && orders >= 30
    case DIAMOND => spent >= 10000.0 && orders >= 50
  }

  /** `spent >= 10000 && orders >= 50 ? 'DIAMOND' : (spent >= 5000 && orders >= 30 ? 'GOLD' :
      (spent >= 2000 && orders >= 15 ? 'SILVER' : (spent >= 500 && orders >= 5 ? 'BRONZE' :
      'NORMAL')))`: the result is the highest level whose thresholds are both met. */
  function EvaluateUserLevel(spent: real, orders: int): (level: UserLevel)
    ensures QualifiesForLevel(level, spent, orders)
    ensures forall l :: QualifiesForLevel(l, spent, orders) ==> LevelRank(l) <= LevelRank(level)
  {
    if spent >= 10000.0 && orders >= 50 then DIAMOND
    else if spent >= 5000.0 && orders >= 30 then GOLD
    else if spent >= 2000.0 && orders >= 15 then SILVER
    else if spent >= 500.0 && orders >= 5 then BRONZE
    else NORMAL
  }

  /** More spending and more orders never lower the level. */
  lemma UserLevelMonotone(spent: real, orders: int, spent': real, orders': int)
    requires spent <= spent' && orders <= orders'
    ensures LevelRank(EvaluateUserLevel(spent, orders)) <= LevelRank(EvaluateUserLevel(spent', orders'))
  {
    var l := EvaluateUserLevel(spent, orders);
    assert QualifiesForLevel(l, spent', orders');
  }

  /** Both thresholds must be met: a large spender with few orders is only as high as the
      orders allow. */
  lemma UserLevelNeedsBothThresholds()
    ensures EvaluateUserLevel(20000.0, 4) == NORMAL
    ensures EvaluateUserLevel(10000.0, 49) == GOLD
    ensures EvaluateUserLevel(10000.0, 50) == DIAMOND
  {
  }

  // ---------------------------------------------------------------------------
  // Risk score
  // ---------------------------------------------------------------------------

  /** The unclamped score read with exact arithmetic throughout: one point per ten credit
      points, one per thousand of income, 20 for an age in 25..55 and 10 otherwise, minus 30 per
      unit of debt ratio and 30 for a recorded default. */
  function ExactRiskScore(age: int, income: real, creditScore: int, debtRatio: real, hasDefault: bool): real {
    (creditScore as real) / 10.0 + income / 1000.0
    + (if 25 <= age <= 55 then 20.0 else 10.0)
    - 30.0 * debtRatio
    - (if hasDefault then 30.0 else 0.0)
  }

  /** The unclamped score `(credit / 10) + (income / 1000) + (age >= 25 && age <= 55 ? 20 : 10)
      - (debt * 30) - (defaulted ? 30 : 0)`. The credit score is an integer, so `credit / 10`
      is Java's integer division: the score falls short of the exact one by less than a point
      for a non-negative credit score, and exceeds it by less than a point for a negative one. */
  function RawRiskScore(age: int, income: real, creditScore: int, debtRatio: real, hasDefault: bool): (raw: real)
    ensures creditScore >= 0 ==>
      ExactRiskScore(age, income, creditScore, debtRatio, hasDefault) - 0.9 <= raw
      <= ExactRiskScore(age, income, creditScore, debtRatio, hasDefault)
    ensures creditScore < 0 ==>
      ExactRiskScore(age, income, creditScore, debtRatio, hasDefault) <= raw
      <= ExactRiskScore(age, income, creditScore, debtRatio, hasDefault) + 0.9
  {
    CreditPointsBounds(creditScore);
    JavaDiv(creditScore, 10) as real + income / 1000.0
    + (if age >= 25 && age <= 55 then 20.0 else 10.0)
    - debtRatio * 30.0
    - (if hasDefault then 30.0 else 0.0)
  }

  /** `credit / 10` in Java keeps the whole tens of the score, rounded toward zero. */
  lemma CreditPointsBounds(creditScore: int)
    ensures creditScore >= 0 ==> 10 * JavaDiv(creditScore, 10) <= creditScore <= 10 * JavaDiv(creditScore, 10) + 9
    ensures creditScore < 0 ==> 10 * JavaDiv(creditScore, 10) - 9 <= creditScore <= 10 * JavaDiv(creditScore, 10)
  {
    JavaDivRem(creditScore, 10);
  }

  /** `math.max(0, math.min(100, raw))` read back with intValue(). */
  function ClampRiskScore(raw: real): (score: int)
    ensures 0 <= score <= 100
    ensures raw <= 0.0 ==> score == 0
    ensures raw >= 100.0 ==> score == 100
    ensures 0.0 <= raw <= 100.0 ==> score as real <= raw < score as real + 1.0
  {
    IntValue(MathFunctions.MathMax(Integral(0), MathFunctions.MathMin(Integral(100), Double(raw))))
  }

  /** calculateRiskScore: the score always lies in [0, 100]. */
  function CalculateRiskScore(age: int, income: real, creditScore: int, debtRatio: real, hasDefault: bool): (score: int)
    ensures 0 <= score <= 100
  {
    ClampRiskScore(RawRiskScore(age, income, creditScore, debtRatio, hasDefault))
  }

  /** A better applicant never scores lower: a higher credit score or income, a lower debt
      ratio, or no default never decreases the risk score (the age bonus held fixed). */
  lemma RiskScoreMonotone(age: int, income: real, creditScore: int, debtRatio: real, hasDefault: bool,
                          income': real, creditScore': int, debtRatio': real, hasDefault': bool)
    requires income <= income' && creditScore <= creditScore' && debtRatio' <= debtRatio
    requires hasDefault' ==> hasDefault
    ensures CalculateRiskScore(age, income, creditScore, debtRatio, hasDefault)
         <= CalculateRiskScore(age, income', creditScore', debtRatio', hasDefault')
  {
    CreditPointsBounds(creditScore);
    CreditPointsBounds(creditScore');
    assert JavaDiv(creditScore, 10) <= JavaDiv(creditScore', 10);
    ClampRiskScoreMonotone(RawRiskScore(age, income, creditScore, debtRatio, hasDefault),
                           RawRiskScore(age, income', creditScore', debtRatio', hasDefault'));
  }

  /** Clamping keeps the order of the raw values. */
  lemma ClampRiskScoreMonotone(raw: real, raw': real)
    requires raw <= raw'
    ensures ClampRiskScore(raw) <= ClampRiskScore(raw')
  {
  }

  // ---------------------------------------------------------------------------
  // Coupon type
  // ---------------------------------------------------------------------------

  datatype CouponType = WELCOME_COUPON | VIP_COUPON | REGULAR_COUPON | TRIAL_COUPON | NO_COUPON

  /** The order of the coupons a returning user can get. */
  function CouponRank(c: CouponType): nat {
    match c
    case NO_COUPON => 0
    case TRIAL_COUPON => 1
    case REGULAR_COUPON => 2
    case VIP_COUPON => 3
    case WELCOME_COUPON => 4
  }

  /** The thresholds of each returning-user coupon, read as a table. */
  predicate QualifiesForCoupon(c: CouponType, days: int, orders: int, avgValue: real) {
    match c
    case WELCOME_COUPON => false
    case VIP_COUPON => days >= 30 && orders >= 20 && avgValue >= 200.0
    case REGULAR_COUPON => days >= 15 && orders >= 10
    case TRIAL_COUPON => days >= 7
    case NO_COUPON => true
  }

  /** `newUser ? 'WELCOME_COUPON' : (days >= 30 && orders >= 20 && avgValue >= 200 ?
      'VIP_COUPON' : (days >= 15 && orders >= 10 ? 'REGULAR_COUPON' : (days >= 7 ?
      'TRIAL_COUPON' : 'NO_COUPON')))` */
  function DetermineCouponType(loginDays: int, orderCount: int, averageOrderValue: real, isNewUser: bool): (coupon: CouponType)
    ensures isNewUser <==> coupon == WELCOME_COUPON
    ensures !isNewUser ==> QualifiesForCoupon(coupon, loginDays, orderCount, averageOrderValue)
    ensures !isNewUser ==> forall c :: QualifiesForCoupon(c, loginDays, orderCount, averageOrderValue) ==>
      CouponRank(c) <= CouponRank(coupon)
  {
    if isNewUser then WELCOME_COUPON
    else if loginDays >= 30 && orderCount >= 20 && averageOrderValue >= 200.0 then VIP_COUPON
    else if loginDays >= 15 && orderCount >= 10 then REGULAR_COUPON
    else if loginDays >= 7 then TRIAL_COUPON
    else NO_COUPON
  }

  /** A new user gets the welcome coupon whatever the other inputs; a returning user with fewer
      than seven login days gets nothing. */
  lemma CouponShortcuts(days: int, orders: int, avgValue: real)
    ensures DetermineCouponType(days, orders, avgValue, true) == WELCOME_COUPON
    ensures days < 7 ==> DetermineCouponType(days, orders, avgValue, false) == NO_COUPON
  {
  }

  /** For a returning user, more login days, orders or order value never give a lesser coupon. */
  lemma CouponMonotone(days: int, orders: int, avg: real, days': int, orders': int, avg': real)
    requires days <= days' && orders <= orders' && avg <= avg'
    ensures CouponRank(DetermineCouponType(days, orders, avg, false))
         <= CouponRank(DetermineCouponType(days', orders', avg', false))
  {
    var c := DetermineCouponType(days, orders, avg, false);
    assert QualifiesForCoupon(c, days', orders', avg');
  }

  // ---------------------------------------------------------------------------
  // Grade
  // ---------------------------------------------------------------------------

  datatype Grade = A | B | C | D | F

  function GradeRank(g: Grade): nat {
    match g
    case F => 0
    case D => 1
    case C => 2
    case B => 3
    case A => 4
  }

  /** `score >= 90 ? 'A' : (score >= 80 ? 'B' : (score >= 70 ? 'C' : (score >= 60 ? 'D' : 'F')))` */
  function EvaluateGrade(score: int): (g: Grade)
    ensures g == A <==> score >= 90
    ensures g == B <==> 80 <= score < 90
    ensures g == C <==> 70 <= score < 80
    ensures g == D <==> 60 <= score < 70
    ensures g == F <==> score < 60
  {
    if score >= 90 then A
    else if score >= 80 then B
    else if score >= 70 then C
    else if score >= 60 then D
    else F
  }

  /** A higher score never yields a worse grade. */
  lemma GradeMonotone(score: int, score': int)
    requires score <= score'
    ensures GradeRank(EvaluateGrade(score)) <= GradeRank(EvaluateGrade(score'))
  {
  }

  /** Above 60 the grade is the tens digit counted down from A at 90: each band is ten points
      wide. */
  lemma GradeBandsAreTenWide(score: int)
    requires 60 <= score < 100
    ensures GradeRank(EvaluateGrade(score)) == score / 10 - 5
  {
  }
}
