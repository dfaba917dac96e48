/** The colour rule of the poker-chip counter: the mean (blue, green, red)
    colour inside one contour is mapped to a chip category and the chip's
    value. Money is kept in integer cents. */
module ChipColors {

  /** A colour triple in capture order: blue, green, red. The channels are
      means of 8-bit intensities, so they are reals. */
  datatype Bgr = Bgr(b: real, g: real, r: real)

  /** The reference triples the rules compare against. */
  const BlackRef: Bgr := Bgr(30.0, 30.0, 30.0)
  const WhiteRef: Bgr := Bgr(220.0, 220.0, 220.0)
  const GreenRef: Bgr := Bgr(0.0, 128.0, 0.0)
  const RedRef: Bgr := Bgr(0.0, 0.0, 255.0)

  datatype Category = Black | White | Green | Red | Unknown

  /** What the classifier returns for one contour: the category and its value. */
  datatype Detection = Detection(category: Category, cents: nat)

  /** The exact mean of 8-bit channel values lies in [0, 255] on every channel. */
  predicate InRange(m: Bgr) {
    0.0 <= m.b <= 255.0 && 0.0 <= m.g <= 255.0 && 0.0 <= m.r <= 255.0
  }

  // The four rules, each a conjunction of strict comparisons against one
  // reference triple, in the order the source writes the comparisons.

  predicate IsBlack(m: Bgr) {
    m.b < BlackRef.b && m.g < BlackRef.g && m.r < BlackRef.r
  }

  predicate IsWhite(m: Bgr) {
    m.b > WhiteRef.b && m.g > WhiteRef.g && m.r > WhiteRef.r
  }

  predicate IsGreen(m: Bgr) {
    m.g > GreenRef.g && m.b < GreenRef.b && m.r < GreenRef.r
  }

  predicate IsRed(m: Bgr) {
    m.r > RedRef.r && m.g < RedRef.g && m.b < RedRef.b
  }

  /** The rule that selects category `c`; the fallback holds of every triple. */
  predicate RuleHolds(c: Category, m: Bgr) {
    match c
    case Black => IsBlack(m)
    case White => IsWhite(m)
    case Green => IsGreen(m)
    case Red => IsRed(m)
    case Unknown => true
  }

  /** Position of each rule in the priority order; lower is tried first. */
  function Rank(c: Category): (k: nat)
    ensures k <= 4
    ensures c == Unknown <==> k == 4
  {
    match c
    case Black => 0
    case White => 1
    case Green => 2
    case Red => 3
    case Unknown => 4
  }

  /** The fixed value, in cents, of a chip of each category. */
  function ValueCents(c: Category): (cents: nat)
    ensures cents <= 500
    ensures cents == 0 <==> c == Unknown
  {
    match c
    case Black => 500
    case White => 10
    case Green => 100
    case Red => 20
    case Unknown => 0
  }

  /** The category chosen for `m` under first-match-wins: its rule holds
      and the rule of every category tried before it fails. */
  predicate FirstMatch(c: Category, m: Bgr) {
    RuleHolds(c, m) && forall d: Category :: Rank(d) < Rank(c) ==> !RuleHolds(d, m)
  }

  /** Classifies a mean colour triple: the first rule that holds decides the
      category, and the value is the one bound to that category. */
  function DetectColor(m: Bgr): (res: Detection)
    ensures FirstMatch(res.category, m)
    ensures res.cents == ValueCents(res.category)
  {
    if IsBlack(m) then Detection(Black, ValueCents(Black))
    else if IsWhite(m) then Detection(White, ValueCents(White))
    else if IsGreen(m) then Detection(Green, ValueCents(Green))
    else if IsRed(m) then Detection(Red, ValueCents(Red))
    else Detection(Unknown, ValueCents(Unknown))
  }

  /** Exactly one category is the first match of any triple, and it is the
      one the classifier returns. */
  lemma FirstMatchUnique(m: Bgr, c: Category)
    ensures FirstMatch(c, m) <==> c == DetectColor(m).category
  {
  }

  /** The black rule is tried first: a triple below 30 on every channel is
      black with value 5.00. */
  lemma BlackWins(m: Bgr)
    requires m.b < 30.0 && m.g < 30.0 && m.r < 30.0
    ensures DetectColor(m) == Detection(Black, 500)
  {
  }

  /** Two triples with the same category carry the same value. */
  lemma ValueDependsOnlyOnCategory(m1: Bgr, m2: Bgr)
    requires DetectColor(m1).category == DetectColor(m2).category
    ensures DetectColor(m1).cents == DetectColor(m2).cents
  {
  }

  /** The thresholds are strict: a triple with any channel on or beyond the
      black threshold is not black, one with any channel on or below the white
      threshold is not white; (30, 30, 30) and (220, 220, 220) are unknown. */
  lemma StrictThresholds(m: Bgr)
    ensures (m.b >= 30.0 || m.g >= 30.0 || m.r >= 30.0) ==> DetectColor(m).category != Black
    ensures (m.b <= 220.0 || m.g <= 220.0 || m.r <= 220.0) ==> DetectColor(m).category != White
    ensures DetectColor(Bgr(30.0, 30.0, 30.0)) == Detection(Unknown, 0)
    ensures DetectColor(Bgr(220.0, 220.0, 220.0)) == Detection(Unknown, 0)
  {
  }

  /** No triple satisfies two of the four rules, so the priority order never
      changes which category a triple gets. */
  lemma RulesDisjoint(m: Bgr)
    ensures !(IsBlack(m) && IsWhite(m))
    ensures !(IsBlack(m) && IsGreen(m))
    ensures !(IsBlack(m) && IsRed(m))
    ensures !(IsWhite(m) && IsGreen(m))
    ensures !(IsWhite(m) && IsRed(m))
    ensures !(IsGreen(m) && IsRed(m))
  {
  }

  /** The green and the red rule both need blue < 0, so a triple whose blue
      mean is not negative (every mean of 8-bit samples, rounding included)
      is black, white or unknown. */
  lemma NonNegativeBlueOnlyBlackWhiteUnknown(m: Bgr)
    requires m.b >= 0.0
    ensures DetectColor(m).category in {Black, White, Unknown}
    ensures DetectColor(m).category == Black <==> IsBlack(m)
    ensures DetectColor(m).category == White <==> IsWhite(m)
  {
  }

  /** Black, white and unknown are each reached by some in-range triple. */
  lemma InRangeCategoriesReachable()
    ensures InRange(Bgr(10.0, 10.0, 10.0)) && DetectColor(Bgr(10.0, 10.0, 10.0)).category == Black
    ensures InRange(Bgr(240.0, 240.0, 240.0)) && DetectColor(Bgr(240.0, 240.0, 240.0)).category == White
    ensures InRange(Bgr(128.0, 128.0, 128.0)) && DetectColor(Bgr(128.0, 128.0, 128.0)).category == Unknown
  {
  }

  /** The green and red branches are live code only for triples outside the
      channel range: each needs a negative mean on some channel. */
  lemma GreenRedNeedOutOfRange(m: Bgr)
    ensures DetectColor(m).category == Green ==> m.b < 0.0 && m.r < 0.0 && m.g > 128.0
    ensures DetectColor(m).category == Red ==> m.r > 255.0 && m.g < 0.0 && m.b < 0.0
    ensures DetectColor(Bgr(-1.0, 200.0, -1.0)).category == Green
    ensures DetectColor(Bgr(-1.0, -1.0, 300.0)).category == Red
  {
  }
}
