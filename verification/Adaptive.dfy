/**
 * Adaptive proposals: the deterministic analysis that suggests a smaller target,
 * a lighter weekly quota or another time, and where chains of accepted
 * suggestions end. Arithmetic is exact.
 */
module Adaptive {
  import opened Common

  const MIN_COMPLETION_SAMPLES: nat := 6
  const REDUCE_TARGET_RATE_MAX: real := 0.55
  const MINIMUM_SHARE_MIN: real := 0.45
  const FULL_SHARE_MAX: real := 0.35
  const EMERGENCY_COUNT_MIN: nat := 4
  const REDUCE_FREQUENCY_TPW_MIN: int := 5
  const REDUCE_FREQUENCY_RATE_MAX: real := 0.5
  const NEW_TPW_FLOOR: int := 2
  const CONFIDENCE_FLOOR: real := 0.6
  const TIME_IMPROVEMENT_RATIO: real := 1.5

  datatype TimeBucket = TimeBucket(code: string, count: nat)

  /** What the analytics say about the last 30 days. */
  datatype Report = Report(
    insufficientHistory: bool,
    completions: nat,
    rate30: Option<real>,
    rate7: Option<real>,
    previousWeekRate: Option<real>,
    minimumShare: Option<real>,
    fullShare: Option<real>,
    emergencyCount: nat,
    momentumStrong: bool,
    consistent: bool,
    tooHard: bool,
    declining: bool,
    best: Option<TimeBucket>,
    worst: Option<TimeBucket>,
    scheduledBucket: Option<string>)

  datatype Shape = Shape(goal: real, quotaBased: bool, timesPerWeek: Option<int>, scheduledTime: Option<string>)

  datatype State =
    | NoChange | TooHard | TimingProblem | ConsistencyImproving | ConsistencyDeclining
    | MinimumOverused | EmergencyOverused | InsufficientEvidence

  datatype Proposal =
    | ReduceTarget(goal: real)
    | ReduceFrequency(timesPerWeek: int)
    | ChangeTime(scheduledTime: string)

  datatype Analysis = Analysis(state: State, confidence: real, proposal: Option<Proposal>)

  // ---- The analysis ----------------------------------------------------------------

  function Floor(x: real): int { x.Floor }

  /** Two decimals. */
  function Round2(x: real): real { Floor(x * 100.0 + 0.5) as real / 100.0 }

  function Capped(x: real): real { if x <= 1.0 then x else 1.0 }

  function HalvedGoal(goal: real): real { if Floor(goal * 0.5) >= 1 then Floor(goal * 0.5) as real else 1.0 }

  function LighterQuota(quota: int): int { Max(NEW_TPW_FLOOR, quota * 3 / 5) }

  function SuggestedTime(bucket: string): Option<string> {
    if bucket == "EARLY_MORNING" then Some("06:30")
    else if bucket == "MORNING" then Some("09:30")
    else if bucket == "AFTERNOON" then Some("14:00")
    else if bucket == "EVENING" then Some("18:30")
    else if bucket == "NIGHT" then Some("21:30")
    else None
  }

  predicate Thriving(r: Report) { r.rate30.GetOr(0.0) >= 0.8 && (r.momentumStrong || r.consistent) }

  predicate MinimumOveruse(r: Report) {
    r.minimumShare.GetOr(0.0) >= MINIMUM_SHARE_MIN && r.fullShare.GetOr(0.0) <= FULL_SHARE_MAX
  }

  predicate EmergencyCrutch(r: Report) { r.emergencyCount >= EMERGENCY_COUNT_MIN && r.rate30.GetOr(0.0) <= 0.6 }

  predicate TargetEligible(r: Report, goal: real) {
    r.tooHard && r.rate30.GetOr(0.0) <= REDUCE_TARGET_RATE_MAX && goal > 1.0
  }

  predicate FrequencyEligible(r: Report, s: Shape) {
    s.quotaBased && s.timesPerWeek.GetOr(0) >= REDUCE_FREQUENCY_TPW_MIN
    && r.rate30.GetOr(0.0) <= REDUCE_FREQUENCY_RATE_MAX
  }

  function WeekChange(r: Report): Option<real> {
    match r.previousWeekRate
    case None => None
    case Some(previous) => Some(r.rate7.GetOr(0.0) - previous)
  }

  function TargetConfidence(r: Report): real {
    Round2(Capped(0.4
                  + (if r.rate30.GetOr(0.0) <= 0.35 then 0.25 else 0.15)
                  + (if MinimumOveruse(r) then 0.2 else 0.0)
                  + (if EmergencyCrutch(r) then 0.1 else 0.0)
                  + (if r.declining then 0.05 else 0.0)))
  }

  function FrequencyConfidence(quota: int, tooHard: bool): real {
    Round2(Capped(0.45
                  + (quota - LighterQuota(quota)) as real / Max(1, quota) as real * 0.3
                  + (if tooHard then 0.15 else 0.0)))
  }

  /** The better time bucket to move to, if the evidence clearly favours one. */
  function BetterTime(r: Report, s: Shape): Option<string> {
    if r.best.Some? && r.worst.Some? && r.scheduledBucket.Some? && r.scheduledBucket.value != ""
       && r.best.value.code != r.scheduledBucket.value
       && r.best.value.count as real >= r.worst.value.count as real * TIME_IMPROVEMENT_RATIO
       && s.scheduledTime.Some? && s.scheduledTime.value != ""
    then SuggestedTime(r.best.value.code)
    else None
  }

  function Advice(r: Report): Analysis {
    if EmergencyCrutch(r) then Analysis(EmergencyOverused, 0.5, None)
    else if MinimumOveruse(r) then Analysis(MinimumOverused, 0.5, None)
    else if WeekChange(r).Some? && WeekChange(r).value <= -0.15 then Analysis(ConsistencyDeclining, 0.5, None)
    else Analysis(NoChange, Round2(Capped(r.rate30.GetOr(0.0))), None)
  }

  function Analyze(r: Report, s: Shape): Analysis {
    if r.insufficientHistory || r.completions < MIN_COMPLETION_SAMPLES then Analysis(InsufficientEvidence, 0.0, None)
    else if Thriving(r) then
      Analysis(if WeekChange(r).Some? && WeekChange(r).value >= 0.15 then ConsistencyImproving else NoChange,
               Round2(Capped(r.rate30.GetOr(0.0))), None)
    else if TargetEligible(r, s.goal) then
      Analysis(if MinimumOveruse(r) then MinimumOverused else TooHard,
               TargetConfidence(r), Some(ReduceTarget(HalvedGoal(s.goal))))
    else if FrequencyEligible(r, s) then
      var quota := s.timesPerWeek.GetOr(0);
      Analysis(TooHard, FrequencyConfidence(quota, r.tooHard), Some(ReduceFrequency(LighterQuota(quota))))
    else if BetterTime(r, s).Some? then
      var share := r.best.value.count as real / 20.0;
      Analysis(TimingProblem, Round2(Capped(0.5 + (if share <= 0.3 then share else 0.3))),
               Some(ChangeTime(BetterTime(r, s).value)))
    else Advice(r)
  }

  /** What the user is shown: proposals below the confidence floor are withheld. */
  function Suggest(r: Report, s: Shape): Option<Proposal> {
    var a := Analyze(r, s);
    if a.confidence < CONFIDENCE_FLOOR then None else a.proposal
  }

  // ---- Every proposal shrinks ---------------------------------------------------------

  lemma FrequencyShare(quota: int)
    requires quota >= REDUCE_FREQUENCY_TPW_MIN
    ensures NEW_TPW_FLOOR < LighterQuota(quota) < quota
    ensures 0.0 <= (quota - LighterQuota(quota)) as real / Max(1, quota) as real <= 1.0
  {
    var part, whole := (quota - LighterQuota(quota)) as real, quota as real;
    var share := part / whole;
    assert share * whole == part && 0.0 <= part <= whole;
    assert share > 1.0 ==> share * whole > whole;
    assert share < 0.0 ==> share * whole < 0.0;
  }

  /**
   * A proposed goal is a whole number of at least one and below the current goal,
   * at most half of it unless it is one; a proposed quota is at least two and
   * below the current one; the confidence is in [0, 1].
   */
  lemma ProposalsShrink(r: Report, s: Shape)
    requires r.rate30.Some? ==> 0.0 <= r.rate30.value <= 1.0
    ensures var a := Analyze(r, s);
            && 0.0 <= a.confidence <= 1.0
            && (match a.proposal
                case Some(ReduceTarget(goal)) =>
                  1.0 <= goal < s.goal && goal == Floor(goal) as real && (goal == 1.0 || goal * 2.0 <= s.goal)
                case Some(ReduceFrequency(quota)) => 2 <= quota < s.timesPerWeek.GetOr(0)
                case Some(ChangeTime(time)) => r.best.Some? && Some(r.best.value.code) != r.scheduledBucket
                case None => true)
  {
    var quota := s.timesPerWeek.GetOr(0);
    if quota >= REDUCE_FREQUENCY_TPW_MIN {
      FrequencyShare(quota);
    }
  }

  /** A target reduction is shown exactly when one more sign backs the low rate. */
  lemma TargetShownWhen(r: Report, s: Shape)
    requires !r.insufficientHistory && r.completions >= MIN_COMPLETION_SAMPLES && TargetEligible(r, s.goal)
    ensures Suggest(r, s).Some? <==>
            r.rate30.GetOr(0.0) <= 0.35 || MinimumOveruse(r) || EmergencyCrutch(r) || r.declining
  {
  }

  /** Of the weekly quotas, only six days is lightened without the habit being flagged as too hard. */
  lemma FrequencyShownWhen(r: Report, s: Shape)
    requires !r.insufficientHistory && r.completions >= MIN_COMPLETION_SAMPLES
    requires !TargetEligible(r, s.goal) && FrequencyEligible(r, s) && s.timesPerWeek.value <= 7
    ensures Suggest(r, s).Some? <==> r.tooHard || s.timesPerWeek.value == 6
  {
    var quota := s.timesPerWeek.value;
    assert quota == 5 || quota == 6 || quota == 7;
  }

  // ---- What is proposed, told from the report ------------------------------------------

  /** Enough history, and a habit that does not already go well. */
  predicate Considered(r: Report) {
    && !r.insufficientHistory && r.completions >= 6
    && !(r.rate30.GetOr(0.0) >= 0.8 && (r.momentumStrong || r.consistent))
  }

  predicate LowTarget(r: Report, s: Shape) {
    Considered(r) && r.tooHard && r.rate30.GetOr(0.0) <= 0.55 && s.goal > 1.0
  }

  predicate HighQuota(r: Report, s: Shape) {
    && Considered(r) && !LowTarget(r, s) && r.rate30.GetOr(0.0) <= 0.5
    && s.quotaBased && s.timesPerWeek.GetOr(0) >= 5
  }

  /** Half the goal in whole units, one at least; each sign adds its hundredths to the confidence. */
  lemma TargetAnswers(r: Report, s: Shape)
    ensures var a := Analyze(r, s);
            var minimum := r.minimumShare.GetOr(0.0) >= 0.45 && r.fullShare.GetOr(0.0) <= 0.35;
            && (LowTarget(r, s) <==> a.proposal.Some? && a.proposal.value.ReduceTarget?)
            && (LowTarget(r, s) ==>
                  var g := a.proposal.value.goal;
                  && (if s.goal < 4.0 then g == 1.0
                      else g == g.Floor as real && 2.0 * g <= s.goal < 2.0 * g + 2.0)
                  && a.state == (if minimum then MinimumOverused else TooHard)
                  && a.confidence * 100.0
                     == 40.0 + (if r.rate30.GetOr(0.0) <= 0.35 then 25.0 else 15.0) + (if minimum then 20.0 else 0.0)
                      + (if r.emergencyCount >= 4 && r.rate30.GetOr(0.0) <= 0.6 then 10.0 else 0.0)
                      + (if r.declining then 5.0 else 0.0))
  {
  }

  /** Three fifths of the quota, rounded down. */
  lemma FrequencyAnswers(r: Report, s: Shape)
    ensures var a := Analyze(r, s);
            && (HighQuota(r, s) <==> a.proposal.Some? && a.proposal.value.ReduceFrequency?)
            && (HighQuota(r, s) ==>
                  var n, q := a.proposal.value.timesPerWeek, s.timesPerWeek.value;
                  5 * n <= 3 * q < 5 * n + 5 && a.state == TooHard)
  {
  }

  /** Another time: the better bucket's own, if it has half again as many completions as the worst. */
  lemma TimeAnswers(r: Report, s: Shape)
    ensures var a := Analyze(r, s);
            && ((a.proposal.Some? && a.proposal.value.ChangeTime?) <==>
                && Considered(r) && !LowTarget(r, s) && !HighQuota(r, s)
                && r.best.Some? && r.worst.Some? && 2 * r.best.value.count >= 3 * r.worst.value.count
                && r.scheduledBucket.Some? && r.scheduledBucket.value !in {"", r.best.value.code}
                && s.scheduledTime.Some? && s.scheduledTime.value != ""
                && r.best.value.code in {"EARLY_MORNING", "MORNING", "AFTERNOON", "EVENING", "NIGHT"})
            && ((a.proposal.Some? && a.proposal.value.ChangeTime?) ==>
                  (r.best.value.code, a.proposal.value.scheduledTime)
                  in {("EARLY_MORNING", "06:30"), ("MORNING", "09:30"), ("AFTERNOON", "14:00"),
                      ("EVENING", "18:30"), ("NIGHT", "21:30")})
  {
  }

  // ---- Chains of accepted suggestions ---------------------------------------------------

  function Accept(s: Shape, p: Option<Proposal>): Shape {
    match p
    case Some(ReduceTarget(goal)) => s.(goal := goal)
    case Some(ReduceFrequency(quota)) => s.(timesPerWeek := Some(quota))
    case Some(ChangeTime(time)) => s.(scheduledTime := Some(time))
    case None => s
  }

  predicate CutsTarget(r: Report, s: Shape) { Suggest(r, s).Some? && Suggest(r, s).value.ReduceTarget? }

  /** The habit after accepting everything suggested over a series of reports. */
  function AcceptAll(s: Shape, reports: seq<Report>): Shape
    decreases |reports|
  {
    if reports == [] then s else AcceptAll(Accept(s, Suggest(reports[0], s)), reports[1..])
  }

  /** How many target reductions that series accepts. */
  function Cuts(s: Shape, reports: seq<Report>): nat
    decreases |reports|
  {
    if reports == [] then 0
    else (if CutsTarget(reports[0], s) then 1 else 0) + Cuts(Accept(s, Suggest(reports[0], s)), reports[1..])
  }

  function Pow2(k: nat): (p: nat)
    ensures p >= 1
  {
    if k == 0 then 1 else 2 * Pow2(k - 1)
  }

  /** Dividing by two and then by a power of two is one division. */
  lemma HalveThenDivide(n: nat, p: nat)
    requires p >= 1
    ensures n / 2 / p == n / (2 * p)
  {
    var h := n / 2;
    var q, r := h / p, h % p;
    assert h == q * p + r;
    var rest := 2 * r + n % 2;
    assert n == q * (2 * p) + rest && 0 <= rest < 2 * p;
    var other := n / (2 * p);
    assert n == other * (2 * p) + n % (2 * p);
    assert (q - other) * (2 * p) == n % (2 * p) - rest;
    assert q - other >= 1 ==> (q - other) * (2 * p) >= 2 * p;
    assert q - other <= -1 ==> (q - other) * (2 * p) <= -(2 * p);
  }

  /** A shown reduction is the halved goal, and nothing else moves the goal. */
  lemma CutIsHalf(r: Report, s: Shape)
    ensures CutsTarget(r, s) ==> s.goal > 1.0 && Suggest(r, s) == Some(ReduceTarget(HalvedGoal(s.goal)))
    ensures !CutsTarget(r, s) ==> Accept(s, Suggest(r, s)).goal == s.goal
  {
  }

  lemma HalfFloors(h: nat, bit: nat)
    requires bit < 2
    ensures Floor((2 * h + bit) as real * 0.5) == h
  {
    assert (2 * h + bit) as real == 2.0 * h as real + bit as real;
  }

  lemma HalfOfWhole(n: nat)
    requires n >= 2
    ensures HalvedGoal(n as real) == (n / 2) as real
  {
    HalfFloors(n / 2, n % 2);
    assert 2 * (n / 2) + n % 2 == n;
  }

  lemma StepHalves(r: Report, s: Shape, n: nat)
    requires s.goal == n as real
    ensures CutsTarget(r, s) ==> n >= 2 && Accept(s, Suggest(r, s)).goal == (n / 2) as real
    ensures !CutsTarget(r, s) ==> Accept(s, Suggest(r, s)).goal == s.goal
  {
    CutIsHalf(r, s);
    if CutsTarget(r, s) {
      assert n >= 2;
      HalfOfWhole(n);
    }
  }

  /**
   * From a whole goal n, any series of reports that accepts k target reductions
   * leaves exactly n / 2^k, and k is at most log2 of n.
   */
  lemma {:induction false} ChainHalves(s: Shape, reports: seq<Report>, n: nat)
    requires s.goal == n as real
    ensures var k := Cuts(s, reports);
            AcceptAll(s, reports).goal == (n / Pow2(k)) as real && (k > 0 ==> Pow2(k) <= n)
    decreases |reports|
  {
    if reports != [] {
      var r := reports[0];
      var next := Accept(s, Suggest(r, s));
      StepHalves(r, s, n);
      var k := Cuts(next, reports[1..]);
      if CutsTarget(r, s) {
        ChainHalves(next, reports[1..], n / 2);
        HalveThenDivide(n, Pow2(k));
      } else {
        ChainHalves(next, reports[1..], n);
      }
    }
  }

  /** The bound is met: enough reports that show the reduction bring any whole goal down to one. */
  lemma {:induction false} ChainReachesOne(s: Shape, r: Report, n: nat, steps: nat)
    requires s.goal == n as real && Pow2(steps) <= n < 2 * Pow2(steps)
    requires !r.insufficientHistory && r.completions >= MIN_COMPLETION_SAMPLES
    requires r.tooHard && r.rate30 == Some(0.3)
    ensures var reports := seq(steps, _ => r);
            Cuts(s, reports) == steps && AcceptAll(s, reports).goal == 1.0
    decreases steps
  {
    var reports := seq(steps, _ => r);
    if steps == 0 {
      assert n == 1;
    } else {
      TargetShownWhen(r, s);
      StepHalves(r, s, n);
      assert reports[1..] == seq(steps - 1, _ => r);
      ChainReachesOne(Accept(s, Suggest(r, s)), r, n / 2, steps - 1);
    }
  }

  /** A quota of at most eight days is lightened once: the lighter one is below the threshold for good. */
  lemma QuotaLightenedOnce(r: Report, next: Report, s: Shape)
    requires Suggest(r, s).Some? && Suggest(r, s).value.ReduceFrequency? && s.timesPerWeek.GetOr(0) <= 8
    ensures var after := Accept(s, Suggest(r, s));
            Suggest(next, after).Some? ==> !Suggest(next, after).value.ReduceFrequency?
  {
  }
}
