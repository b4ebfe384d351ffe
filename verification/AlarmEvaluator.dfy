/** Alarm evaluation with hysteresis, over the reals. */
module AlarmEvaluator {
  import opened Common

  datatype AlarmState = OK | Lo | Hi | LoLo | HiHi | Uncertain | Bad | CommLoss | Offline

  datatype Quality =
    | QualityOK | QualityHi | QualityHiHi | QualityUncertain | QualityBad | QualityCommLoss | QualityOffline | QualityAcknowledged

  datatype Setpoints = Setpoints(loLo: Option<real>, lo: Option<real>, hi: Option<real>, hiHi: Option<real>)

  const DEFAULT_HYSTERESIS_PERCENT := 2.0

  /** The new state, and whether it differs from the previous one. */
  function EvaluateAlarmState(
    prev: AlarmState, value: Option<real>, quality: Quality, setpoints: Setpoints, hysteresisPercent: real): (AlarmState, bool)
  {
    var next := ResolveAlarmState(value, quality, setpoints);
    if next == prev then (next, false)
    else if ShouldKeepPreviousByHysteresis(prev, next, value, setpoints, hysteresisPercent) then (prev, false)
    else (next, true)
  }

  function ResolveAlarmState(value: Option<real>, quality: Quality, setpoints: Setpoints): AlarmState {
    match quality
    case QualityCommLoss => CommLoss
    case QualityOffline => Offline
    case QualityBad => Bad
    case QualityUncertain => Uncertain
    case _ =>
      if value.None? then Bad
      else if setpoints.hiHi.Some? && value.value >= setpoints.hiHi.value then HiHi
      else if setpoints.hi.Some? && value.value >= setpoints.hi.value then Hi
      else if setpoints.loLo.Some? && value.value <= setpoints.loLo.value then LoLo
      else if setpoints.lo.Some? && value.value <= setpoints.lo.value then Lo
      else OK
  }

  predicate ShouldKeepPreviousByHysteresis(
    prev: AlarmState, next: AlarmState, value: Option<real>, setpoints: Setpoints, hysteresisPercent: real)
  {
    && next == OK && value.Some?
    && match prev
       case Hi | HiHi =>
         var threshold := FirstNonNil(setpoints.hiHi, setpoints.hi);
         threshold.Some? && value.value > threshold.value - HysteresisMargin(setpoints, hysteresisPercent)
       case Lo | LoLo =>
         var threshold := FirstNonNil(setpoints.loLo, setpoints.lo);
         threshold.Some? && value.value < threshold.value + HysteresisMargin(setpoints, hysteresisPercent)
       case _ => false
  }

  function Abs(x: real): real {
    if x < 0.0 then -x else x
  }

  function HysteresisMargin(setpoints: Setpoints, hysteresisPercent: real): real {
    var percent := if hysteresisPercent <= 0.0 then DEFAULT_HYSTERESIS_PERCENT else hysteresisPercent;
    if setpoints.hiHi.Some? && setpoints.loLo.Some? && Abs(setpoints.hiHi.value - setpoints.loLo.value) > 0.0 then
      Abs(setpoints.hiHi.value - setpoints.loLo.value) * percent / 100.0
    else if setpoints.hi.Some? && setpoints.lo.Some? && Abs(setpoints.hi.value - setpoints.lo.value) > 0.0 then
      Abs(setpoints.hi.value - setpoints.lo.value) * percent / 100.0
    else percent / 100.0
  }

  function FirstNonNil(a: Option<real>, b: Option<real>): Option<real> {
    if a.Some? then a else b
  }

  // ---- evaluation is stable --------------------------------------------------------------------------

  /** Evaluating the same sample again from the state it produced changes nothing. */
  lemma EvaluationIsIdempotent(prev: AlarmState, value: Option<real>, quality: Quality, setpoints: Setpoints, percent: real)
    ensures var next := EvaluateAlarmState(prev, value, quality, setpoints, percent).0;
      EvaluateAlarmState(next, value, quality, setpoints, percent) == (next, false)
  {
  }

  /** A transition is reported exactly when the state differs from the previous one. */
  lemma ChangedIffDifferent(prev: AlarmState, value: Option<real>, quality: Quality, setpoints: Setpoints, percent: real)
    ensures var (next, changed) := EvaluateAlarmState(prev, value, quality, setpoints, percent);
      changed <==> next != prev
  {
  }

  predicate Good(quality: Quality) {
    quality !in {QualityCommLoss, QualityOffline, QualityBad, QualityUncertain}
  }

  // ---- what a good sample does, in numbers ---------------------------------------------------------------

  /** Below every high threshold and above every low one. */
  predicate Between(sp: Setpoints, v: real) {
    && (sp.hiHi.Some? ==> v < sp.hiHi.value) && (sp.hi.Some? ==> v < sp.hi.value)
    && (sp.loLo.Some? ==> v > sp.loLo.value) && (sp.lo.Some? ==> v > sp.lo.value)
  }

  /** Whatever the state was before: a sample of good quality at a threshold takes the severest state it has reached, the high side first;
    * one between the thresholds gives OK unless the state before was an alarm; a missing value is bad, and a bad quality is its own
    * state. */
  lemma SeverestState(prev: AlarmState, v: real, quality: Quality, sp: Setpoints, percent: real)
    ensures var next := EvaluateAlarmState(prev, Some(v), quality, sp, percent).0;
      Good(quality) ==>
        && (next == HiHi && prev != HiHi ==> sp.hiHi.Some? && v >= sp.hiHi.value)
        && (sp.hiHi.Some? && v >= sp.hiHi.value ==> next == HiHi)
        && (sp.hi.Some? && v >= sp.hi.value && (sp.hiHi.Some? ==> v < sp.hiHi.value) ==> next == Hi)
        && ((sp.hi.Some? ==> v < sp.hi.value) && (sp.hiHi.Some? ==> v < sp.hiHi.value) ==>
              && (sp.loLo.Some? && v <= sp.loLo.value ==> next == LoLo)
              && (sp.lo.Some? && v <= sp.lo.value && (sp.loLo.Some? ==> v > sp.loLo.value) ==> next == Lo))
        && (Between(sp, v) && prev !in {Hi, HiHi, Lo, LoLo} ==> next == OK)
    ensures EvaluateAlarmState(prev, None, quality, sp, percent).0 ==
      match quality
      case QualityCommLoss => CommLoss
      case QualityOffline => Offline
      case QualityUncertain => Uncertain
      case _ => Bad
    ensures !Good(quality) ==>
      EvaluateAlarmState(prev, Some(v), quality, sp, percent) == EvaluateAlarmState(prev, None, quality, sp, percent)
  {
  }

  /** With both outer thresholds set, a value between the thresholds keeps a high state exactly above the upper one less the given share of
    * their distance, and a low state exactly below the lower one plus that share. */
  lemma OuterPairHolds(prev: AlarmState, v: real, quality: Quality, sp: Setpoints, percent: real, top: real, bottom: real)
    requires Good(quality) && Between(sp, v) && percent > 0.0 && sp.hiHi == Some(top) && sp.loLo == Some(bottom)
    ensures prev in {Hi, HiHi} ==>
      EvaluateAlarmState(prev, Some(v), quality, sp, percent)
      == if v > top - (top - bottom) * percent / 100.0 then (prev, false) else (OK, true)
    ensures prev in {Lo, LoLo} ==>
      EvaluateAlarmState(prev, Some(v), quality, sp, percent)
      == if v < bottom + (top - bottom) * percent / 100.0 then (prev, false) else (OK, true)
  {
  }

  /** Without both of them it is the distance of the plain thresholds, when both of those are set. */
  lemma PlainPairHolds(prev: AlarmState, v: real, quality: Quality, sp: Setpoints, percent: real, high: real, low: real)
    requires Good(quality) && Between(sp, v) && percent > 0.0 && sp.hi == Some(high) && sp.lo == Some(low)
    requires sp.hiHi.None? || sp.loLo.None?
    ensures prev in {Hi, HiHi} ==>
      var top := if sp.hiHi.Some? then sp.hiHi.value else high;
      EvaluateAlarmState(prev, Some(v), quality, sp, percent)
      == if v > top - (high - low) * percent / 100.0 then (prev, false) else (OK, true)
    ensures prev in {Lo, LoLo} ==>
      var bottom := if sp.loLo.Some? then sp.loLo.value else low;
      EvaluateAlarmState(prev, Some(v), quality, sp, percent)
      == if v < bottom + (high - low) * percent / 100.0 then (prev, false) else (OK, true)
  {
  }

  /** Without such a pair it is a hundredth of the percentage; a side without any threshold holds nothing. */
  lemma NoPairHolds(prev: AlarmState, v: real, quality: Quality, sp: Setpoints, percent: real)
    requires Good(quality) && Between(sp, v) && percent > 0.0
    requires (sp.hiHi.None? || sp.loLo.None?) && (sp.hi.None? || sp.lo.None?)
    ensures prev in {Hi, HiHi} ==>
      EvaluateAlarmState(prev, Some(v), quality, sp, percent)
      == if (sp.hiHi.Some? && v > sp.hiHi.value - percent / 100.0) || (sp.hiHi.None? && sp.hi.Some? && v > sp.hi.value - percent / 100.0)
         then (prev, false) else (OK, true)
    ensures prev in {Lo, LoLo} ==>
      EvaluateAlarmState(prev, Some(v), quality, sp, percent)
      == if (sp.loLo.Some? && v < sp.loLo.value + percent / 100.0) || (sp.loLo.None? && sp.lo.Some? && v < sp.lo.value + percent / 100.0)
         then (prev, false) else (OK, true)
  {
  }

  /** A percentage that is not positive acts as two. */
  lemma DefaultPercent(prev: AlarmState, value: Option<real>, quality: Quality, sp: Setpoints, percent: real)
    requires percent <= 0.0
    ensures EvaluateAlarmState(prev, value, quality, sp, percent) == EvaluateAlarmState(prev, value, quality, sp, 2.0)
  {
  }

  // ---- the two sides are mirror images -------------------------------------------------------------------

  function Negated(x: Option<real>): Option<real> {
    if x.Some? then Some(-x.value) else None
  }

  function MirrorSetpoints(sp: Setpoints): Setpoints {
    Setpoints(Negated(sp.hiHi), Negated(sp.hi), Negated(sp.lo), Negated(sp.loLo))
  }

  function MirrorState(state: AlarmState): AlarmState {
    match state
    case Lo => Hi
    case Hi => Lo
    case LoLo => HiHi
    case HiHi => LoLo
    case _ => state
  }

  /** No value reaches both a low and a high threshold. */
  predicate Separated(sp: Setpoints) {
    forall low, high :: low in {sp.lo, sp.loLo} && high in {sp.hi, sp.hiHi} && low.Some? && high.Some? ==> low.value < high.value
  }

  /** Whatever is shown of the high side holds of the low side, with values and thresholds negated. */
  lemma MirrorImage(prev: AlarmState, value: Option<real>, quality: Quality, sp: Setpoints, percent: real)
    requires Separated(sp)
    ensures var (next, changed) := EvaluateAlarmState(prev, value, quality, sp, percent);
      EvaluateAlarmState(MirrorState(prev), Negated(value), quality, MirrorSetpoints(sp), percent) == (MirrorState(next), changed)
  {
    MirrorResolve(value, quality, sp);
    MirrorMargin(sp, percent);
  }

  lemma MirrorResolve(value: Option<real>, quality: Quality, sp: Setpoints)
    requires Separated(sp)
    ensures ResolveAlarmState(Negated(value), quality, MirrorSetpoints(sp)) == MirrorState(ResolveAlarmState(value, quality, sp))
  {
  }

  lemma MirrorMargin(sp: Setpoints, percent: real)
    ensures HysteresisMargin(MirrorSetpoints(sp), percent) == HysteresisMargin(sp, percent)
  {
  }

  // ---- the high band and what it takes to leave it ------------------------------------------------------

  predicate High(state: AlarmState) {
    state == Hi || state == HiHi
  }

  predicate HasHigh(sp: Setpoints) {
    sp.hi.Some? || sp.hiHi.Some?
  }

  /** The level at which the high band begins. */
  function EntryLevel(sp: Setpoints): real
    requires HasHigh(sp)
  {
    if sp.hi.None? then sp.hiHi.value
    else if sp.hiHi.None? || sp.hi.value <= sp.hiHi.value then sp.hi.value
    else sp.hiHi.value
  }

  /** The highest level at which a value below the band ends it: the reach of the hysteresis, or a low threshold. */
  function ExitLevel(sp: Setpoints, percent: real): real
    requires HasHigh(sp)
  {
    var reach := FirstNonNil(sp.hiHi, sp.hi).value - HysteresisMargin(sp, percent);
    var withLo := if sp.lo.Some? && sp.lo.value > reach then sp.lo.value else reach;
    if sp.loLo.Some? && sp.loLo.value > withLo then sp.loLo.value else withLo
  }

  /** How far a value must fall below the band to leave it. */
  function Gap(sp: Setpoints, percent: real): real
    requires HasHigh(sp)
  {
    EntryLevel(sp) - ExitLevel(sp, percent)
  }

  /** With one high and at most one low threshold the gap is the margin, or the distance to the low threshold if that is less. */
  lemma GapOfOneThreshold(sp: Setpoints, percent: real)
    requires HasHigh(sp) && (sp.hi.None? || sp.hiHi.None?) && (sp.lo.None? || sp.loLo.None?)
    ensures var h := EntryLevel(sp);
      var low := FirstNonNil(sp.loLo, sp.lo);
      var share := (if percent <= 0.0 then 2.0 else percent) / 100.0;
      var paired := (sp.hi.Some? && sp.lo.Some?) || (sp.hiHi.Some? && sp.loLo.Some?);
      var margin :=
        if paired && h > low.value then (h - low.value) * share
        else if paired && h < low.value then (low.value - h) * share
        else share;
      Gap(sp, percent) == if low.Some? && h - low.value < margin then h - low.value else margin
  {
  }

  lemma MarginPositive(sp: Setpoints, percent: real)
    ensures HysteresisMargin(sp, percent) > 0.0
  {
  }

  function NextState(state: AlarmState, value: real, sp: Setpoints, percent: real): AlarmState {
    EvaluateAlarmState(state, Some(value), QualityOK, sp, percent).0
  }

  /** One good sample: in the band from the entry level up, out of it at the exit level or below, as before in between. */
  lemma HighAfter(state: AlarmState, value: real, quality: Quality, sp: Setpoints, percent: real)
    requires HasHigh(sp) && Good(quality)
    ensures EvaluateAlarmState(state, Some(value), quality, sp, percent).0 == NextState(state, value, sp, percent)
    ensures High(NextState(state, value, sp, percent))
      <==> value >= EntryLevel(sp) || (High(state) && value > ExitLevel(sp, percent))
  {
  }

  // ---- chatter is bounded by variation -------------------------------------------------------------------

  function Final(state: AlarmState, values: seq<real>, sp: Setpoints, percent: real): AlarmState {
    if values == [] then state
    else NextState(Final(state, values[..|values| - 1], sp, percent), values[|values| - 1], sp, percent)
  }

  /** How many times the high band is entered. */
  function Entries(state: AlarmState, values: seq<real>, sp: Setpoints, percent: real): nat {
    if values == [] then 0
    else
      var front := values[..|values| - 1];
      Entries(state, front, sp, percent)
      + if !High(Final(state, front, sp, percent)) && High(Final(state, values, sp, percent)) then 1 else 0
  }

  function Variation(values: seq<real>): real {
    if |values| <= 1 then 0.0
    else Variation(values[..|values| - 1]) + Abs(values[|values| - 1] - values[|values| - 2])
  }

  lemma {:induction false} VariationNonNegative(values: seq<real>)
    ensures Variation(values) >= 0.0
  {
    if |values| > 1 {
      VariationNonNegative(values[..|values| - 1]);
    }
  }

  function Max(x: real, y: real): real {
    if x < y then y else x
  }

  /** What each further entry must have cost: a fall by the gap and a rise by the gap. */
  function Cost(n: nat, gap: real): real {
    if n == 0 then 0.0 else Cost(n - 1, gap) + 2.0 * gap
  }

  /** The variation has paid for all earlier entries, and for the distance now travelled away from the band or back. */
  lemma {:induction false} Paid(state: AlarmState, values: seq<real>, sp: Setpoints, percent: real)
    requires HasHigh(sp) && Gap(sp, percent) > 0.0 && values != []
    ensures var n := Entries(state, values, sp, percent);
      var x := values[|values| - 1];
      var gap := Gap(sp, percent);
      && (High(Final(state, values, sp, percent)) && n >= 1 ==>
            Variation(values) >= Cost(n - 1, gap) + Max(0.0, EntryLevel(sp) - x))
      && (!High(Final(state, values, sp, percent)) && n >= 1 ==>
            Variation(values) >= Cost(n - 1, gap) + gap + Max(0.0, x - ExitLevel(sp, percent)))
  {
    hide NextState, EntryLevel, ExitLevel;
    var front, x := values[..|values| - 1], values[|values| - 1];
    VariationNonNegative(values);
    HighAfter(Final(state, front, sp, percent), x, QualityOK, sp, percent);
    if front == [] {
      assert Final(state, front, sp, percent) == state;
    } else {
      Paid(state, front, sp, percent);
      assert front[|front| - 1] == values[|values| - 2];
    }
  }

  lemma {:induction false} CostIsProduct(n: nat, gap: real)
    ensures Cost(n, gap) == 2.0 * gap * n as real
  {
    if n > 0 {
      CostIsProduct(n - 1, gap);
    }
  }

  lemma NoEntriesInNothing(state: AlarmState, sp: Setpoints, percent: real)
    ensures Entries(state, [], sp, percent) == 0
  {
  }

  /** Over any good samples, each entry into the high band after the first costs twice the gap in variation. */
  lemma ChatterBound(state: AlarmState, values: seq<real>, sp: Setpoints, percent: real)
    requires HasHigh(sp) && Gap(sp, percent) > 0.0
    ensures 2.0 * Gap(sp, percent) * (Entries(state, values, sp, percent) as real - 1.0) <= Variation(values)
  {
    hide NextState, EntryLevel, ExitLevel, Gap, Entries, Variation, Final;
    VariationNonNegative(values);
    var n, gap := Entries(state, values, sp, percent), Gap(sp, percent);
    if n == 0 {
      assert 2.0 * gap * (0.0 - 1.0) < 0.0;
    } else {
      NoEntriesInNothing(state, sp, percent);
      Paid(state, values, sp, percent);
      CostIsProduct(n - 1, gap);
      OneLess(gap, n);
    }
  }

  lemma OneLess(gap: real, n: nat)
    requires n >= 1
    ensures 2.0 * gap * (n - 1) as real == 2.0 * gap * (n as real - 1.0)
  {
  }

  /** With one high and one low threshold each re-entry costs twice the given share of their distance, or twice the distance itself at
    * more than a hundred percent. */
  lemma ChatterBetweenTwo(high: real, low: real, percent: real, state: AlarmState, values: seq<real>)
    requires high > low && percent > 0.0
    ensures var sp := Setpoints(None, Some(low), Some(high), None);
      var fall := if (high - low) * percent / 100.0 < high - low then (high - low) * percent / 100.0 else high - low;
      2.0 * fall * (Entries(state, values, sp, percent) as real - 1.0) <= Variation(values)
  {
    hide *;
    GapOfTwo(high, low, percent);
    ChatterBound(state, values, Setpoints(None, Some(low), Some(high), None), percent);
  }

  lemma GapOfTwo(high: real, low: real, percent: real)
    requires high > low && percent > 0.0
    ensures var sp := Setpoints(None, Some(low), Some(high), None);
      && HasHigh(sp) && Gap(sp, percent) > 0.0
      && Gap(sp, percent) == if (high - low) * percent / 100.0 < high - low then (high - low) * percent / 100.0 else high - low
  {
    assert (high - low) * percent > 0.0;
  }

  /** Some cost per re-entry bounds the chatter of every sequence of good samples. */
  ghost predicate ChatterBounded(sp: Setpoints, percent: real) {
    exists cost: real :: cost > 0.0 && EveryReentryCosts(cost, sp, percent)
  }

  ghost predicate EveryReentryCosts(cost: real, sp: Setpoints, percent: real) {
    forall values: seq<real> {:trigger Entries(OK, values, sp, percent)} ::
      cost * (Entries(OK, values, sp, percent) as real - 1.0) <= Variation(values)
  }

  /** n visits to the entry level with a dip of the given depth before each but the first. */
  function Dips(n: nat, level: real, depth: real): seq<real> {
    if n == 0 then [level] else Dips(n - 1, level, depth) + [level - depth, level]
  }

  lemma {:induction false} DipsFacts(n: nat, sp: Setpoints, percent: real, depth: real)
    requires HasHigh(sp) && Gap(sp, percent) <= 0.0 && depth > 0.0
    ensures var values := Dips(n, EntryLevel(sp), depth);
      && values != [] && values[|values| - 1] == EntryLevel(sp)
      && High(Final(OK, values, sp, percent))
      && Entries(OK, values, sp, percent) == n + 1
      && Variation(values) == Cost(n, depth)
  {
    hide NextState;
    var level := EntryLevel(sp);
    var values := Dips(n, level, depth);
    if n == 0 {
      HighAfter(OK, level, QualityOK, sp, percent);
      assert values[..0] == [];
      assert Final(OK, values[..0], sp, percent) == OK;
    } else {
      DipsFacts(n - 1, sp, percent, depth);
      var before := Dips(n - 1, level, depth);
      var dipped := before + [level - depth];
      assert dipped[..|dipped| - 1] == before;
      assert values[..|values| - 1] == dipped;
      HighAfter(Final(OK, before, sp, percent), level - depth, QualityOK, sp, percent);
      HighAfter(Final(OK, dipped, sp, percent), level, QualityOK, sp, percent);
      assert Variation(dipped) == Variation(before) + depth;
      assert Variation(values) == Variation(dipped) + depth;
    }
  }

  /** Without a gap the band can be entered any number of times with as little variation as one likes. */
  lemma ChatterUnbounded(sp: Setpoints, percent: real, n: nat, budget: real) returns (values: seq<real>)
    requires HasHigh(sp) && Gap(sp, percent) <= 0.0 && budget > 0.0
    ensures Entries(OK, values, sp, percent) == n + 1 && Variation(values) <= budget
  {
    hide NextState, EntryLevel, ExitLevel, Gap, Entries, Variation, Final;
    var depth := Share(budget, n);
    values := Dips(n, EntryLevel(sp), depth);
    DipsFacts(n, sp, percent, depth);
    CostIsProduct(n, depth);
  }

  lemma Share(budget: real, n: nat) returns (depth: real)
    requires budget > 0.0
    ensures depth > 0.0 && 2.0 * depth * n as real <= budget
  {
    var k := n as real + 1.0;
    depth := budget / (2.0 * k);
    assert depth * (2.0 * k) == budget;
    assert 2.0 * depth * n as real == depth * (2.0 * k) - 2.0 * depth;
  }

  /** Hysteresis bounds chatter if and only if the gap is positive. */
  lemma ChatterBoundedIff(sp: Setpoints, percent: real)
    requires HasHigh(sp)
    ensures ChatterBounded(sp, percent) <==> Gap(sp, percent) > 0.0
  {
    hide EntryLevel, ExitLevel, Gap, Entries, Variation;
    if Gap(sp, percent) > 0.0 {
      GapBoundsChatter(sp, percent);
    } else {
      forall cost: real | cost > 0.0
        ensures !EveryReentryCosts(cost, sp, percent)
      {
        var values := ChatterUnbounded(sp, percent, 1, cost / 2.0);
        assert cost * (Entries(OK, values, sp, percent) as real - 1.0) == cost;
      }
    }
  }

  lemma GapBoundsChatter(sp: Setpoints, percent: real)
    requires HasHigh(sp) && Gap(sp, percent) > 0.0
    ensures ChatterBounded(sp, percent)
  {
    hide EntryLevel, ExitLevel, Gap, Entries, Variation;
    var cost := 2.0 * Gap(sp, percent);
    forall values: seq<real>
      ensures cost * (Entries(OK, values, sp, percent) as real - 1.0) <= Variation(values)
    {
      ChatterBound(OK, values, sp, percent);
    }
    assert EveryReentryCosts(cost, sp, percent);
  }

  /** One high threshold above at most one low threshold is always protected, whatever the percentage. */
  lemma OneThresholdIsProtected(sp: Setpoints, percent: real)
    requires HasHigh(sp) && (sp.hi.None? || sp.hiHi.None?) && (sp.lo.None? || sp.loLo.None?) && Separated(sp)
    ensures ChatterBounded(sp, percent)
  {
    assert sp.lo in {sp.lo, sp.loLo} && sp.loLo in {sp.lo, sp.loLo};
    assert sp.hi in {sp.hi, sp.hiHi} && sp.hiHi in {sp.hi, sp.hiHi};
    MarginPositive(sp, percent);
    GapOfOneThreshold(sp, percent);
    ChatterBoundedIff(sp, percent);
  }

  /** Of two high thresholds only the upper one is given hysteresis, so the lower one has some only when they are within a margin. */
  lemma BothHighThresholds(sp: Setpoints, percent: real)
    requires sp.hi.Some? && sp.hiHi.Some? && sp.hi.value <= sp.hiHi.value && sp.lo.None? && sp.loLo.None?
    ensures ChatterBounded(sp, percent) <==> sp.hiHi.value - sp.hi.value < (if percent <= 0.0 then 2.0 else percent) / 100.0
  {
    ChatterBoundedIff(sp, percent);
  }

  /** An ordinary configuration without protection: 10, 20, 80, 90 at two percent enters Hi at every wobble around 80. */
  lemma OrdinarySetpointsChatter(n: nat, budget: real) returns (values: seq<real>)
    requires budget > 0.0
    ensures var sp := Setpoints(Some(10.0), Some(20.0), Some(80.0), Some(90.0));
      Entries(OK, values, sp, 2.0) == n + 1 && Variation(values) <= budget
  {
    var sp := Setpoints(Some(10.0), Some(20.0), Some(80.0), Some(90.0));
    assert HysteresisMargin(sp, 2.0) == 1.6;
    values := ChatterUnbounded(sp, 2.0, n, budget);
  }
}
