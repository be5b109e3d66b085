/** The nutrition-derivation pipeline of src/utils/profileTransforms.js: safe
    coercions, age, the activity classifier and its tables, Mifflin-St Jeor
    BMR, TDEE, goal-adjusted calories, the macro split, the water target, the
    recipe nutrition aggregation and the summary assembler. Every function
    is total: bad input gives None (JavaScript null), never an exception. */
module ProfileTransforms {
  import opened Wrappers
  import opened JsValues

  // ================================================================ coercion

  /** `toNumberOrNull(v)`: a finite number, None otherwise. null and
      undefined give None even though `Number(null)` is 0. */
  function ToNumberOrNull(v: JsValue): (r: Option<real>)
    ensures Nullish(v) ==> r.None?
    ensures !Nullish(v) ==> (r.Some? <==> ToNumber(v).Finite?)
    ensures r.Some? ==> ToNumber(v) == Finite(r.value)
  {
    if Nullish(v) then None
    else
      match ToNumber(v)
      case Finite(n) => Some(n)
      case _ => None
  }

  /** Passing a helper's own result on to another helper loses nothing. */
  lemma ToNumberOrNullOfResult(o: Option<real>)
    ensures ToNumberOrNull(FromReal(o)) == o
  {
  }

  /** A calendar date as the source reads it: `getFullYear()`, `getMonth()`
      (0-based) and `getDate()`. */
  datatype CalendarDate = CalendarDate(year: int, month: int, day: int)

  /** The JavaScript engine's `new Date(input)`, None for an Invalid Date. */
  type DateParser = JsValue -> Option<CalendarDate>

  /** `parseDate(input)`: a falsy input is no date; anything else is what the
      engine parses it to. */
  function ParseDate(input: JsValue, dateOf: DateParser): (r: Option<CalendarDate>)
    ensures !Truthy(input) ==> r.None?
    ensures Truthy(input) ==> r == dateOf(input)
  {
    if !Truthy(input) then None else dateOf(input)
  }

  // ================================================================ age

  /** `a` comes strictly before `b` in the calendar. */
  predicate DateBefore(a: CalendarDate, b: CalendarDate) {
    a.year < b.year ||
    (a.year == b.year && (a.month < b.month || (a.month == b.month && a.day < b.day)))
  }

  /** The `years`-th anniversary of `birth`. */
  function Anniversary(birth: CalendarDate, years: int): CalendarDate {
    CalendarDate(birth.year + years, birth.month, birth.day)
  }

  /** `computeAgeFromDOB(dob)` on the day `today`: None for a missing or
      unparsable date and for a birth date after today; otherwise the number
      of anniversaries of the birth date reached by today. */
  function ComputeAgeFromDOB(dob: JsValue, today: CalendarDate, dateOf: DateParser): (r: Option<int>)
    ensures ParseDate(dob, dateOf).None? ==> r.None?
    ensures ParseDate(dob, dateOf).Some? ==>
              (r.None? <==> DateBefore(today, ParseDate(dob, dateOf).value))
    ensures r.Some? ==>
              var birth := ParseDate(dob, dateOf).value;
              r.value >= 0 &&
              !DateBefore(today, Anniversary(birth, r.value)) &&
              DateBefore(today, Anniversary(birth, r.value + 1))
  {
    match ParseDate(dob, dateOf)
    case None => None
    case Some(d) =>
      var years := today.year - d.year;
      var m := today.month - d.month;
      var age := if m < 0 || (m == 0 && today.day < d.day) then years - 1 else years;
      if age >= 0 then Some(age) else None
  }

  /** The age is the plain year difference, one less exactly when today's
      month and day come before the birthday's. */
  lemma AgeIsYearDifference(dob: JsValue, today: CalendarDate, dateOf: DateParser)
    requires ComputeAgeFromDOB(dob, today, dateOf).Some?
    ensures var birth := ParseDate(dob, dateOf).value;
            var before := today.month < birth.month || (today.month == birth.month && today.day < birth.day);
            ComputeAgeFromDOB(dob, today, dateOf).value == today.year - birth.year - (if before then 1 else 0)
  {
  }

  // ================================================================ activity

  /** The inclusive upper bounds, in minutes per week, of levels 1 to 4. */
  const ActivityThresholds: seq<real> := [60.0, 180.0, 360.0, 600.0]

  /** The step function over weekly minutes. */
  function ActivityLevelForMinutes(m: real): (level: int)
    ensures 1 <= level <= 5
  {
    if m <= 60.0 then 1
    else if m <= 180.0 then 2
    else if m <= 360.0 then 3
    else if m <= 600.0 then 4
    else 5
  }

  /** `activityLevelFromMinutes(weeklyMinutes)`: None exactly when the input
      is not a finite number, otherwise a level from 1 to 5. */
  function ActivityLevelFromMinutes(weeklyMinutes: JsValue): (r: Option<int>)
    ensures r.None? <==> ToNumberOrNull(weeklyMinutes).None?
    ensures r.Some? ==> 1 <= r.value <= 5
    ensures r.Some? ==> r.value == ActivityLevelForMinutes(ToNumberOrNull(weeklyMinutes).value)
  {
    match ToNumberOrNull(weeklyMinutes)
    case None => None
    case Some(m) => Some(ActivityLevelForMinutes(m))
  }

  /** How many of `bounds` lie strictly below `m`. */
  function CountBelow(bounds: seq<real>, m: real): (n: nat)
    ensures n <= |bounds|
  {
    if |bounds| == 0 then 0
    else (if bounds[0] < m then 1 else 0) + CountBelow(bounds[1..], m)
  }

  /** The level is one more than the number of thresholds the minutes exceed. */
  lemma {:induction false} ActivityLevelCountsThresholds(m: real)
    ensures ActivityLevelForMinutes(m) == 1 + CountBelow(ActivityThresholds, m)
  {
    var t := ActivityThresholds;
    assert t[1..][1..][1..][1..] == [];
    assert CountBelow(t[1..][1..][1..], m) == (if 600.0 < m then 1 else 0);
    assert CountBelow(t[1..][1..], m) == (if 360.0 < m then 1 else 0) + (if 600.0 < m then 1 else 0);
  }

  /** More minutes never give a lower level. */
  lemma ActivityLevelMonotone(m1: real, m2: real)
    requires m1 <= m2
    ensures ActivityLevelForMinutes(m1) <= ActivityLevelForMinutes(m2)
  {
  }

  /** The bounds are inclusive on the lower level. */
  lemma ActivityLevelBoundaries()
    ensures ActivityLevelFromMinutes(Num(60.0)) == Some(1)
    ensures ActivityLevelFromMinutes(Num(61.0)) == Some(2)
    ensures ActivityLevelFromMinutes(Num(180.0)) == Some(2)
    ensures ActivityLevelFromMinutes(Num(360.0)) == Some(3)
    ensures ActivityLevelFromMinutes(Num(600.0)) == Some(4)
    ensures ActivityLevelFromMinutes(Num(601.0)) == Some(5)
    ensures ActivityLevelFromMinutes(Null) == None
  {
  }

  /** Minutes stored as text are read with `Number`: "200" is level 3, and
      the empty string counts as 0 minutes, level 1. */
  lemma ActivityLevelOfText()
    ensures ActivityLevelFromMinutes(Str("200")) == Some(3)
    ensures ActivityLevelFromMinutes(Str("")) == Some(1)
  {
    assert ToNumber(Str("200")) == Finite(200.0) by {
      assert NatToString(200) == "200" by {
        assert NatToString(2) == "2";
        assert NatToString(20) == "20";
      }
      NumberOfNatText(200);
    }
    assert ToNumber(Str("")) == Finite(0.0) by { NumberOfEmptyValues(); }
  }

  /** `ACTIVITY_FACTOR[level]`. */
  function ActivityFactor(level: real): (f: Option<real>)
    ensures f.Some? <==> level in {1.0, 2.0, 3.0, 4.0, 5.0}
    ensures f.Some? ==> 1.2 <= f.value <= 1.9
  {
    if level == 1.0 then Some(1.2)
    else if level == 2.0 then Some(1.375)
    else if level == 3.0 then Some(1.55)
    else if level == 4.0 then Some(1.725)
    else if level == 5.0 then Some(1.9)
    else None
  }

  /** `ACTIVITY_LEVEL_NAMES[level]`. */
  function ActivityLevelName(level: real): (name: Option<string>)
    ensures name.Some? <==> level in {1.0, 2.0, 3.0, 4.0, 5.0}
  {
    if level == 1.0 then Some("Inactive")
    else if level == 2.0 then Some("Lightly active")
    else if level == 3.0 then Some("Active")
    else if level == 4.0 then Some("Very active")
    else if level == 5.0 then Some("Extremely active")
    else None
  }

  /** `WATER_MULTIPLIER_FOR_LEVEL[level]`. */
  function WaterMultiplier(level: real): (w: Option<real>)
    ensures w.Some? <==> level in {1.0, 2.0, 3.0, 4.0, 5.0}
    ensures w.Some? ==> 0.9 <= w.value <= 1.4
  {
    if level == 1.0 then Some(0.9)
    else if level == 2.0 then Some(1.0)
    else if level == 3.0 then Some(1.125)
    else if level == 4.0 then Some(1.25)
    else if level == 5.0 then Some(1.4)
    else None
  }

  /** Both tables grow strictly with the level. */
  lemma TablesIncreaseWithLevel(a: int, b: int)
    requires 1 <= a < b <= 5
    ensures ActivityFactor(a as real).value < ActivityFactor(b as real).value
    ensures WaterMultiplier(a as real).value < WaterMultiplier(b as real).value
  {
  }

  // ================================================================ BMR and TDEE

  /** `(sex || "").toString().toLowerCase()` is "male" or "m". */
  predicate IsMaleText(sex: JsValue) {
    var s := ToLower(ToJsString(Or(sex, Str(""))));
    s == "male" || s == "m"
  }

  /** The Mifflin-St Jeor sex term: +5 for a male, -161 for everyone else,
      including a missing sex. */
  function SexAdjustment(sex: JsValue): (adj: int)
    ensures adj == 5 || adj == -161
    ensures adj == 5 <==> IsMaleText(sex)
  {
    if IsMaleText(sex) then 5 else -161
  }

  /** "male" and "m" in any case are male; "female", "", null are not. */
  lemma MaleTexts()
    ensures IsMaleText(Str("male")) && IsMaleText(Str("Male")) && IsMaleText(Str("M"))
    ensures !IsMaleText(Str("female")) && !IsMaleText(Str("f")) && !IsMaleText(Str(""))
    ensures !IsMaleText(Null) && !IsMaleText(Undefined)
  {
    assert ToLower("Male") == "male";
    assert ToLower("M") == "m";
    assert ToLower("female") == "female";
    assert ToLower("f") == "f";
  }

  /** The unrounded Mifflin-St Jeor estimate. */
  function MifflinStJeor(weightKg: real, heightCm: real, age: real, sexAdj: int): real {
    10.0 * weightKg + 6.25 * heightCm - 5.0 * age + sexAdj as real
  }

  /** `computeBmr({ sex, age, heightCm, weightKg })`: None if one of age,
      height and weight is not a number; otherwise the Mifflin-St Jeor
      estimate rounded to the nearest integer. */
  function ComputeBmr(sex: JsValue, age: JsValue, heightCm: JsValue, weightKg: JsValue): (r: Option<int>)
    ensures r.None? <==>
              ToNumberOrNull(age).None? || ToNumberOrNull(heightCm).None? || ToNumberOrNull(weightKg).None?
    ensures r.Some? ==>
              var x := MifflinStJeor(ToNumberOrNull(weightKg).value, ToNumberOrNull(heightCm).value,
                                     ToNumberOrNull(age).value, SexAdjustment(sex));
              RoundsTo(x, r.value)
  {
    var a := ToNumberOrNull(age);
    var h := ToNumberOrNull(heightCm);
    var w := ToNumberOrNull(weightKg);
    if a.None? || h.None? || w.None? then None
    else Some(Round(MifflinStJeor(w.value, h.value, a.value, SexAdjustment(sex))))
  }

  /** For the same body, a male BMR is exactly 166 kcal above any other. */
  lemma BmrMaleMinusOther(male: JsValue, other: JsValue, age: JsValue, heightCm: JsValue, weightKg: JsValue)
    requires IsMaleText(male) && !IsMaleText(other)
    requires ComputeBmr(other, age, heightCm, weightKg).Some?
    ensures ComputeBmr(male, age, heightCm, weightKg).Some?
    ensures ComputeBmr(male, age, heightCm, weightKg).value ==
            ComputeBmr(other, age, heightCm, weightKg).value + 166
  {
    var w, h, a := ToNumberOrNull(weightKg).value, ToNumberOrNull(heightCm).value, ToNumberOrNull(age).value;
    var x := MifflinStJeor(w, h, a, -161);
    assert ComputeBmr(other, age, heightCm, weightKg) == Some(Round(x));
    assert ComputeBmr(male, age, heightCm, weightKg) == Some(Round(MifflinStJeor(w, h, a, 5)));
    assert MifflinStJeor(w, h, a, 5) == x + 166 as real;
    RoundShift(x, 166);
  }

  /** `computeTdee(bmr, activityLevel)`: None unless the BMR is a number and
      the level is one of 1 to 5; otherwise BMR times the activity factor,
      rounded. */
  function ComputeTdee(bmr: JsValue, activityLevel: JsValue): (r: Option<int>)
    ensures r.Some? <==>
              ToNumberOrNull(bmr).Some? && ToNumberOrNull(activityLevel).Some? &&
              ToNumberOrNull(activityLevel).value in {1.0, 2.0, 3.0, 4.0, 5.0}
  {
    var b := ToNumberOrNull(bmr);
    var al := ToNumberOrNull(activityLevel);
    if b.None? || al.None? then None
    else
      match ActivityFactor(al.value)
      case Some(factor) => if factor != 0.0 then Some(RoundedProduct(b.value, factor)) else None
      case None => None
  }

  /** `Math.round(x * y)`. */
  function RoundedProduct(x: real, y: real): int {
    Round(x * y)
  }

  /** The rounded product is the integer nearest the product. */
  lemma RoundedProductNearest(x: real, y: real)
    ensures RoundsTo(x * y, RoundedProduct(x, y))
  {
  }

  /** A TDEE is the BMR times the level's activity factor, rounded to the
      nearest integer. */
  lemma TdeeRounds(bmr: JsValue, activityLevel: JsValue)
    requires ComputeTdee(bmr, activityLevel).Some?
    ensures var x := ToNumberOrNull(bmr).value * ActivityFactor(ToNumberOrNull(activityLevel).value).value;
            RoundsTo(x, ComputeTdee(bmr, activityLevel).value)
  {
    var b, factor := ToNumberOrNull(bmr).value, ActivityFactor(ToNumberOrNull(activityLevel).value).value;
    var r := ComputeTdee(bmr, activityLevel).value;
    assert r == RoundedProduct(b, factor);
    RoundedProductNearest(b, factor);
    assert RoundsTo(b * factor, r);
  }

  // ================================================================ goals

  /** `GOAL_LEVEL_NAMES[level]`. */
  function GoalLevelName(level: real): (name: Option<string>)
    ensures name.Some? <==> level in {1.0, 2.0, 3.0, 4.0, 5.0}
  {
    if level == 1.0 then Some("Fast Weight Loss")
    else if level == 2.0 then Some("Progressive Weight Loss")
    else if level == 3.0 then Some("Maintenance")
    else if level == 4.0 then Some("Progressive Weight Gain")
    else if level == 5.0 then Some("Fast Weight Gain")
    else None
  }

  /** `GOAL_KCAL_ADJ[level]`: symmetric around maintenance. */
  function GoalKcalAdjustment(level: real): (adj: Option<int>)
    ensures adj.Some? <==> level in {1.0, 2.0, 3.0, 4.0, 5.0}
    ensures adj.Some? ==> (adj.value < 0 <==> level < 3.0) && (adj.value > 0 <==> level > 3.0)
  {
    if level == 1.0 then Some(-500)
    else if level == 2.0 then Some(-250)
    else if level == 3.0 then Some(0)
    else if level == 4.0 then Some(250)
    else if level == 5.0 then Some(500)
    else None
  }

  /** Losing and gaining at the same pace shift the calories by opposite
      amounts. */
  lemma GoalAdjustmentSymmetric(level: int)
    requires 1 <= level <= 5
    ensures GoalKcalAdjustment((6 - level) as real).value == -GoalKcalAdjustment(level as real).value
  {
  }

  /** `goalTextFromLevel(level)`: levels 1 and 2 lose, 4 and 5 gain, and every
      other value, 3 included, maintains. */
  function GoalTextFromLevel(level: JsValue): (text: string)
    ensures text in {"lose", "maintain", "gain"}
    ensures text == "lose" <==> ToNumberOrNull(level) in {Some(1.0), Some(2.0)}
    ensures text == "gain" <==> ToNumberOrNull(level) in {Some(4.0), Some(5.0)}
  {
    var n := ToNumberOrNull(level);
    if n == Some(1.0) || n == Some(2.0) then "lose"
    else if n == Some(3.0) then "maintain"
    else if n == Some(4.0) || n == Some(5.0) then "gain"
    else "maintain"
  }

  /** The best-effort inverse used for display: "lose" is level 2, "gain" is
      level 4, anything else (a missing goal included) is level 3. The
      comparison is strict: only the strings themselves match. */
  function GoalLevelFromText(text: JsValue): (level: int)
    ensures level in {2, 3, 4}
    ensures level == 2 <==> text == Str("lose")
    ensures level == 4 <==> text == Str("gain")
  {
    if text == Str("lose") then 2 else if text == Str("gain") then 4 else 3
  }

  /** text -> level -> text is the identity on the three stored texts. */
  lemma GoalTextRoundTrip(text: string)
    requires text in {"lose", "maintain", "gain"}
    ensures GoalTextFromLevel(Num(GoalLevelFromText(Str(text)) as real)) == text
  {
  }

  /** level -> text -> level is a projection onto {2, 3, 4}: it sends 1 to 2
      and 5 to 4, keeps 2, 3 and 4, and is idempotent. */
  lemma GoalLevelProjection(level: JsValue)
    ensures var l := GoalLevelFromText(Str(GoalTextFromLevel(level)));
            var n := ToNumberOrNull(level);
            (n == Some(1.0) || n == Some(2.0) ==> l == 2) &&
            (n == Some(4.0) || n == Some(5.0) ==> l == 4) &&
            (n !in {Some(1.0), Some(2.0), Some(4.0), Some(5.0)} ==> l == 3)
  {
  }

  /** Each level the text reading yields is read back from its own text. */
  lemma GoalLevelFixedPoint(l: int)
    requires l in {2, 3, 4}
    ensures GoalLevelFromText(Str(GoalTextFromLevel(Num(l as real)))) == l
  {
    assert ToNumberOrNull(Num(l as real)) == Some(l as real);
  }

  // ================================================================ calories

  /** The activity factor the recommendation uses: a missing level counts as
      level 1 and an unknown one gets the factor 1.2. */
  function CalorieFactor(activityLevel: JsValue): (f: real)
    ensures 1.2 <= f <= 1.9
  {
    ActivityFactor(ToNumberOrNull(activityLevel).GetOr(1.0)).GetOr(1.2)
  }

  /** The goal adjustment the recommendation uses: a missing goal counts as
      level 3 and an unknown one gets 0. */
  function GoalAdjustment(goalLevel: JsValue): (adj: int)
    ensures -500 <= adj <= 500
  {
    GoalKcalAdjustment(ToNumberOrNull(goalLevel).GetOr(3.0)).GetOr(0)
  }

  /** `computeRecommendedCalories({ bmr, activityLevel, explicitTargetKcal,
      goalLevel })`: an explicit numeric target wins, rounded, even without
      a BMR; otherwise None without a BMR, else BMR times the activity factor
      plus the goal adjustment, rounded. */
  function ComputeRecommendedCalories(bmr: JsValue, activityLevel: JsValue,
                                      explicitTargetKcal: JsValue, goalLevel: JsValue): (r: Option<int>)
    ensures ToNumberOrNull(explicitTargetKcal).Some? ==>
              r == Some(Round(ToNumberOrNull(explicitTargetKcal).value))
    ensures ToNumberOrNull(explicitTargetKcal).None? ==> (r.None? <==> ToNumberOrNull(bmr).None?)
  {
    var explicit := ToNumberOrNull(explicitTargetKcal);
    if explicit.Some? then Some(Round(explicit.value))
    else
      var b := ToNumberOrNull(bmr);
      if b.None? then None
      else Some(Recommend(b.value, CalorieFactor(activityLevel), GoalAdjustment(goalLevel)))
  }

  /** `Math.round(b * factor + adj)`. */
  function Recommend(b: real, factor: real, adj: int): int {
    Round(b * factor + adj as real)
  }

  /** Without an explicit target, the recommendation is BMR times the
      activity factor plus the goal adjustment, rounded to the nearest
      integer. */
  lemma RecommendedRounds(bmr: JsValue, activityLevel: JsValue, explicitTargetKcal: JsValue, goalLevel: JsValue)
    requires ToNumberOrNull(explicitTargetKcal).None?
    requires ComputeRecommendedCalories(bmr, activityLevel, explicitTargetKcal, goalLevel).Some?
    ensures var x := ToNumberOrNull(bmr).value * CalorieFactor(activityLevel) + GoalAdjustment(goalLevel) as real;
            RoundsTo(x, ComputeRecommendedCalories(bmr, activityLevel, explicitTargetKcal, goalLevel).value)
  {
    var b, factor, adj := ToNumberOrNull(bmr).value, CalorieFactor(activityLevel), GoalAdjustment(goalLevel);
    assert ComputeRecommendedCalories(bmr, activityLevel, explicitTargetKcal, goalLevel) == Some(Recommend(b, factor, adj));
    RecommendNearest(b, factor, adj);
  }

  lemma RecommendNearest(b: real, factor: real, adj: int)
    ensures RoundsTo(b * factor + adj as real, Recommend(b, factor, adj))
  {
  }

  /** With a known activity level and goal, the recommendation is the TDEE
      plus the goal's adjustment. */
  lemma RecommendedIsTdeePlusGoal(bmr: real, level: int, goal: int)
    requires 1 <= level <= 5 && 1 <= goal <= 5
    ensures ComputeTdee(Num(bmr), Num(level as real)).Some?
    ensures ComputeRecommendedCalories(Num(bmr), Num(level as real), Null, Num(goal as real)) ==
            Some(ComputeTdee(Num(bmr), Num(level as real)).value + GoalKcalAdjustment(goal as real).value)
  {
    var factor := ActivityFactor(level as real).value;
    var adj := GoalKcalAdjustment(goal as real).value;
    assert ComputeTdee(Num(bmr), Num(level as real)) == Some(RoundedProduct(bmr, factor));
    assert ComputeRecommendedCalories(Num(bmr), Num(level as real), Null, Num(goal as real)) ==
           Some(Recommend(bmr, factor, adj)) by {
      assert CalorieFactor(Num(level as real)) == factor;
      assert GoalAdjustment(Num(goal as real)) == adj;
    }
    RecommendShift(bmr, factor, adj);
  }

  /** Adding a whole number of kcal before rounding adds it after. */
  lemma RecommendShift(b: real, factor: real, adj: int)
    ensures Recommend(b, factor, adj) == RoundedProduct(b, factor) + adj
  {
    RoundShift(b * factor, adj);
  }

  /** A missing or unknown activity level counts as level 1 (factor 1.2); a
      missing or unknown goal counts as maintenance (adjustment 0). */
  lemma RecommendedFallbacks(bmr: JsValue, activityLevel: JsValue, goalLevel: JsValue)
    requires ToNumberOrNull(activityLevel).None? ||
             ToNumberOrNull(activityLevel).value !in {1.0, 2.0, 3.0, 4.0, 5.0}
    requires ToNumberOrNull(goalLevel).None? ||
             ToNumberOrNull(goalLevel).value !in {1.0, 2.0, 3.0, 4.0, 5.0}
    ensures ComputeRecommendedCalories(bmr, activityLevel, Null, goalLevel) ==
            ComputeRecommendedCalories(bmr, Num(1.0), Null, Num(3.0))
  {
    CalorieFactorFallback(activityLevel);
    GoalAdjustmentFallback(goalLevel);
    assert CalorieFactor(Num(1.0)) == 1.2;
    assert GoalAdjustment(Num(3.0)) == 0;
  }

  /** An activity level outside the factor table falls back to 1.2. */
  lemma CalorieFactorFallback(activityLevel: JsValue)
    requires ToNumberOrNull(activityLevel).None? ||
             ToNumberOrNull(activityLevel).value !in {1.0, 2.0, 3.0, 4.0, 5.0}
    ensures CalorieFactor(activityLevel) == 1.2
  {
  }

  /** A goal level outside the adjustment table falls back to 0 kcal. */
  lemma GoalAdjustmentFallback(goalLevel: JsValue)
    requires ToNumberOrNull(goalLevel).None? ||
             ToNumberOrNull(goalLevel).value !in {1.0, 2.0, 3.0, 4.0, 5.0}
    ensures GoalAdjustment(goalLevel) == 0
  {
  }

  // ================================================================ macros

  datatype MacroSplit = MacroSplit(proteinPct: real, carbsPct: real, fatPct: real)

  /** `macroSplitFromActivityLevel(level)`: protein and carb shares by level
      (0.25 and 0.45 for an unknown level), fat the non-negative rest. */
  function MacroSplitFromActivityLevel(level: JsValue): (m: MacroSplit)
    ensures m.proteinPct + m.carbsPct + m.fatPct == 1.0
    ensures 0.2 <= m.proteinPct <= 0.35 && 0.4 <= m.carbsPct <= 0.6 && 0.15 <= m.fatPct <= 0.3
    ensures ToNumberOrNull(level).None? ==> m == MacroSplit(0.25, 0.45, 0.3)
  {
    var al := ToNumberOrNull(level);
    var key := al.GetOr(0.0);
    var proteinPct :=
      if al.None? then 0.25
      else if key == 1.0 then 0.35 else if key == 2.0 then 0.3 else if key == 3.0 then 0.25
      else if key == 4.0 then 0.2 else if key == 5.0 then 0.25 else 0.25;
    var carbsPct :=
      if al.None? then 0.45
      else if key == 1.0 then 0.4 else if key == 2.0 then 0.45 else if key == 3.0 then 0.45
      else if key == 4.0 then 0.6 else if key == 5.0 then 0.6 else 0.45;
    var rest := 1.0 - (proteinPct + carbsPct);
    MacroSplit(proteinPct, carbsPct, if rest > 0.0 then rest else 0.0)
  }

  datatype Macros = Macros(proteinGrams: int, carbsGrams: int, fatGrams: int, split: MacroSplit)

  /** `computeMacrosFromCalories(calories, activityLevel)`: None exactly when
      the calories are not a number; otherwise grams of protein, carbs (4
      kcal/g) and fat (9 kcal/g), each the nearest whole number of grams to
      its share of the calories, and together within 8.5 kcal of them. */
  function ComputeMacrosFromCalories(calories: JsValue, activityLevel: JsValue): (r: Option<Macros>)
    ensures r.None? <==> ToNumberOrNull(calories).None?
    ensures r.Some? ==> r.value.split == MacroSplitFromActivityLevel(activityLevel)
    ensures r.Some? ==> EnergyWithin(r.value, ToNumberOrNull(calories).value, 8.5)
  {
    match ToNumberOrNull(calories)
    case None => None
    case Some(cals) =>
      var split := MacroSplitFromActivityLevel(activityLevel);
      MacrosEnergy(split, cals);
      Some(MacrosFor(split, cals))
  }

  /** Each gram count is the nearest whole number to its share of the
      calories divided by the energy of a gram: 4 kcal for protein and
      carbs, 9 for fat. */
  lemma MacroGramsRound(calories: JsValue, activityLevel: JsValue)
    requires ToNumberOrNull(calories).Some?
    ensures var m := ComputeMacrosFromCalories(calories, activityLevel).value;
            var cals, split := ToNumberOrNull(calories).value, MacroSplitFromActivityLevel(activityLevel);
            RoundsTo(split.proteinPct * cals / 4.0, m.proteinGrams) &&
            RoundsTo(split.carbsPct * cals / 4.0, m.carbsGrams) &&
            RoundsTo(split.fatPct * cals / 9.0, m.fatGrams)
  {
    var cals, split := ToNumberOrNull(calories).value, MacroSplitFromActivityLevel(activityLevel);
    assert ComputeMacrosFromCalories(calories, activityLevel) == Some(MacrosFor(split, cals));
  }

  /** The grams of each macronutrient for `cals` kcal split by `split`:
      protein and carbs at 4 kcal a gram, fat at 9, each rounded. */
  function MacrosFor(split: MacroSplit, cals: real): (m: Macros)
    ensures m.split == split
    ensures RoundsTo(split.proteinPct * cals / 4.0, m.proteinGrams)
    ensures RoundsTo(split.carbsPct * cals / 4.0, m.carbsGrams)
    ensures RoundsTo(split.fatPct * cals / 9.0, m.fatGrams)
  {
    Macros(Round(split.proteinPct * cals / 4.0), Round(split.carbsPct * cals / 4.0),
           Round(split.fatPct * cals / 9.0), split)
  }

  /** The energy of the macros' grams is within `slack` kcal of `kcal`. */
  predicate EnergyWithin(m: Macros, kcal: real, slack: real) {
    var energy := 4 * m.proteinGrams + 4 * m.carbsGrams + 9 * m.fatGrams;
    kcal - slack < energy as real <= kcal + slack
  }

  /** Rounding each part to whole grams moves the total energy by at most
      8.5 kcal when the shares add up to 1. */
  lemma MacrosEnergy(split: MacroSplit, cals: real)
    requires split.proteinPct + split.carbsPct + split.fatPct == 1.0
    ensures EnergyWithin(MacrosFor(split, cals), cals, 8.5)
  {
    var p, c, f := split.proteinPct * cals, split.carbsPct * cals, split.fatPct * cals;
    SharesOfWhole(split.proteinPct, split.carbsPct, split.fatPct, cals);
    GramsEnergy(p, c, f);
  }

  /** Shares that add up to 1 split a whole into parts that add up to it. */
  lemma SharesOfWhole(a: real, b: real, c: real, x: real)
    requires a + b + c == 1.0
    ensures a * x + b * x + c * x == x
  {
    assert a * x + b * x + c * x == (a + b + c) * x;
  }

  /** Rounding each part to whole grams (4, 4 and 9 kcal a gram) moves the
      total energy by at most 8.5 kcal. */
  lemma GramsEnergy(p: real, c: real, f: real)
    ensures var energy := 4 * Round(p / 4.0) + 4 * Round(c / 4.0) + 9 * Round(f / 9.0);
            p + c + f - 8.5 < energy as real <= p + c + f + 8.5
  {
    assert p - 2.0 < (4 * Round(p / 4.0)) as real <= p + 2.0;
    assert c - 2.0 < (4 * Round(c / 4.0)) as real <= c + 2.0;
    assert f - 4.5 < (9 * Round(f / 9.0)) as real <= f + 4.5;
  }

  // ================================================================ water

  /** The water multiplier for a resolved level: 1 when the level is missing,
      0 or not in the table. */
  function WaterFactor(al: Option<real>): (mul: real)
    ensures 0.9 <= mul <= 1.4
  {
    if al.Some? && al.value != 0.0 then WaterMultiplier(al.value).GetOr(1.0) else 1.0
  }

  /** `computeWaterMl(weightKg, activityLevel)`: None exactly when the weight
      is missing or not positive; otherwise 40 ml per kg scaled by the
      level's multiplier, rounded. */
  function ComputeWaterMl(weightKg: JsValue, activityLevel: JsValue): (r: Option<int>)
    ensures r.None? <==> ToNumberOrNull(weightKg).None? || ToNumberOrNull(weightKg).value <= 0.0
  {
    var w := ToNumberOrNull(weightKg);
    if w.None? || w.value <= 0.0 then None
    else Some(WaterFor(w.value, WaterFactor(ToNumberOrNull(activityLevel))))
  }

  /** `Math.round(w * 40 * mul)`. */
  function WaterFor(w: real, mul: real): int {
    Round(w * 40.0 * mul)
  }

  /** The water target is the integer nearest 40 ml per kg times the
      multiplier, and is not negative for a positive weight. */
  lemma WaterNearest(w: real, mul: real)
    requires mul > 0.0
    ensures RoundsTo(w * 40.0 * mul, WaterFor(w, mul))
    ensures w > 0.0 ==> WaterFor(w, mul) >= 0
  {
    if w > 0.0 {
      assert w * 40.0 * mul > 0.0;
    }
  }

  /** The water target is 40 ml per kg times the multiplier, rounded to the
      nearest integer, and never negative. */
  lemma WaterRounds(weightKg: JsValue, activityLevel: JsValue)
    requires ComputeWaterMl(weightKg, activityLevel).Some?
    ensures var x := ToNumberOrNull(weightKg).value * 40.0 * WaterFactor(ToNumberOrNull(activityLevel));
            var r := ComputeWaterMl(weightKg, activityLevel).value;
            r >= 0 && RoundsTo(x, r)
  {
    var w, mul := ToNumberOrNull(weightKg).value, WaterFactor(ToNumberOrNull(activityLevel));
    assert ComputeWaterMl(weightKg, activityLevel) == Some(WaterFor(w, mul));
    WaterNearest(w, mul);
  }

  // ================================================================ recipe aggregation

  /** The six nutrition fields summed over a recipe's ingredients. */
  const NutritionKeys: seq<string> :=
    ["kcal", "water", "macro_protein_total", "macro_carb_total", "macro_carb_fiber", "macro_fat_total"]

  const NutritionKeySet: set<string> := set k | k in NutritionKeys

  /** `Math.round(x * 100) / 100`: a whole number of hundredths, the one
      nearest `x` (halves up). */
  function RoundToCents(x: real): (r: real)
    ensures IsIntegral(r * 100.0) && RoundsTo(x * 100.0, (r * 100.0).Floor)
    ensures x - 0.005 < r <= x + 0.005
  {
    Round(x * 100.0) as real / 100.0
  }

  /** Rounding to cents twice is rounding once. */
  lemma RoundToCentsIdempotent(x: real)
    ensures RoundToCents(RoundToCents(x)) == RoundToCents(x)
  {
    var k := Round(x * 100.0);
    assert RoundToCents(x) * 100.0 == k as real;
    RoundOfInteger(k);
  }

  /** An ingredient's quantity: its numeric `qty`, 1 when that is missing or
      not a number (a quantity of 0 stays 0). */
  function Quantity(ingredient: JsValue): real {
    ToNumberOrNull(Get(ingredient, "qty")).GetOr(1.0)
  }

  /** An ingredient's amount of one field: 0 when missing or not a number. */
  function Amount(ingredient: JsValue, key: string): real {
    ToNumberOrNull(Get(ingredient, key)).GetOr(0.0)
  }

  /** What one ingredient adds to the field `key`: its amount times its
      quantity. */
  function Contribution(ingredient: JsValue, key: string): real {
    Amount(ingredient, key) * Quantity(ingredient)
  }

  /** The unrounded sum of the contributions to `key` over the ingredients,
      added in order. */
  function SumFor(items: seq<JsValue>, key: string): real {
    if |items| == 0 then 0.0
    else SumFor(items[..|items| - 1], key) + Contribution(items[|items| - 1], key)
  }

  /** What `aggregateIngredientsNutrition` yields: null for a non-array, a
      TypeError when an element is null or undefined (reading `it.qty`), and
      otherwise the rounded totals. */
  datatype Aggregate = NotAnArray | ElementTypeError | Totals(sum: map<string, real>)

  /** The specification of the aggregation. An omitted argument (undefined)
      is the default empty array. */
  function AggregateSpec(ingredients: JsValue): Aggregate {
    var v := if ingredients.Undefined? then Arr([]) else ingredients;
    if !v.Arr? then NotAnArray
    else if HasNullishElement(v.items) then ElementTypeError
    else Totals(map k | k in NutritionKeys :: RoundToCents(SumFor(v.items, k)))
  }

  predicate HasNullishElement(items: seq<JsValue>) {
    exists i :: 0 <= i < |items| && Nullish(items[i])
  }

  /** The key filter of the rounding pass. */
  predicate IsRoundedKey(k: string) {
    k == "kcal" || StartsWith(k, "macro_") || k == "water"
  }

  /** The unrounded sums of every field over a prefix of the ingredients. */
  predicate IsPartialSum(sum: map<string, real>, items: seq<JsValue>) {
    && sum.Keys == NutritionKeySet
    && forall k :: k in sum ==> sum[k] == SumFor(items, k)
  }

  /** The six additions of the loop body, each field getting its part
      `part(k)`. */
  method AddParts(sum: map<string, real>, part: string -> real) returns (next: map<string, real>)
    requires sum.Keys == NutritionKeySet
    ensures next.Keys == sum.Keys
    ensures forall k :: k in next ==> next[k] == sum[k] + part(k)
  {
    next := sum;
    next := next["kcal" := next["kcal"] + part("kcal")];
    next := next["water" := next["water"] + part("water")];
    next := next["macro_protein_total" := next["macro_protein_total"] + part("macro_protein_total")];
    next := next["macro_carb_total" := next["macro_carb_total"] + part("macro_carb_total")];
    next := next["macro_carb_fiber" := next["macro_carb_fiber"] + part("macro_carb_fiber")];
    next := next["macro_fat_total" := next["macro_fat_total"] + part("macro_fat_total")];
  }

  /** One pass of the loop body: every field of `it` times its quantity is
      added to the running sums. */
  method AddIngredient(sum: map<string, real>, it: JsValue) returns (next: map<string, real>)
    requires sum.Keys == NutritionKeySet
    ensures next.Keys == sum.Keys
    ensures forall k :: k in next ==> next[k] == sum[k] + Contribution(it, k)
  {
    next := AddParts(sum, k => Contribution(it, k));
  }

  /** Extending the prefix by one ingredient adds that ingredient's part. */
  lemma SumForStep(items: seq<JsValue>, i: nat, key: string)
    requires i < |items|
    ensures SumFor(items[..i + 1], key) == SumFor(items[..i], key) + Contribution(items[i], key)
  {
    assert items[..i + 1][..i] == items[..i];
  }

  /** Adding the next ingredient's part to the sums over a prefix gives the
      sums over the prefix one longer. */
  lemma PartialSumStep(items: seq<JsValue>, i: nat, sum: map<string, real>, next: map<string, real>)
    requires i < |items| && IsPartialSum(sum, items[..i])
    requires next.Keys == sum.Keys
    requires forall k :: k in next ==> next[k] == sum[k] + Contribution(items[i], k)
    ensures IsPartialSum(next, items[..i + 1])
  {
    forall k | k in next ensures next[k] == SumFor(items[..i + 1], k) {
      SumForStep(items, i, k);
    }
  }

  /** The rounding pass: every field the key filter selects (here all six)
      is rounded to cents in place. */
  method RoundTotals(sum: map<string, real>) returns (rounded: map<string, real>)
    requires sum.Keys == NutritionKeySet
    ensures rounded.Keys == sum.Keys
    ensures forall k :: k in rounded ==> rounded[k] == RoundToCents(sum[k])
  {
    rounded := sum;
    var keys := NutritionKeys;
    var j := 0;
    while j < |keys|
      invariant 0 <= j <= |keys|
      invariant rounded.Keys == sum.Keys
      invariant forall n :: 0 <= n < j ==> rounded[keys[n]] == RoundToCents(sum[keys[n]])
      invariant forall n :: j <= n < |keys| ==> rounded[keys[n]] == sum[keys[n]]
    {
      var k := keys[j];
      assert IsRoundedKey(k);
      if IsRoundedKey(k) {
        rounded := rounded[k := RoundToCents(rounded[k])];
      }
      j := j + 1;
    }
    forall k | k in rounded ensures rounded[k] == RoundToCents(sum[k]) {
      var n :| 0 <= n < |keys| && keys[n] == k;
    }
  }

  /** The accumulation loop over the ingredients: the unrounded sums of
      every field, or None when reading an element's `qty` throws. */
  method SumIngredients(items: seq<JsValue>) returns (r: Option<map<string, real>>)
    ensures r.None? <==> HasNullishElement(items)
    ensures r.Some? ==> IsPartialSum(r.value, items)
  {
    var sum: map<string, real> := map k | k in NutritionKeySet :: 0.0;
    var i := 0;
    while i < |items|
      invariant 0 <= i <= |items|
      invariant forall j :: 0 <= j < i ==> !Nullish(items[j])
      invariant IsPartialSum(sum, items[..i])
    {
      var it := items[i];
      if Nullish(it) {
        return None;
      }
      var next := AddIngredient(sum, it);
      PartialSumStep(items, i, sum, next);
      sum := next;
      i := i + 1;
    }
    assert items[..|items|] == items;
    return Some(sum);
  }

  /** `aggregateIngredientsNutrition(ingredientsArray)`: the loop adds every
      field times its quantity into `sum`, then a second pass rounds, in
      place, the fields the key filter selects. */
  method AggregateIngredientsNutrition(ingredients: JsValue) returns (r: Aggregate)
    ensures r == AggregateSpec(ingredients)
  {
    var v := if ingredients.Undefined? then Arr([]) else ingredients;
    if !v.Arr? {
      return NotAnArray;
    }
    assert AggregateSpec(ingredients) == AggregateSpec(v);
    var sums := SumIngredients(v.items);
    if sums.None? {
      return ElementTypeError;
    }
    var rounded := RoundTotals(sums.value);
    AggregateOfElements(v, rounded);
    return Totals(rounded);
  }

  /** One null or undefined element makes the aggregation throw. */
  lemma AggregateRejectsNullishElement(ingredients: JsValue, i: int)
    requires ingredients.Arr? && 0 <= i < |ingredients.items| && Nullish(ingredients.items[i])
    ensures AggregateSpec(ingredients) == ElementTypeError
  {
    assert HasNullishElement(ingredients.items);
  }

  /** Without null elements the aggregation is the rounded sums. */
  lemma AggregateOfElements(ingredients: JsValue, totals: map<string, real>)
    requires ingredients.Arr?
    requires forall j :: 0 <= j < |ingredients.items| ==> !Nullish(ingredients.items[j])
    requires totals.Keys == NutritionKeySet
    requires forall k :: k in totals ==> totals[k] == RoundToCents(SumFor(ingredients.items, k))
    ensures AggregateSpec(ingredients) == Totals(totals)
  {
  }

  /** No ingredients, or an omitted argument, give all six totals as 0. */
  lemma AggregateOfNothing()
    ensures AggregateSpec(Arr([])) == AggregateSpec(Undefined)
    ensures AggregateSpec(Undefined) == Totals(map k | k in NutritionKeys :: 0.0)
  {
  }

  /** Anything but an array or undefined is not aggregated. */
  lemma AggregateRejectsNonArrays(v: JsValue)
    requires !v.Arr? && !v.Undefined?
    ensures AggregateSpec(v) == NotAnArray
  {
  }

  /** The totals split over a concatenation of ingredient lists. */
  lemma {:induction false} SumForAppend(a: seq<JsValue>, b: seq<JsValue>, key: string)
    ensures SumFor(a + b, key) == SumFor(a, key) + SumFor(b, key)
    decreases |b|
  {
    if |b| == 0 {
      assert a + b == a;
    } else {
      var b' := b[..|b| - 1];
      assert (a + b)[..|a + b| - 1] == a + b';
      assert (a + b)[|a + b| - 1] == b[|b| - 1];
      SumForAppend(a, b', key);
    }
  }

  /** Appending an ingredient adds its contribution to every total. */
  lemma IngredientContribution(items: seq<JsValue>, it: JsValue, key: string)
    ensures SumFor(items + [it], key) == SumFor(items, key) + Contribution(it, key)
  {
    assert (items + [it])[..|items|] == items;
  }

  /** A missing quantity counts as 1, a quantity of 0 or a missing field
      contributes nothing, and a numeric field and quantity contribute their
      product. */
  lemma ContributionCases(it: JsValue, key: string)
    ensures Nullish(Get(it, "qty")) ==> Contribution(it, key) == Amount(it, key)
    ensures Get(it, "qty") == Num(0.0) ==> Contribution(it, key) == 0.0
    ensures Nullish(Get(it, key)) ==> Contribution(it, key) == 0.0
    ensures Get(it, key).Num? && Get(it, "qty").Num? ==>
              Contribution(it, key) == Get(it, key).n * Get(it, "qty").n
  {
  }

  // ================================================================ the summary

  /** The NutritionSummary that the summary assembler returns. */
  datatype Summary = Summary(
    profileRow: JsValue, goalsRow: JsValue, energyRow: JsValue,
    sex: Option<string>, dob: JsValue, age: Option<int>,
    heightCm: Option<real>, weightKg: Option<real>,
    activityLevel: Option<real>, activityName: Option<string>,
    goalLevel: int, goalName: string,
    bmrKcal: Option<real>, tdeeKcal: Option<real>, recommendedKcal: Option<int>,
    macros: Option<Macros>, waterMl: Option<int>)

  /** A destructured parameter's default: undefined becomes null. */
  function DefaultNull(v: JsValue): (r: JsValue)
    ensures !v.Undefined? ==> r == v
    ensures v.Undefined? ==> r == Null
  {
    if v.Undefined? then Null else v
  }

  /** The summary's sex: "male" for a text starting with m, "female" for one
      starting with f (in any case), None otherwise. */
  function NormalizeSex(sexRaw: JsValue): (sex: Option<string>)
    ensures sex in {None, Some("male"), Some("female")}
    ensures !Truthy(sexRaw) ==> sex.None?
  {
    if !Truthy(sexRaw) then None
    else
      var s := ToLower(ToJsString(sexRaw));
      if StartsWith(s, "m") then Some("male")
      else if StartsWith(s, "f") then Some("female")
      else None
  }

  /** `a ?? b` on the helpers' optional results. */
  function OrElse<T>(a: Option<T>, b: Option<T>): (r: Option<T>)
    ensures a.Some? ==> r == a
    ensures a.None? ==> r == b
  {
    if a.Some? then a else b
  }

  function IntToReal(o: Option<int>): (r: Option<real>)
    ensures r.Some? <==> o.Some?
    ensures o.Some? ==> r.value == o.value as real
  {
    if o.Some? then Some(o.value as real) else None
  }

  /** The activity level the summary resolves: the energy row's number, else
      the level of the weekly minutes. */
  function ResolvedActivityLevel(goalsRow: JsValue, energyRow: JsValue): Option<real> {
    OrElse(ToNumberOrNull(Get(energyRow, "activity_level")),
           IntToReal(ActivityLevelFromMinutes(Get(goalsRow, "active_time"))))
  }

  /** The goal text the summary reads: the energy row's, else the goals
      row's, else "maintain". */
  function ServerGoalText(goalsRow: JsValue, energyRow: JsValue): JsValue {
    Coalesce(Get(energyRow, "weight_goal"), Coalesce(Get(goalsRow, "weight_goal"), Str("maintain")))
  }

  /** `deriveProfileSummary({ profileRow, goalsRow, energyRow })` on the day
      `today`: each of activity level, BMR and TDEE is the energy row's number
      when it has one and is computed locally otherwise; missing inputs give
      None for the fields that depend on them and only for those; the rows
      are returned as given. */
  function DeriveProfileSummary(profileRow: JsValue, goalsRow: JsValue, energyRow: JsValue,
                                today: CalendarDate, dateOf: DateParser): Summary
  {
    var profileRow := DefaultNull(profileRow);
    var goalsRow := DefaultNull(goalsRow);
    var energyRow := DefaultNull(energyRow);
    var sex := NormalizeSex(Coalesce(Get(profileRow, "sex"), Null));
    var dob := Coalesce(Get(profileRow, "birth_date"), Null);
    var age := ComputeAgeFromDOB(dob, today, dateOf);
    var heightCm := ToNumberOrNull(Get(goalsRow, "height"));
    var weightKg := ToNumberOrNull(Get(goalsRow, "weight"));
    var activityLevel := ResolvedActivityLevel(goalsRow, energyRow);
    var bmrKcal := OrElse(ToNumberOrNull(Get(energyRow, "bmr_kcal")),
                          IntToReal(ComputeBmr(FromString(sex), FromInt(age), FromReal(heightCm), FromReal(weightKg))));
    var tdeeKcal := OrElse(ToNumberOrNull(Get(energyRow, "tdee_kcal")),
                           if bmrKcal.Some? && activityLevel.Some?
                           then IntToReal(ComputeTdee(Num(bmrKcal.value), Num(activityLevel.value)))
                           else None);
    var goalLevel := GoalLevelFromText(ServerGoalText(goalsRow, energyRow));
    var recommendedKcal := ComputeRecommendedCalories(FromReal(bmrKcal), FromReal(activityLevel),
                                                      FromReal(ToNumberOrNull(Get(energyRow, "recommended_kcal"))),
                                                      Num(goalLevel as real));
    var macros := ComputeMacrosFromCalories(FromInt(recommendedKcal), FromReal(activityLevel));
    var waterMl := ComputeWaterMl(FromReal(weightKg), FromReal(activityLevel));
    var activityName := if activityLevel.Some? && activityLevel.value != 0.0
                        then ActivityLevelName(activityLevel.value) else None;
    Summary(profileRow, goalsRow, energyRow, sex, dob, age, heightCm, weightKg,
            activityLevel, activityName, goalLevel, GoalLevelName(goalLevel as real).value,
            bmrKcal, tdeeKcal, recommendedKcal, macros, waterMl)
  }

  /** The rows come back as given (undefined as null); the age, height and
      weight are read from them. */
  lemma SummaryInputs(profileRow: JsValue, goalsRow: JsValue, energyRow: JsValue,
                      today: CalendarDate, dateOf: DateParser)
    ensures var s := DeriveProfileSummary(profileRow, goalsRow, energyRow, today, dateOf);
            s.profileRow == DefaultNull(profileRow) && s.goalsRow == DefaultNull(goalsRow) &&
            s.energyRow == DefaultNull(energyRow) &&
            s.age == ComputeAgeFromDOB(Coalesce(Get(profileRow, "birth_date"), Null), today, dateOf) &&
            s.heightCm == ToNumberOrNull(Get(goalsRow, "height")) &&
            s.weightKg == ToNumberOrNull(Get(goalsRow, "weight"))
  {
  }

  /** The goal level is read from the goal text and is 2, 3 or 4, and the goal
      name is that level's name. */
  lemma SummaryGoal(profileRow: JsValue, goalsRow: JsValue, energyRow: JsValue,
                    today: CalendarDate, dateOf: DateParser)
    ensures var s := DeriveProfileSummary(profileRow, goalsRow, energyRow, today, dateOf);
            s.goalLevel == GoalLevelFromText(ServerGoalText(goalsRow, energyRow)) &&
            s.goalLevel in {2, 3, 4} && GoalLevelName(s.goalLevel as real) == Some(s.goalName)
  {
  }

  /** The macros exist exactly when there is a recommendation, and the water
      target exactly when there is a positive weight. */
  lemma SummaryMacrosAndWater(profileRow: JsValue, goalsRow: JsValue, energyRow: JsValue,
                              today: CalendarDate, dateOf: DateParser)
    ensures var s := DeriveProfileSummary(profileRow, goalsRow, energyRow, today, dateOf);
            (s.macros.Some? <==> s.recommendedKcal.Some?) &&
            (s.waterMl.None? <==> s.weightKg.None? || s.weightKg.value <= 0.0)
  {
  }

  /** A number the energy row holds wins over the value computed locally:
      for the activity level, the BMR, the TDEE and the recommendation. */
  lemma SummaryPrefersServerLevel(profileRow: JsValue, goalsRow: JsValue, energyRow: JsValue,
                                  today: CalendarDate, dateOf: DateParser)
    requires ToNumberOrNull(Get(energyRow, "activity_level")).Some?
    ensures DeriveProfileSummary(profileRow, goalsRow, energyRow, today, dateOf).activityLevel ==
            ToNumberOrNull(Get(energyRow, "activity_level"))
  {
  }

  lemma SummaryPrefersServerBmr(profileRow: JsValue, goalsRow: JsValue, energyRow: JsValue,
                                today: CalendarDate, dateOf: DateParser)
    requires ToNumberOrNull(Get(energyRow, "bmr_kcal")).Some?
    ensures DeriveProfileSummary(profileRow, goalsRow, energyRow, today, dateOf).bmrKcal ==
            ToNumberOrNull(Get(energyRow, "bmr_kcal"))
  {
  }

  lemma SummaryPrefersServerTdee(profileRow: JsValue, goalsRow: JsValue, energyRow: JsValue,
                                 today: CalendarDate, dateOf: DateParser)
    requires ToNumberOrNull(Get(energyRow, "tdee_kcal")).Some?
    ensures DeriveProfileSummary(profileRow, goalsRow, energyRow, today, dateOf).tdeeKcal ==
            ToNumberOrNull(Get(energyRow, "tdee_kcal"))
  {
  }

  lemma SummaryPrefersServerTarget(profileRow: JsValue, goalsRow: JsValue, energyRow: JsValue,
                                   today: CalendarDate, dateOf: DateParser)
    requires ToNumberOrNull(Get(energyRow, "recommended_kcal")).Some?
    ensures DeriveProfileSummary(profileRow, goalsRow, energyRow, today, dateOf).recommendedKcal ==
            Some(Round(ToNumberOrNull(Get(energyRow, "recommended_kcal")).value))
  {
  }

  /** Without a server number, the activity level comes from the weekly
      minutes and the BMR from the summary's own sex, age, height and
      weight. */
  lemma SummaryComputesMissingNumbers(profileRow: JsValue, goalsRow: JsValue, energyRow: JsValue,
                                      today: CalendarDate, dateOf: DateParser)
    ensures var s := DeriveProfileSummary(profileRow, goalsRow, energyRow, today, dateOf);
            (ToNumberOrNull(Get(energyRow, "activity_level")).None? ==>
               s.activityLevel == IntToReal(ActivityLevelFromMinutes(Get(goalsRow, "active_time")))) &&
            (ToNumberOrNull(Get(energyRow, "bmr_kcal")).None? ==>
               s.bmrKcal == IntToReal(ComputeBmr(FromString(s.sex), FromInt(s.age),
                                                 FromReal(s.heightCm), FromReal(s.weightKg))))
  {
  }

  /** Without a server TDEE, the TDEE exists exactly when there is a BMR and
      an activity level from 1 to 5. */
  lemma SummaryTdeeNeedsBmrAndLevel(profileRow: JsValue, goalsRow: JsValue, energyRow: JsValue,
                                    today: CalendarDate, dateOf: DateParser)
    requires ToNumberOrNull(Get(energyRow, "tdee_kcal")).None?
    ensures var s := DeriveProfileSummary(profileRow, goalsRow, energyRow, today, dateOf);
            s.tdeeKcal.Some? <==>
              s.bmrKcal.Some? && s.activityLevel.Some? && s.activityLevel.value in {1.0, 2.0, 3.0, 4.0, 5.0}
  {
  }

  /** Without an energy row, a missing weight takes away the BMR and the
      water target (and so TDEE, calories and macros), but not the age or the
      activity level, which do not depend on it. */
  lemma MissingWeightNullsOnlyWhatNeedsIt(profileRow: JsValue, goalsRow: JsValue, energyRow: JsValue,
                                          today: CalendarDate, dateOf: DateParser)
    requires Nullish(energyRow)
    requires Nullish(Get(goalsRow, "weight"))
    ensures var s := DeriveProfileSummary(profileRow, goalsRow, energyRow, today, dateOf);
            s.bmrKcal.None? && s.waterMl.None? && s.tdeeKcal.None? &&
            s.recommendedKcal.None? && s.macros.None? &&
            s.age == ComputeAgeFromDOB(Coalesce(Get(profileRow, "birth_date"), Null), today, dateOf) &&
            s.activityLevel == IntToReal(ActivityLevelFromMinutes(Get(goalsRow, "active_time")))
  {
  }

  /** Without a numeric TDEE from the server, no activity level means no
      TDEE. */
  lemma NoActivityLevelNoTdee(profileRow: JsValue, goalsRow: JsValue, energyRow: JsValue,
                              today: CalendarDate, dateOf: DateParser)
    requires ToNumberOrNull(Get(energyRow, "tdee_kcal")).None?
    requires ResolvedActivityLevel(goalsRow, energyRow).None?
    ensures DeriveProfileSummary(profileRow, goalsRow, energyRow, today, dateOf).tdeeKcal.None?
    ensures DeriveProfileSummary(profileRow, goalsRow, energyRow, today, dateOf).activityName.None?
  {
  }

  // ================================================================ a worked example

  /** A 30-year-old man, 180 cm and 80 kg, active 200 minutes a week, aiming
      to maintain: level 3, BMR 1780, TDEE 2759, water 3600 ml. */
  lemma WorkedExampleFormulas()
    ensures ActivityLevelFromMinutes(Num(200.0)) == Some(3)
    ensures ComputeBmr(Str("male"), Num(30.0), Num(180.0), Num(80.0)) == Some(1780)
    ensures ComputeTdee(Num(1780.0), Num(3.0)) == Some(2759)
    ensures ComputeWaterMl(Num(80.0), Num(3.0)) == Some(3600)
  {
    assert IsMaleText(Str("male"));
    assert MifflinStJeor(80.0, 180.0, 30.0, 5) == 1780.0;
    RoundOfInteger(1780);
    assert Round(2759.0) == 2759;
    RoundOfInteger(3600);
  }

  /** The same man's recommendation is his TDEE, and its macros are 172 g of
      protein, 310 g of carbohydrate and 92 g of fat. */
  lemma WorkedExampleTargets()
    ensures ComputeRecommendedCalories(Num(1780.0), Num(3.0), Null, Num(3.0)) == Some(2759)
    ensures ComputeMacrosFromCalories(Num(2759.0), Num(3.0)) ==
            Some(Macros(172, 310, 92, MacroSplit(0.25, 0.45, 0.3)))
  {
    assert Round(2759.0) == 2759;
    assert MacroSplitFromActivityLevel(Num(3.0)) == MacroSplit(0.25, 0.45, 0.3);
    assert Round(0.25 * 2759.0 / 4.0) == 172;
    assert Round(0.45 * 2759.0 / 4.0) == 310;
    assert Round(0.3 * 2759.0 / 9.0) == 92;
  }

  /** That man's profile and goals rows. */
  const ExampleProfileRow: JsValue := Obj(map["sex" := Str("Male"), "birth_date" := Str("1990-01-01")])
  const ExampleGoalsRow: JsValue :=
    Obj(map["height" := Num(180.0), "weight" := Num(80.0),
            "active_time" := Num(200.0), "weight_goal" := Str("maintain")])

  lemma WorkedExampleRows()
    ensures Get(ExampleProfileRow, "sex") == Str("Male")
    ensures Get(ExampleProfileRow, "birth_date") == Str("1990-01-01")
    ensures Get(ExampleGoalsRow, "height") == Num(180.0) && Get(ExampleGoalsRow, "weight") == Num(80.0)
    ensures Get(ExampleGoalsRow, "active_time") == Num(200.0)
    ensures Get(ExampleGoalsRow, "weight_goal") == Str("maintain")
    ensures NormalizeSex(Str("Male")) == Some("male")
  {
    assert ToLower("Male") == "male";
  }

  /** The whole summary for that man, from his rows, with no energy row, on
      1 June 2020 for a birth date of 1 January 1990. */
  lemma WorkedExampleSummary(dateOf: DateParser)
    requires dateOf(Str("1990-01-01")) == Some(CalendarDate(1990, 0, 1))
    ensures var s := DeriveProfileSummary(ExampleProfileRow, ExampleGoalsRow, Null,
                                          CalendarDate(2020, 5, 1), dateOf);
            s.sex == Some("male") && s.age == Some(30) && s.activityLevel == Some(3.0) &&
            s.bmrKcal == Some(1780.0) && s.tdeeKcal == Some(2759.0) &&
            s.recommendedKcal == Some(2759) && s.waterMl == Some(3600) &&
            s.goalLevel == 3 && s.goalName == "Maintenance" &&
            s.macros == Some(Macros(172, 310, 92, MacroSplit(0.25, 0.45, 0.3)))
  {
    WorkedExampleRows();
    WorkedExampleFormulas();
    WorkedExampleTargets();
    var s := DeriveProfileSummary(ExampleProfileRow, ExampleGoalsRow, Null, CalendarDate(2020, 5, 1), dateOf);
    assert s.age == Some(30);
    assert s.activityLevel == Some(3.0);
    assert s.bmrKcal == Some(1780.0);
    assert s.recommendedKcal == Some(2759);
  }
}
