/** The pure parts of src/pages/ProfilePage.jsx: the display rounding, the
    two form-field validators, the goal level inferred from the stored goal
    text, the form prefill, the payload `handleSave` sends and the rows it
    keeps afterwards. The page's React state (`rows`, `form`, `editing`) is
    passed in and returned as values; the upsert and the energy refresh are
    parameters. */
module ProfilePage {
  import opened Wrappers
  import opened JsValues
  import opened ProfileTransforms
  import ProfileApi

  // ================================================================ rounding

  /** `roundIfNumber(val)`: a finite number becomes the nearest integer;
      anything else, NaN and the infinities included, is returned as it is. */
  function RoundIfNumber(v: JsValue): (r: JsValue)
    ensures v.Num? ==> r.Num? && IsIntegral(r.n) && RoundsTo(v.n, r.n.Floor)
    ensures !v.Num? ==> r == v
  {
    if v.Num? then Num(Round(v.n) as real) else v
  }

  /** Rounding twice is rounding once. */
  lemma RoundIfNumberIdempotent(v: JsValue)
    ensures RoundIfNumber(RoundIfNumber(v)) == RoundIfNumber(v)
  {
    if v.Num? {
      RoundOfInteger(Round(v.n));
    }
  }

  // ================================================================ validators

  /** `toPositiveNumberOrNull(s)`: null for null, undefined and "", and
      otherwise `Number(s)` when it is finite and positive. */
  function ToPositiveNumberOrNull(s: JsValue): (r: Option<real>)
    ensures r.Some? <==>
              !Nullish(s) && s != Str("") && ToNumber(s).Finite? && ToNumber(s).value > 0.0
    ensures r.Some? ==> ToNumber(s) == Finite(r.value) && r.value > 0.0
  {
    if Nullish(s) || s == Str("") then None
    else
      match ToNumber(s)
      case Finite(n) => if n > 0.0 then Some(n) else None
      case _ => None
  }

  /** `toNonNegativeIntOrNull(s)`: null for null, undefined and "", and
      otherwise `Number(s)` when it is a finite integer that is not
      negative. */
  function ToNonNegativeIntOrNull(s: JsValue): (r: Option<nat>)
    ensures r.Some? <==>
              !Nullish(s) && s != Str("") && ToNumber(s).Finite? &&
              IsIntegral(ToNumber(s).value) && ToNumber(s).value >= 0.0
    ensures r.Some? ==> ToNumber(s) == Finite(r.value as real)
  {
    if Nullish(s) || s == Str("") then None
    else
      match ToNumber(s)
      case Finite(n) => if IsIntegral(n) && n >= 0.0 then Some(n.Floor) else None
      case _ => None
  }

  /** Against `toNumberOrNull`: the positive-number validator is that
      conversion restricted to positive results, so its guard on "" changes
      nothing ("" converts to 0, which is not positive). */
  lemma PositiveIsPositivePartOfNumber(s: JsValue)
    ensures var n := ToNumberOrNull(s);
            ToPositiveNumberOrNull(s) == (if n.Some? && n.value > 0.0 then n else None)
  {
    NumberOfEmptyValues();
  }

  /** Against `isFiniteInt`: the integer validator is that conversion
      restricted to results that are not negative, away from "" and null. */
  lemma IntegerValidatorVersusIsFiniteInt(s: JsValue)
    ensures var n := ProfileApi.IsFiniteInt(s);
            s != Str("") && !s.Null? ==>
              ToNonNegativeIntOrNull(s) == (if n.Some? && n.value >= 0 then Some(n.value as nat) else None)
  {
    var n := ProfileApi.IsFiniteInt(s);
    if s != Str("") && !s.Null? {
      if n.Some? {
        assert ToNumber(s) == Finite(n.value as real);
        assert !Nullish(s);
      } else {
        assert !(ToNumber(s).Finite? && IsIntegral(ToNumber(s).value));
      }
    }
  }

  /** On "" and null the two disagree. */
  lemma IntegerValidatorOnEmptyValues()
    ensures ToNonNegativeIntOrNull(Str("")).None? && ProfileApi.IsFiniteInt(Str("")) == Some(0)
    ensures ToNonNegativeIntOrNull(Null).None? && ProfileApi.IsFiniteInt(Null) == Some(0)
  {
    EmptyTextIsZero();
    NullIsZero();
  }

  lemma EmptyTextIsZero()
    ensures ProfileApi.IsFiniteInt(Str("")) == Some(0)
  {
    NumberOfEmptyValues();
    var x := ToNumber(Str(""));
    assert x == Finite(0.0);
    assert IsIntegral(0.0) && (0.0).Floor == 0;
  }

  lemma NullIsZero()
    ensures ProfileApi.IsFiniteInt(Null) == Some(0)
  {
    assert ToNumber(Null) == Finite(0.0);
    assert IsIntegral(0.0) && (0.0).Floor == 0;
  }

  /** The text of a natural number is accepted by both validators and
      converted back to the number (0 only by the integer one). */
  lemma ValidatorsReadNaturalText(n: nat)
    ensures ToNonNegativeIntOrNull(Str(NatToString(n))) == Some(n)
    ensures n > 0 ==> ToPositiveNumberOrNull(Str(NatToString(n))) == Some(n as real)
  {
    var t := NatToString(n);
    NumberOfNatText(n);
    assert ToNumber(Str(t)) == Finite(n as real);
    assert Str(t) != Str("") && !Nullish(Str(t));
    assert IsIntegral(n as real);
  }

  // ================================================================ level

  /** The form's goal level inferred from the stored goal text
      (`rows.goals?.weight_goal ?? "maintain"`): "lose" is 2, "gain" is 4,
      anything else, a missing text included, is 3. */
  function InferredLevel(goals: JsValue): (level: int)
    ensures level in {2, 3, 4}
    ensures level == 2 <==> Get(goals, "weight_goal") == Str("lose")
    ensures level == 4 <==> Get(goals, "weight_goal") == Str("gain")
  {
    var stored := Coalesce(Get(goals, "weight_goal"), Str("maintain"));
    if stored == Str("lose") then 2 else if stored == Str("gain") then 4 else 3
  }

  /** The page's inference agrees with `goalLevelFromText` on the stored
      text, and the level it infers from a saved text maps back to that
      text. */
  lemma InferredLevelIsGoalLevelFromText(goals: JsValue)
    ensures InferredLevel(goals) == GoalLevelFromText(Get(goals, "weight_goal"))
    ensures var t := Get(goals, "weight_goal");
            t.Str? && t.s in {"lose", "maintain", "gain"} ==>
              GoalTextFromLevel(Num(InferredLevel(goals) as real)) == t.s
  {
    var t := Get(goals, "weight_goal");
    if t.Str? && t.s in {"lose", "maintain", "gain"} {
      GoalTextRoundTrip(t.s);
    }
  }

  // ================================================================ form

  /** The page's rows: the profile, goals and energy rows, each an object
      or null. */
  datatype Rows = Rows(profile: JsValue, goals: JsValue, energy: JsValue)

  /** The edit form; every field holds what its input holds. */
  datatype Form = Form(birthDate: JsValue, sex: JsValue, height: JsValue, weight: JsValue,
                       activeTime: JsValue, weightGoalLevel: JsValue)

  /** The form before any prefill. */
  const InitialForm: Form := Form(Str(""), Str(""), Str(""), Str(""), Str(""), Str("3"))

  /** The prefill runs when the form is not being edited and some row is
      loaded. */
  predicate ShouldPrefill(editing: bool, rows: Rows) {
    !editing && (Truthy(rows.profile) || Truthy(rows.goals))
  }

  /** `String(x)` of a measurement when it is known and positive, "" otherwise. */
  function PositiveText(x: Option<real>): (t: JsValue)
    ensures t == Str("") <==> !(x.Some? && x.value > 0.0)
    ensures t != Str("") ==> t == Str(NumberToString(x.value))
  {
    if x.Some? && x.value > 0.0 then Str(NumberToString(x.value)) else Str("")
  }

  /** The prefilled form, from the rows and the summary derived from them:
      the stored birth date and sex or "", height and weight only when
      positive, the active time when present, and the inferred level. */
  function Prefill(rows: Rows, summary: Summary): (f: Form)
    ensures f.height == PositiveText(summary.heightCm) && f.weight == PositiveText(summary.weightKg)
    ensures f.sex == (if summary.sex.Some? then Str(summary.sex.value) else Str(""))
    ensures Nullish(Get(rows.goals, "active_time")) ==> f.activeTime == Str("")
    ensures !Nullish(Get(rows.goals, "active_time")) ==> f.activeTime == Str(ToJsString(Get(rows.goals, "active_time")))
    ensures Truthy(Get(rows.profile, "birth_date")) ==> f.birthDate == Get(rows.profile, "birth_date")
    ensures !Truthy(Get(rows.profile, "birth_date")) ==> f.birthDate == Str("")
    ensures f.weightGoalLevel == Str(NatToString(InferredLevel(rows.goals)))
  {
    var birthDate := Coalesce(Get(rows.profile, "birth_date"), Str(""));
    var sex := if summary.sex.Some? then Str(summary.sex.value) else Null;
    var activeTime := Coalesce(Get(rows.goals, "active_time"), Null);
    Form(Or(birthDate, Str("")),
         Or(sex, Str("")),
         PositiveText(summary.heightCm),
         PositiveText(summary.weightKg),
         if !Nullish(activeTime) then Str(ToJsString(activeTime)) else Str(""),
         Str(NatToString(InferredLevel(rows.goals))))
  }

  /** The summary the page derives from its rows (`rows.profile ??
      undefined` and so on). */
  function PageSummary(rows: Rows, today: CalendarDate, dateOf: DateParser): Summary {
    DeriveProfileSummary(Coalesce(rows.profile, Undefined), Coalesce(rows.goals, Undefined),
                         Coalesce(rows.energy, Undefined), today, dateOf)
  }

  /** Prefilled from the page's own summary, the height and weight are the
      goals row's measurements when those are positive numbers, and the sex
      is the profile row's sex normalised to "male" or "female". */
  lemma PrefillFromRows(rows: Rows, today: CalendarDate, dateOf: DateParser)
    ensures var f := Prefill(rows, PageSummary(rows, today, dateOf));
            var sex := NormalizeSex(Coalesce(Get(rows.profile, "sex"), Null));
            f.height == PositiveText(ToNumberOrNull(Get(rows.goals, "height"))) &&
            f.weight == PositiveText(ToNumberOrNull(Get(rows.goals, "weight"))) &&
            f.sex == (if sex.Some? then Str(sex.value) else Str(""))
  {
    var profile := Coalesce(rows.profile, Undefined);
    var goals := Coalesce(rows.goals, Undefined);
    SummaryInputs(profile, goals, Coalesce(rows.energy, Undefined), today, dateOf);
    assert Get(DefaultNull(profile), "sex") == Get(rows.profile, "sex");
    assert Get(goals, "height") == Get(rows.goals, "height") && Get(goals, "weight") == Get(rows.goals, "weight");
  }

  // ================================================================ save

  /** The payload `handleSave` sends. */
  datatype MetricsPayload = MetricsPayload(
    profileId: JsValue, birthDate: JsValue, sex: JsValue,
    height: Option<real>, weight: Option<real>, activeTime: Option<nat>,
    weightGoal: string)

  /** Whether a text has no upper-case ASCII letter. */
  predicate IsLowerCase(s: string) {
    forall i :: 0 <= i < |s| ==> !('A' <= s[i] <= 'Z')
  }

  /** The payload built from the form for the signed-in user: the level is
      read with `Number` and stored as its goal text; an empty birth date
      and an empty sex are null; the sex is lower-cased; the measurements
      go through the validators. */
  function SavePayload(userId: JsValue, form: Form): (p: MetricsPayload)
    ensures p.profileId == userId
    ensures p.weightGoal in {"lose", "maintain", "gain"}
    ensures p.birthDate.Null? <==> !Truthy(form.birthDate) || form.birthDate.Null?
    ensures Truthy(form.birthDate) ==> p.birthDate == form.birthDate
    ensures ToNumber(form.weightGoalLevel) in {Finite(1.0), Finite(2.0)} ==> p.weightGoal == "lose"
    ensures ToNumber(form.weightGoalLevel) in {Finite(4.0), Finite(5.0)} ==> p.weightGoal == "gain"
    ensures ToNumber(form.weightGoalLevel) !in {Finite(1.0), Finite(2.0), Finite(4.0), Finite(5.0)} ==>
              p.weightGoal == "maintain"
    ensures p.sex.Null? <==> !Truthy(form.sex)
    ensures Truthy(form.sex) ==>
              var t := ToJsString(form.sex);
              p.sex.Str? && IsLowerCase(p.sex.s) && |p.sex.s| == |t| &&
              forall i :: 0 <= i < |t| ==> p.sex.s[i] == LowerChar(t[i])
    ensures p.height == ToPositiveNumberOrNull(form.height)
    ensures p.weight == ToPositiveNumberOrNull(form.weight)
    ensures p.activeTime == ToNonNegativeIntOrNull(form.activeTime)
  {
    MetricsPayload(
      userId,
      Or(form.birthDate, Null),
      if Truthy(form.sex) then Str(ToLower(ToJsString(form.sex))) else Null,
      ToPositiveNumberOrNull(form.height),
      ToPositiveNumberOrNull(form.weight),
      ToNonNegativeIntOrNull(form.activeTime),
      GoalTextFromLevel(FromNumber(ToNumber(form.weightGoalLevel))))
  }

  /** The profile fields the merge overwrites. */
  const ProfileFieldsWritten: set<string> := {"profile_id", "birth_date", "sex"}

  /** The goals fields the merge overwrites. */
  const GoalsFieldsWritten: set<string> := {"profile_id", "height", "weight", "active_time", "weight_goal"}

  /** The rows the page keeps after a successful upsert: each of the profile
      and goals rows (an empty object when there is none) with the saved
      fields overwritten; the energy row is kept, null when absent. */
  function MergeAfterSave(rows: Rows, userId: JsValue, p: MetricsPayload): (next: Rows)
    ensures next.profile.Obj? && next.goals.Obj?
    ensures next.energy == Coalesce(rows.energy, Null)
    ensures Get(next.profile, "profile_id") == userId && Get(next.goals, "profile_id") == userId
    ensures Get(next.profile, "birth_date") == p.birthDate && Get(next.profile, "sex") == p.sex
    ensures Get(next.goals, "height") == FromReal(p.height)
    ensures Get(next.goals, "weight") == FromReal(p.weight)
    ensures Get(next.goals, "active_time") == FromInt(if p.activeTime.Some? then Some(p.activeTime.value as int) else None)
    ensures Get(next.goals, "weight_goal") == Str(p.weightGoal)
  {
    var profile := Spread(Coalesce(rows.profile, Obj(map[])));
    var goals := Spread(Coalesce(rows.goals, Obj(map[])));
    var activeTime := if p.activeTime.Some? then Some(p.activeTime.value as int) else None;
    Rows(Obj(profile["profile_id" := userId]["birth_date" := p.birthDate]["sex" := p.sex]),
         Obj(goals["profile_id" := userId]["height" := FromReal(p.height)]["weight" := FromReal(p.weight)]
                  ["active_time" := FromInt(activeTime)]["weight_goal" := Str(p.weightGoal)]),
         Coalesce(rows.energy, Null))
  }

  /** The merge adds the saved fields and leaves every other field of the
      profile and goals rows as it was. */
  lemma MergeKeepsOtherFields(rows: Rows, userId: JsValue, p: MetricsPayload)
    ensures var next := MergeAfterSave(rows, userId, p);
            var profile := Spread(Coalesce(rows.profile, Obj(map[])));
            var goals := Spread(Coalesce(rows.goals, Obj(map[])));
            next.profile.fields.Keys == profile.Keys + ProfileFieldsWritten &&
            next.goals.fields.Keys == goals.Keys + GoalsFieldsWritten &&
            (forall k :: k in profile && k !in ProfileFieldsWritten ==> next.profile.fields[k] == profile[k]) &&
            (forall k :: k in goals && k !in GoalsFieldsWritten ==> next.goals.fields[k] == goals[k])
  {
  }

  /** What `handleSave` ends with. */
  datatype SaveEffect =
    | NotSignedIn                                  // no user id: nothing is sent
    | SaveFailed(payload: MetricsPayload)          // the upsert threw: rows and form unchanged
    | Saved(payload: MetricsPayload, rows: Rows)   // the new rows; editing ends

  /** `handleSave` as intended, with the row accepted by the upsert's guard
      (see `HandleSaveAsWritten`), given whether the upsert succeeded and the
      energy row the refresh answers (a falsy value when it has none or
      fails): on success the merged rows, with the refreshed energy row when
      there is one. */
  function HandleSave(userId: JsValue, rows: Rows, form: Form, upsertSucceeded: bool,
                      energyRefreshed: JsValue): (e: SaveEffect)
    ensures e.NotSignedIn? <==> !Truthy(userId)
    ensures !e.NotSignedIn? ==> e.payload == SavePayload(userId, form)
    ensures e.Saved? <==> Truthy(userId) && upsertSucceeded
    ensures e.Saved? ==>
              var merged := MergeAfterSave(rows, userId, e.payload);
              e.rows.profile == merged.profile && e.rows.goals == merged.goals &&
              e.rows.energy == (if Truthy(energyRefreshed) then energyRefreshed else merged.energy)
  {
    if !Truthy(userId) then NotSignedIn
    else
      var payload := SavePayload(userId, form);
      if !upsertSucceeded then SaveFailed(payload)
      else
        var next := MergeAfterSave(rows, userId, payload);
        Saved(payload, if Truthy(energyRefreshed) then next.(energy := energyRefreshed) else next)
  }

  /** The metrics row `handleSave` hands to `upsertUserMetrics`: the seven
      fields of the payload, the user's id under `profile_id`. */
  function PayloadObject(p: MetricsPayload): (o: JsValue)
    ensures o.Obj? && o.fields.Keys == MetricsKeys
    ensures Get(o, "profile_id") == p.profileId && Get(o, "weight_goal") == Str(p.weightGoal)
    ensures Get(o, "user_id") == Undefined
  {
    var activeTime := if p.activeTime.Some? then Some(p.activeTime.value as int) else None;
    Obj(map["profile_id" := p.profileId, "birth_date" := p.birthDate, "sex" := p.sex,
            "height" := FromReal(p.height), "weight" := FromReal(p.weight),
            "active_time" := FromInt(activeTime), "weight_goal" := Str(p.weightGoal)])
  }

  const MetricsKeys: set<string> :=
    {"profile_id", "birth_date", "sex", "height", "weight", "active_time", "weight_goal"}

  /** The guard `upsertUserMetrics` starts with: the row needs a truthy
      `user_id`, or it throws 'user_id required' before anything is sent. */
  predicate UpsertAccepts(row: JsValue) {
    Truthy(Get(row, "user_id"))
  }

  /** `handleSave` as written, with `upsertUserMetrics`' guard in place and
      `insertSucceeded` standing for the insert behind it: the row it sends
      has no `user_id`, so every signed-in save ends in the error
      'user_id required' and the merge is never reached. */
  function HandleSaveAsWritten(userId: JsValue, rows: Rows, form: Form, insertSucceeded: bool,
                               energyRefreshed: JsValue): (e: SaveEffect)
    ensures e.NotSignedIn? <==> !Truthy(userId)
    ensures Truthy(userId) ==> e == SaveFailed(SavePayload(userId, form))
  {
    if !Truthy(userId) then NotSignedIn
    else
      var payload := SavePayload(userId, form);
      if !UpsertAccepts(PayloadObject(payload)) || !insertSucceeded then SaveFailed(payload)
      else
        var next := MergeAfterSave(rows, userId, payload);
        Saved(payload, if Truthy(energyRefreshed) then next.(energy := energyRefreshed) else next)
  }

  /** The row the save evidently means to send: the same fields with the
      user's id also under `user_id`. */
  function IntendedPayloadObject(p: MetricsPayload): (o: JsValue)
    ensures o.Obj? && o.fields.Keys == MetricsKeys + {"user_id"}
    ensures Get(o, "user_id") == p.profileId
    ensures forall k :: k in MetricsKeys ==> Get(o, k) == Get(PayloadObject(p), k)
  {
    Obj(PayloadObject(p).fields["user_id" := p.profileId])
  }

  /** With the user's id under `user_id`, the guard lets every signed-in save
      through, so `HandleSave` is reached with the insert's own outcome. */
  lemma IntendedPayloadPassesGuard(userId: JsValue, form: Form)
    requires Truthy(userId)
    ensures UpsertAccepts(IntendedPayloadObject(SavePayload(userId, form)))
    ensures !UpsertAccepts(PayloadObject(SavePayload(userId, form)))
  {
  }

  /** After a save, the summary reads back what was saved: the goals row's
      height and weight convert to the saved numbers, and the level the page
      infers is the level of the saved goal text. */
  lemma MergedRowsReadBack(rows: Rows, userId: JsValue, p: MetricsPayload)
    ensures var next := MergeAfterSave(rows, userId, p);
            ToNumberOrNull(Get(next.goals, "height")) == p.height &&
            ToNumberOrNull(Get(next.goals, "weight")) == p.weight &&
            InferredLevel(next.goals) == GoalLevelFromText(Str(p.weightGoal))
  {
    ToNumberOrNullOfResult(p.height);
    ToNumberOrNullOfResult(p.weight);
  }

  /** Saving the prefilled form without editing it keeps the goal level for
      the stored goals: the level text "2", "3" or "4" is read back as the
      level, turned into its goal text, and inferred again as the same
      level. A positive whole height is saved as it was. */
  lemma UneditedSaveKeepsGoalLevel(rows: Rows, summary: Summary, userId: JsValue)
    ensures var p := SavePayload(userId, Prefill(rows, summary));
            InferredLevel(MergeAfterSave(rows, userId, p).goals) == InferredLevel(rows.goals)
  {
    var l := InferredLevel(rows.goals);
    var f := Prefill(rows, summary);
    NumberOfNatText(l);
    assert ToNumber(f.weightGoalLevel) == Finite(l as real);
    GoalLevelFixedPoint(l);
    MergedRowsReadBack(rows, userId, SavePayload(userId, f));
  }

  /** A positive whole height or weight survives the prefill and the save. */
  lemma UneditedSaveKeepsWholeMeasurements(rows: Rows, summary: Summary, userId: JsValue, h: nat)
    requires h > 0 && summary.heightCm == Some(h as real)
    ensures SavePayload(userId, Prefill(rows, summary)).height == Some(h as real)
  {
    assert NumberToString(h as real) == NatToString(h) by {
      assert (h as real).Floor == h;
    }
    ValidatorsReadNaturalText(h);
  }
}
