/** The pure parts of src/api/profile.js: the two numeric normalisers, the
    payloads `saveProfileInputs` upserts into profiles_v1 and goals_v1, the
    `profileId` guards and the filter that reads a "PGRST116" query error as
    "no row". The Supabase calls themselves are parameters: the `{ data,
    error }` a query answers, and the error (if any) an upsert answers. */
module ProfileApi {
  import opened Wrappers
  import opened JsValues
  import ProfileTransforms

  // ================================================================ normalisers

  /** `isFiniteNum(v)`: `Number(v)` when that is finite, None (null)
      otherwise. Unlike `toNumberOrNull`, null is not special: it is 0. */
  function IsFiniteNum(v: JsValue): (r: Option<real>)
    ensures r.Some? <==> ToNumber(v).Finite?
    ensures r.Some? ==> ToNumber(v) == Finite(r.value)
  {
    match ToNumber(v)
    case Finite(n) => Some(n)
    case _ => None
  }

  /** `isFiniteInt(v)`: `Number(v)` when it is an integer (which implies
      finite), None otherwise. */
  function IsFiniteInt(v: JsValue): (r: Option<int>)
    ensures r.Some? <==> ToNumber(v).Finite? && IsIntegral(ToNumber(v).value)
    ensures r.Some? ==> ToNumber(v) == Finite(r.value as real)
  {
    match ToNumber(v)
    case Finite(n) => if IsIntegral(n) then Some(n.Floor) else None
    case _ => None
  }

  /** The two normalisers agree with `toNumberOrNull` everywhere except on
      null, which `isFiniteNum` turns into 0; an explicit null and the empty
      string are saved as 0, an absent field as null. */
  lemma IsFiniteNumVersusToNumberOrNull(v: JsValue)
    ensures !v.Null? ==> IsFiniteNum(v) == ProfileTransforms.ToNumberOrNull(v)
    ensures IsFiniteNum(Null) == Some(0.0) && ProfileTransforms.ToNumberOrNull(Null) == None
    ensures IsFiniteNum(Undefined) == None
    ensures IsFiniteNum(Str("")) == Some(0.0)
  {
    NumberOfEmptyValues();
  }

  /** An integer is a finite number: where `isFiniteInt` gives a value,
      `isFiniteNum` gives the same one; a fraction is dropped by the first
      and kept by the second. */
  lemma IntegersAreFiniteNumbers(v: JsValue)
    ensures IsFiniteInt(v).Some? ==> IsFiniteNum(v) == Some(IsFiniteInt(v).value as real)
    ensures IsFiniteInt(Num(2.5)).None? && IsFiniteNum(Num(2.5)) == Some(2.5)
  {
    assert !IsIntegral(2.5) by { assert 2.5.Floor == 2; }
  }

  // ================================================================ outcomes

  /** A Supabase error object, known by its `code`. */
  datatype DbError = DbError(code: JsValue)

  /** Why a call of this module rejects. */
  datatype ApiError =
    | ProfileIdRequired          // `throw new Error("profileId required")`
    | TypeError                  // reading a field of null
    | Rethrown(error: DbError)   // a Supabase error passed on

  /** How an async call of this module settles. */
  datatype Outcome<T> = Resolved(value: T) | Rejected(error: ApiError)

  /** The `{ data, error }` a `maybeSingle()` query answers. */
  datatype QueryResult = QueryResult(data: JsValue, error: Option<DbError>)

  /** The code PostgREST uses for "the query returned no row". */
  const NoRowsCode: string := "PGRST116"

  /** `err && err.code !== "PGRST116"`: an error that is not "no row". */
  predicate IsFatal(err: Option<DbError>) {
    err.Some? && err.value.code != Str(NoRowsCode)
  }

  // ================================================================ load

  /** What `loadProfileInputs` resolves to. */
  datatype Loaded = Loaded(profile: JsValue, goals: JsValue)

  /** `loadProfileInputs(profileId)`, given the answers of its two queries:
      a falsy id rejects before any query; a profile error other than "no
      row" is rethrown first, then such a goals error; otherwise each row
      is the data, null when there is none. */
  function LoadProfileInputs(profileId: JsValue, profileQuery: QueryResult, goalsQuery: QueryResult)
    : (r: Outcome<Loaded>)
    ensures !Truthy(profileId) ==> r == Rejected(ProfileIdRequired)
    ensures r.Resolved? <==>
              Truthy(profileId) && !IsFatal(profileQuery.error) && !IsFatal(goalsQuery.error)
    ensures Truthy(profileId) && IsFatal(profileQuery.error) ==>
              r == Rejected(Rethrown(profileQuery.error.value))
    ensures Truthy(profileId) && !IsFatal(profileQuery.error) && IsFatal(goalsQuery.error) ==>
              r == Rejected(Rethrown(goalsQuery.error.value))
    ensures r.Resolved? ==>
              r.value.profile == Coalesce(profileQuery.data, Null) &&
              r.value.goals == Coalesce(goalsQuery.data, Null)
  {
    if !Truthy(profileId) then Rejected(ProfileIdRequired)
    else if IsFatal(profileQuery.error) then Rejected(Rethrown(profileQuery.error.value))
    else if IsFatal(goalsQuery.error) then Rejected(Rethrown(goalsQuery.error.value))
    else Resolved(Loaded(Coalesce(profileQuery.data, Null), Coalesce(goalsQuery.data, Null)))
  }

  /** A "no row" error on either query is no error: the call resolves, and
      a missing row is null, never undefined. */
  lemma NoRowIsNotAnError(profileId: JsValue, profileData: JsValue, goalsData: JsValue)
    requires Truthy(profileId)
    ensures var noRow := Some(DbError(Str(NoRowsCode)));
            var r := LoadProfileInputs(profileId, QueryResult(profileData, noRow), QueryResult(goalsData, noRow));
            r.Resolved? && !r.value.profile.Undefined? && !r.value.goals.Undefined? &&
            (Nullish(profileData) ==> r.value.profile == Null)
  {
  }

  // ================================================================ save

  /** The second argument of `saveProfileInputs` after the destructuring
      `{ profile = {}, goals = {} } = {}`: a missing argument or field is an
      empty object; a null argument cannot be destructured (None, a
      TypeError). A null field stays null. */
  function SaveArguments(arg: JsValue): (r: Option<(JsValue, JsValue)>)
    ensures r.None? <==> arg.Null?
    ensures r.Some? ==> !r.value.0.Undefined? && !r.value.1.Undefined?
    ensures r.Some? && !Get(arg, "profile").Undefined? ==> r.value.0 == Get(arg, "profile")
    ensures r.Some? && !Get(arg, "goals").Undefined? ==> r.value.1 == Get(arg, "goals")
  {
    if arg.Null? then None
    else
      var profile := Get(arg, "profile");
      var goals := Get(arg, "goals");
      Some((if profile.Undefined? then Obj(map[]) else profile,
            if goals.Undefined? then Obj(map[]) else goals))
  }

  /** The profile fields copied with `?? null`. */
  const ProfileFields: set<string> :=
    {"sex", "birth_date", "name", "surname", "language", "country_of_origin", "address"}

  /** A row of an upsert. The profiles_v1 row holds `profile_id`, the seven
      profile fields and `notifications`; the goals_v1 row holds
      `profile_id`, `active_time`, `active_level`, `weight_goal` and the
      numeric goals. Columns filled in the same way share a map. */
  datatype Row =
    | ProfileRow(profileId: JsValue, fields: map<string, JsValue>, notifications: JsValue)
    | GoalsRow(profileId: JsValue, activeTime: JsValue, activeLevel: JsValue, weightGoal: JsValue,
               numeric: map<NumericGoal, JsValue>)

  /** The row upserted into profiles_v1: the id, the seven profile fields
      (null when absent), and `notifications` when it is an array, [] when
      it is anything else. */
  function ProfilePayload(profileId: JsValue, profile: JsValue): (p: Row)
    ensures p.ProfileRow? && p.profileId == profileId
    ensures p.notifications.Arr?
    ensures Get(profile, "notifications").Arr? ==> p.notifications == Get(profile, "notifications")
  {
    var notifications := Get(profile, "notifications");
    ProfileRow(profileId,
               map k | k in ProfileFields :: Coalesce(Get(profile, k), Null),
               if notifications.Arr? then notifications else Arr([]))
  }

  /** The profile row has exactly the seven profile fields besides the id and
      the notifications, each the argument's field or null. */
  lemma ProfilePayloadFields(profileId: JsValue, profile: JsValue)
    ensures var p := ProfilePayload(profileId, profile);
            p.fields.Keys == ProfileFields &&
            forall k :: k in ProfileFields ==> p.fields[k] == Coalesce(Get(profile, k), Null)
  {
  }

  /** The goals columns sent through `isFiniteNum`: height, weight and the
      macro and micro targets. */
  datatype NumericGoal =
    | Height | Weight | MacroProteinTotal | MacroCarbTotal
    | MacroCarbSugar | MacroCarbFiber | MacroCarbStarch | MacroFatTotal
    | MacroFatSaturated | MacroFatMonosaturated | MacroFatPolyunsaturated | MacroFatTrans
    | MicroVitA | MicroB6 | MicroB12 | MicroVitC
    | MicroVitD | MicroVitE | MicroVitK | MicroCalcium
    | MicroCopper | MicroIron | MicroMagnesium | MicroManganese
    | MicroPhosphorus | MicroPotassium | MicroSelenium | MicroSodium
    | MicroZinc

  /** Every numeric goal column. */
  const NumericGoals: set<NumericGoal> :=
    {Height, Weight, MacroProteinTotal, MacroCarbTotal, MacroCarbSugar,
     MacroCarbFiber, MacroCarbStarch, MacroFatTotal, MacroFatSaturated, MacroFatMonosaturated,
     MacroFatPolyunsaturated, MacroFatTrans, MicroVitA, MicroB6, MicroB12,
     MicroVitC, MicroVitD, MicroVitE, MicroVitK, MicroCalcium,
     MicroCopper, MicroIron, MicroMagnesium, MicroManganese, MicroPhosphorus,
     MicroPotassium, MicroSelenium, MicroSodium, MicroZinc}

  /** The column of goals_v1 (and the field of the goals argument). */
  function ColumnName(c: NumericGoal): string {
    match c
    case Height => "height"
    case Weight => "weight"
    case MacroProteinTotal => "macro_protein_total"
    case MacroCarbTotal => "macro_carb_total"
    case MacroCarbSugar => "macro_carb_sugar"
    case MacroCarbFiber => "macro_carb_fiber"
    case MacroCarbStarch => "macro_carb_starch"
    case MacroFatTotal => "macro_fat_total"
    case MacroFatSaturated => "macro_fat_saturated"
    case MacroFatMonosaturated => "macro_fat_monosaturated"
    case MacroFatPolyunsaturated => "macro_fat_polyunsaturated"
    case MacroFatTrans => "macro_fat_trans"
    case MicroVitA => "micro_vitA"
    case MicroB6 => "micro_B6"
    case MicroB12 => "micro_B12"
    case MicroVitC => "micro_vitC"
    case MicroVitD => "micro_vitD"
    case MicroVitE => "micro_vitE"
    case MicroVitK => "micro_vitK"
    case MicroCalcium => "micro_calcium"
    case MicroCopper => "micro_copper"
    case MicroIron => "micro_iron"
    case MicroMagnesium => "micro_magnesium"
    case MicroManganese => "micro_manganese"
    case MicroPhosphorus => "micro_phosphorus"
    case MicroPotassium => "micro_potassium"
    case MicroSelenium => "micro_selenium"
    case MicroSodium => "micro_sodium"
    case MicroZinc => "micro_zinc"
  }

  /** The row upserted into goals_v1: the id, `active_time` through
      `isFiniteInt`, `active_level` with `?? null`, `weight_goal` with
      `?? "maintain"`, and every numeric goal through `isFiniteNum`. */
  function GoalsPayload(profileId: JsValue, goals: JsValue): (p: Row)
    ensures p.GoalsRow? && p.profileId == profileId
    ensures p.activeTime == FromInt(IsFiniteInt(Get(goals, "active_time")))
    ensures p.activeLevel == Coalesce(Get(goals, "active_level"), Null)
    ensures p.weightGoal == Coalesce(Get(goals, "weight_goal"), Str("maintain"))
  {
    GoalsRow(profileId,
             FromInt(IsFiniteInt(Get(goals, "active_time"))),
             Coalesce(Get(goals, "active_level"), Null),
             Coalesce(Get(goals, "weight_goal"), Str("maintain")),
             map c | c in NumericGoals :: FromReal(IsFiniteNum(Get(goals, ColumnName(c)))))
  }

  /** The goals row has a value for every numeric column, the argument's
      field through `isFiniteNum`; so each is a finite number or null, never
      text or NaN, and so is the active time. */
  lemma GoalsPayloadColumns(profileId: JsValue, goals: JsValue, c: NumericGoal)
    requires c in NumericGoals
    ensures var p := GoalsPayload(profileId, goals);
            p.numeric.Keys == NumericGoals &&
            c in p.numeric && p.numeric[c] == FromReal(IsFiniteNum(Get(goals, ColumnName(c)))) &&
            (p.numeric[c].Null? || p.numeric[c].Num?) && (p.activeTime.Null? || p.activeTime.Num?)
  {
  }

  /** A missing goal text is saved as "maintain" and a missing activity level
      as null; a present one is saved as it is. */
  lemma GoalsPayloadDefaults(profileId: JsValue, goals: JsValue)
    ensures var p := GoalsPayload(profileId, goals);
            (Get(goals, "weight_goal").Undefined? ==> p.weightGoal == Str("maintain")) &&
            (Get(goals, "active_level").Undefined? ==> p.activeLevel == Null) &&
            (!Nullish(Get(goals, "weight_goal")) ==> p.weightGoal == Get(goals, "weight_goal"))
  {
  }

  /** An upsert: the table and the row. */
  datatype Upsert = Upsert(table: string, row: Row)

  /** A run of `saveProfileInputs`: the upserts it sent, in order, and how it
      settled. */
  datatype SaveRun = SaveRun(sent: seq<Upsert>, outcome: Outcome<Loaded>)

  /** `saveProfileInputs(profileId, arg)`, given the errors the two upserts
      answer and the queries of the final reload. The argument is
      destructured first, then the id is checked, then the profile row is
      built and upserted, and only after that succeeds the goals row. */
  function SaveProfileInputs(profileId: JsValue, arg: JsValue,
                             profileWrite: Option<DbError>, goalsWrite: Option<DbError>,
                             reloadProfile: QueryResult, reloadGoals: QueryResult): (run: SaveRun)
    ensures |run.sent| <= 2
    ensures forall i :: 0 <= i < |run.sent| ==> run.sent[i].row.profileId == profileId
    ensures |run.sent| > 0 ==> run.sent[0].table == "profiles_v1" && run.sent[0].row.ProfileRow?
    ensures |run.sent| == 2 ==> run.sent[1].table == "goals_v1" && run.sent[1].row.GoalsRow?
    ensures run.outcome.Resolved? ==> |run.sent| == 2
  {
    match SaveArguments(arg)
    case None => SaveRun([], Rejected(TypeError))
    case Some((profile, goals)) =>
      if !Truthy(profileId) then SaveRun([], Rejected(ProfileIdRequired))
      else if profile.Null? then SaveRun([], Rejected(TypeError))
      else
        var first := Upsert("profiles_v1", ProfilePayload(profileId, profile));
        if profileWrite.Some? then SaveRun([first], Rejected(Rethrown(profileWrite.value)))
        else if goals.Null? then SaveRun([first], Rejected(TypeError))
        else
          var second := Upsert("goals_v1", GoalsPayload(profileId, goals));
          if goalsWrite.Some? then SaveRun([first, second], Rejected(Rethrown(goalsWrite.value)))
          else SaveRun([first, second], LoadProfileInputs(profileId, reloadProfile, reloadGoals))
  }

  /** A falsy id sends nothing and rejects, unless the argument itself is
      null, which fails earlier with a TypeError. */
  lemma SaveRequiresProfileId(profileId: JsValue, arg: JsValue, profileWrite: Option<DbError>,
                              goalsWrite: Option<DbError>, reloadProfile: QueryResult, reloadGoals: QueryResult)
    requires !Truthy(profileId)
    ensures var run := SaveProfileInputs(profileId, arg, profileWrite, goalsWrite, reloadProfile, reloadGoals);
            run.sent == [] &&
            run.outcome == (if arg.Null? then Rejected(TypeError) else Rejected(ProfileIdRequired))
  {
  }

  /** When both upserts succeed, both rows are sent, profile first, and the
      call settles as a fresh load of the same id. */
  lemma SaveSendsBothRows(profileId: JsValue, profile: JsValue, goals: JsValue,
                          reloadProfile: QueryResult, reloadGoals: QueryResult)
    requires Truthy(profileId) && !Nullish(profile) && !Nullish(goals)
    ensures var arg := Obj(map["profile" := profile, "goals" := goals]);
            SaveProfileInputs(profileId, arg, None, None, reloadProfile, reloadGoals) ==
            SaveRun([Upsert("profiles_v1", ProfilePayload(profileId, profile)),
                     Upsert("goals_v1", GoalsPayload(profileId, goals))],
                    LoadProfileInputs(profileId, reloadProfile, reloadGoals))
  {
    var arg := Obj(map["profile" := profile, "goals" := goals]);
    assert SaveArguments(arg) == Some((profile, goals));
  }

  /** A failed profile upsert is rethrown and the goals row is never sent. */
  lemma ProfileWriteErrorStopsTheSave(profileId: JsValue, arg: JsValue, e: DbError, goalsWrite: Option<DbError>,
                                      reloadProfile: QueryResult, reloadGoals: QueryResult)
    requires Truthy(profileId) && !arg.Null?
    requires !SaveArguments(arg).value.0.Null?
    ensures var run := SaveProfileInputs(profileId, arg, Some(e), goalsWrite, reloadProfile, reloadGoals);
            |run.sent| == 1 && run.outcome == Rejected(Rethrown(e))
  {
  }

  /** With no argument at all, the profile and goals are empty objects: the
      call sends the rows built from them and settles as a fresh load. */
  lemma SaveWithoutArgument(profileId: JsValue, reloadProfile: QueryResult, reloadGoals: QueryResult)
    requires Truthy(profileId)
    ensures var run := SaveProfileInputs(profileId, Undefined, None, None, reloadProfile, reloadGoals);
            run.sent == [Upsert("profiles_v1", ProfilePayload(profileId, Obj(map[]))),
                         Upsert("goals_v1", GoalsPayload(profileId, Obj(map[])))] &&
            run.outcome == LoadProfileInputs(profileId, reloadProfile, reloadGoals)
  {
    assert SaveArguments(Undefined) == Some((Obj(map[]), Obj(map[])));
  }

  /** The rows built from empty objects: every profile field null, no
      notifications, goal "maintain", no height. */
  lemma RowsOfEmptyObjects(profileId: JsValue)
    ensures ProfilePayload(profileId, Obj(map[])).notifications == Arr([])
    ensures ProfilePayload(profileId, Obj(map[])).fields["sex"] == Null
    ensures GoalsPayload(profileId, Obj(map[])).weightGoal == Str("maintain")
    ensures GoalsPayload(profileId, Obj(map[])).numeric[Height] == Null
  {
    ProfilePayloadFields(profileId, Obj(map[]));
    assert "sex" in ProfileFields;
    assert Height in NumericGoals;
    GoalsPayloadColumns(profileId, Obj(map[]), Height);
    assert IsFiniteNum(Undefined) == None;
  }
}
