# Astro Meals nutrition core in Dafny

This project models the nutrition logic of the Astro Meals web app and proves
properties about it. At the centre is the profile-summary pipeline from
`src/utils/profileTransforms.js`. It turns a profile row, a goals row and an
optional server energy row into:

- age and activity level;
- Mifflin-St Jeor BMR, TDEE and goal-adjusted recommended calories;
- a macro split and a water target.

It also sums a recipe's ingredients into rounded nutrition totals.

Around that core, the model covers four smaller pieces of logic.

- **Profile API** (`src/api/profile.js`):
  - the `isFiniteNum`/`isFiniteInt` normalisers;
  - the `profiles_v1` and `goals_v1` upsert rows;
  - the `profileId` guards;
  - the filter that treats the "no rows" error `PGRST116` as no error and rethrows every other error.
- **Profile page** (`src/pages/ProfilePage.jsx`):
  - the form validators and `roundIfNumber`;
  - the goal-level inference, the form prefill and the save payload;
  - the merge of the saved values into the page's rows.
- **Recipes page** (`src/pages/RecipesPage.jsx`):
  - the category toggles and the ownership guard on editing;
  - the save payload;
  - the editor state that the page's handlers update. This is modelled as a class whose methods change its fields.
- **Import script** (`scripts/importRecipes.js`):
  - the title, description and image-path derivation and the recipe payload;
  - the import loop. This is a method with a loop, proved equal to a recursive specification of the run. The specification counts inserted recipes, skips failed upserts and stops on the TypeErrors the script does not catch.

Modules:

| file | module | contents |
|---|---|---|
| wrappers.dfy | Wrappers | `Option` |
| js_values.dfy | JsValues | JavaScript values, with `Number(v)`, `String(v)`, truthiness, `??`, `\|\|`, property reads, object spread and `Math.round` |
| profile_transforms.dfy | ProfileTransforms | `profileTransforms.js` |
| profile_api.dfy | ProfileApi | `src/api/profile.js` |
| profile_page.dfy | ProfilePage | the pure parts of `ProfilePage.jsx` |
| recipes_page.dfy | RecipesPage | the list logic and editor state of `RecipesPage.jsx` |
| import_recipes.dfy | ImportRecipes | `scripts/importRecipes.js` |

## How JavaScript is modelled

- **Values** are the datatype `JsValues.JsValue`: undefined, null, booleans, finite numbers as exact `real`s, NaN, ±Infinity, strings, arrays and plain objects with string keys.
- **`Number(v)`** follows the ECMAScript conversion:
  - null, "", whitespace and [] give 0;
  - decimal, exponent and 0x/0o/0b string literals are parsed;
  - `Infinity` is accepted, and everything else is NaN.
- **`Math.round(x)`** is `Floor(x + 1/2)`, which rounds halves upward, also for negative numbers.
- **The clock and date parsing are parameters:**
  - "today" is a calendar date passed in;
  - `new Date(x)` is a parser function `dateOf` passed in.
- **Database and storage calls** are replaced by their outcomes, passed in as arguments: the error or data of a query, and the reply of an upsert.

The model follows the code where the app's own explanation page differs from it.

- **Macro split:** `src/pages/NutrientFormulas.jsx` says the protein share comes from the weight-goal level. `macroSplitFromActivityLevel` (`src/utils/profileTransforms.js:105-113`) keys both the protein and the carb share on the activity level, and so does the model.

## Model

| member | source | states |
|---|---|---|
| JsValues.Coalesce | src/utils/profileTransforms.js:100 | `a ?? b`: `b` exactly when `a` is null or undefined, else `a` |
| JsValues.Or | src/pages/ProfilePage.jsx:149 | `a \|\| b`: `a` when it is truthy, else `b` |
| JsValues.Round | src/utils/profileTransforms.js:61 | `Math.round` gives the integer within one half of the value, halves up |
| JsValues.RoundShift | src/utils/profileTransforms.js:61 | adding an integer before rounding adds it after |
| JsValues.ToNumber | src/utils/profileTransforms.js:11 | `Number(v)` of a number is that number; of null it is 0 and of undefined NaN |
| JsValues.NumberOfNatText | src/pages/ProfilePage.jsx:130 | `Number` reads the decimal text of every natural number back as that number |
| JsValues.NumberOfEmptyValues | src/pages/ProfilePage.jsx:129-131 | `Number("")` and `Number(null)` are 0 and `Number(undefined)` is NaN, which is why the validators test "" and null first |
| JsValues.NumberOfArrays | src/utils/profileTransforms.js:11 | `Number([])` is 0, `Number([7])` is 7 and a longer array is NaN |
| JsValues.NumberOfDecimalText | src/utils/profileTransforms.js:11 | white space around a decimal fraction is trimmed: " 12.5 " is 12.5 |
| JsValues.NumberOfExponentText | src/utils/profileTransforms.js:11 | a signed exponent literal is read: "-1e3" is −1000 |
| JsValues.NumberOfHexText | src/utils/profileTransforms.js:11 | a hexadecimal literal is read: "0x1F" is 31 |
| JsValues.NumberOfOtherText | src/utils/profileTransforms.js:11 | text that is no numeric literal is NaN |
| ProfileTransforms.ToNumberOrNull | src/utils/profileTransforms.js:9-13 | null and undefined give none; otherwise a result exactly when `Number(v)` is finite, and then it is that number |
| ProfileTransforms.ToNumberOrNullOfResult | src/utils/profileTransforms.js:9-13 | converting an already normalised number (or null) back gives it unchanged |
| ProfileTransforms.ParseDate | src/utils/profileTransforms.js:15-19 | a falsy input gives no date; any other is what the date parser makes of it |
| ProfileTransforms.ComputeAgeFromDOB | src/utils/profileTransforms.js:22-30 | no age for an unparsable date or a birth date after today; otherwise the number of whole years since the birth date: the last birthday is not after today and the next one is |
| ProfileTransforms.AgeIsYearDifference | src/utils/profileTransforms.js:26-28 | the age is the year difference minus one exactly when today's month and day come before the birth month and day |
| ProfileTransforms.ActivityLevelForMinutes | src/utils/profileTransforms.js:36-40 | the step function always gives a level in 1..5 |
| ProfileTransforms.ActivityLevelFromMinutes | src/utils/profileTransforms.js:33-41 | null exactly when `toNumberOrNull` is null; otherwise a level in 1..5 given by the step function |
| ProfileTransforms.ActivityLevelCountsThresholds | src/utils/profileTransforms.js:36-40 | the level is one plus the number of the thresholds 60/180/360/600 that the minutes exceed |
| ProfileTransforms.ActivityLevelMonotone | src/utils/profileTransforms.js:36-40 | more minutes never give a lower level |
| ProfileTransforms.ActivityLevelBoundaries | src/utils/profileTransforms.js:33-41 | the thresholds are inclusive upper bounds: 60→1, 61→2, 180→2, 360→3, 600→4, 601→5, null→null |
| ProfileTransforms.ActivityLevelOfText | src/utils/profileTransforms.js:33-36 | text minutes are converted first ("200"→3), and "" counts as 0 minutes (level 1) |
| ProfileTransforms.ActivityFactor | src/utils/profileTransforms.js:43 | defined exactly on levels 1..5, with factors between 1.2 and 1.9 |
| ProfileTransforms.ActivityLevelName | src/utils/profileTransforms.js:44-50 | a name exactly for levels 1..5 |
| ProfileTransforms.WaterMultiplier | src/utils/profileTransforms.js:51 | defined exactly on levels 1..5, with multipliers between 0.9 and 1.4 |
| ProfileTransforms.TablesIncreaseWithLevel | src/utils/profileTransforms.js:43-51 | activity factors and water multipliers strictly increase with the level |
| ProfileTransforms.SexAdjustment | src/utils/profileTransforms.js:59-60 | +5 exactly for "male"/"m" in any letter case, −161 for every other value, missing included |
| ProfileTransforms.MaleTexts | src/utils/profileTransforms.js:59-60 | "male", "Male" and "M" are male; "female", "f", "", null and undefined are not |
| ProfileTransforms.ComputeBmr | src/utils/profileTransforms.js:54-62 | null exactly when age, height or weight is null; otherwise the nearest integer (halves up) to 10w + 6.25h − 5a + adjustment |
| ProfileTransforms.BmrMaleMinusOther | src/utils/profileTransforms.js:54-62 | for the same body, a male BMR is exactly 166 more than any other sex's |
| ProfileTransforms.ComputeTdee | src/utils/profileTransforms.js:64-70 | a result exactly when the BMR is present and the level is 1..5 |
| ProfileTransforms.RoundedProductNearest | src/utils/profileTransforms.js:69 | the rounded product is the nearest integer to the product |
| ProfileTransforms.TdeeRounds | src/utils/profileTransforms.js:64-70 | the TDEE is BMR × activity factor, rounded |
| ProfileTransforms.GoalLevelName | src/utils/profileTransforms.js:73-79 | a name exactly for goal levels 1..5 |
| ProfileTransforms.GoalKcalAdjustment | src/utils/profileTransforms.js:80 | defined exactly on levels 1..5; negative below maintenance (3), positive above |
| ProfileTransforms.GoalAdjustmentSymmetric | src/utils/profileTransforms.js:80 | levels 6 − l and l have opposite adjustments |
| ProfileTransforms.GoalTextFromLevel | src/utils/profileTransforms.js:81-87 | always lose/maintain/gain; "lose" exactly for 1 and 2, "gain" exactly for 4 and 5, anything else "maintain" |
| ProfileTransforms.GoalLevelFromText | src/utils/profileTransforms.js:196-200 | always 2, 3 or 4; 2 exactly for "lose", 4 exactly for "gain" |
| ProfileTransforms.GoalTextRoundTrip | src/utils/profileTransforms.js:81-87 | text → level → text is the identity on the three goal texts |
| ProfileTransforms.GoalLevelProjection | src/utils/profileTransforms.js:81-87 | level → text → level sends 1 and 2 to 2, 4 and 5 to 4, and everything else to 3 |
| ProfileTransforms.GoalLevelFixedPoint | src/utils/profileTransforms.js:196-200 | levels 2, 3 and 4 survive level → text → level |
| ProfileTransforms.CalorieFactor | src/utils/profileTransforms.js:99 | the factor of the level, defaulting to level 1 and then to 1.2; always between 1.2 and 1.9 |
| ProfileTransforms.GoalAdjustment | src/utils/profileTransforms.js:100 | the adjustment of the goal, defaulting to level 3 and then to 0; always within ±500 |
| ProfileTransforms.ComputeRecommendedCalories | src/utils/profileTransforms.js:89-102 | a numeric explicit target wins, rounded, even without a BMR; otherwise null exactly when the BMR is null |
| ProfileTransforms.RecommendedRounds | src/utils/profileTransforms.js:97-101 | without an explicit target the result is BMR × factor + adjustment, rounded |
| ProfileTransforms.RecommendNearest | src/utils/profileTransforms.js:101 | the rounded recommendation is the nearest integer to BMR × factor + adjustment |
| ProfileTransforms.RecommendShift | src/utils/profileTransforms.js:101 | an integer adjustment can be added after rounding |
| ProfileTransforms.RecommendedIsTdeePlusGoal | src/utils/profileTransforms.js:89-102 | with level and goal in 1..5, the recommendation is the TDEE plus the goal's adjustment |
| ProfileTransforms.RecommendedFallbacks | src/utils/profileTransforms.js:99-100 | an unknown level and goal give the same result as level 1 and goal 3 |
| ProfileTransforms.CalorieFactorFallback | src/utils/profileTransforms.js:99 | an unknown activity level uses factor 1.2 |
| ProfileTransforms.GoalAdjustmentFallback | src/utils/profileTransforms.js:100 | an unknown goal level uses adjustment 0 |
| ProfileTransforms.MacroSplitFromActivityLevel | src/utils/profileTransforms.js:105-113 | for every level, the default included, the three shares sum to 1 and fat is not negative (0.15..0.3); a missing level gives 0.25/0.45/0.3 |
| ProfileTransforms.ComputeMacrosFromCalories | src/utils/profileTransforms.js:115-123 | null exactly when the calories are null; otherwise the split of the level, with 4·protein + 4·carbs + 9·fat within 8.5 kcal of the calories |
| ProfileTransforms.MacroGramsRound | src/utils/profileTransforms.js:119-121 | each gram count is the integer nearest its share of the calories over 4 kcal (protein, carbs) or 9 kcal (fat) |
| ProfileTransforms.MacrosFor | src/utils/profileTransforms.js:119-121 | the grams of each part are the nearest integers to share × kcal / 4, / 4 and / 9 |
| ProfileTransforms.MacrosEnergy | src/utils/profileTransforms.js:119-121 | grams rounded from shares summing to 1 carry the calories to within 8.5 kcal |
| ProfileTransforms.GramsEnergy | src/utils/profileTransforms.js:119-121 | the rounding error of the three gram counts is at most 2 + 2 + 4.5 kcal |
| ProfileTransforms.WaterFactor | src/utils/profileTransforms.js:130 | the multiplier used for water is always between 0.9 and 1.4 |
| ProfileTransforms.ComputeWaterMl | src/utils/profileTransforms.js:126-132 | null exactly when the weight is null or not positive |
| ProfileTransforms.WaterNearest | src/utils/profileTransforms.js:131 | the water target is the nearest integer to w × 40 × multiplier, and not negative for a positive weight |
| ProfileTransforms.WaterRounds | src/utils/profileTransforms.js:126-132 | a water result is weight × 40 × the level's multiplier (1 for a missing or unknown level), rounded, and not negative |
| ProfileTransforms.RoundToCents | src/utils/profileTransforms.js:156 | the result is a whole number of hundredths, the one nearest the value (halves up), so it is within 0.005 of it |
| ProfileTransforms.RoundToCentsIdempotent | src/utils/profileTransforms.js:154-157 | rounding to two decimals twice changes nothing more |
| ProfileTransforms.AddParts | src/utils/profileTransforms.js:147-152 | every total grows by its own part, and the keys stay the same |
| ProfileTransforms.AddIngredient | src/utils/profileTransforms.js:145-153 | one pass of the loop body adds the ingredient's contribution to each of the six totals |
| ProfileTransforms.RoundTotals | src/utils/profileTransforms.js:154-157 | every total is replaced by its value rounded to two decimals |
| ProfileTransforms.SumIngredients | src/utils/profileTransforms.js:145-153 | fails exactly when some element is null or undefined; otherwise each total is the sum of quantity × amount over the ingredients |
| ProfileTransforms.AggregateIngredientsNutrition | src/utils/profileTransforms.js:135-159 | the loop computes exactly the aggregation's specification |
| ProfileTransforms.AggregateRejectsNullishElement | src/utils/profileTransforms.js:145-146 | a null or undefined element throws a TypeError |
| ProfileTransforms.AggregateOfElements | src/utils/profileTransforms.js:135-159 | for an array without null or undefined elements, each total is the sum of amount × quantity rounded to cents |
| ProfileTransforms.AggregateOfNothing | src/utils/profileTransforms.js:135-144 | no argument and the empty array both give six zeros |
| ProfileTransforms.AggregateRejectsNonArrays | src/utils/profileTransforms.js:136 | any non-array argument other than undefined gives null |
| ProfileTransforms.SumForAppend | src/utils/profileTransforms.js:145-153 | the sum over two lists joined is the sum of their sums |
| ProfileTransforms.IngredientContribution | src/utils/profileTransforms.js:145-153 | one more ingredient adds exactly its contribution |
| ProfileTransforms.ContributionCases | src/utils/profileTransforms.js:146-152 | a missing quantity counts as 1, a quantity of 0 stays 0, a missing amount counts as 0, and two numbers multiply |
| ProfileTransforms.DefaultNull | src/utils/profileTransforms.js:162 | an absent row defaults to null and any other value is kept |
| ProfileTransforms.NormalizeSex | src/utils/profileTransforms.js:163-170 | the sex is "male", "female" or null, and null for a falsy input |
| ProfileTransforms.SummaryInputs | src/utils/profileTransforms.js:162-231 | the input rows come back unchanged (absent ones as null); age, height and weight are read from the rows |
| ProfileTransforms.SummaryGoal | src/utils/profileTransforms.js:196-224 | the goal level is the one inferred from the stored goal text, always 2, 3 or 4, and the goal name is its name |
| ProfileTransforms.SummaryMacrosAndWater | src/utils/profileTransforms.js:209-210 | macros exist exactly when recommended calories do; water is null exactly when the weight is null or not positive |
| ProfileTransforms.SummaryPrefersServerLevel | src/utils/profileTransforms.js:179-182 | a numeric server activity level is used as is |
| ProfileTransforms.SummaryPrefersServerBmr | src/utils/profileTransforms.js:184-187 | a numeric server BMR is used as is |
| ProfileTransforms.SummaryPrefersServerTdee | src/utils/profileTransforms.js:189-193 | a numeric server TDEE is used as is |
| ProfileTransforms.SummaryPrefersServerTarget | src/utils/profileTransforms.js:202-207 | a numeric server target becomes the recommendation, rounded |
| ProfileTransforms.SummaryComputesMissingNumbers | src/utils/profileTransforms.js:179-187 | without server values, the level comes from the weekly minutes and the BMR is computed from sex, age, height and weight |
| ProfileTransforms.SummaryTdeeNeedsBmrAndLevel | src/utils/profileTransforms.js:189-193 | without a server TDEE, the TDEE exists exactly when the BMR and a level in 1..5 do |
| ProfileTransforms.MissingWeightNullsOnlyWhatNeedsIt | src/utils/profileTransforms.js:162-231 | with no energy row and no weight: BMR, TDEE, recommendation, macros and water are null, while age and activity level are still derived |
| ProfileTransforms.NoActivityLevelNoTdee | src/utils/profileTransforms.js:189-222 | when no activity level resolves, the TDEE and the activity name are null |
| ProfileTransforms.WorkedExampleFormulas | src/utils/profileTransforms.js:33-132 | 200 minutes → level 3; a 30-year-old male of 180 cm and 80 kg has BMR 1780, TDEE 2759 and water 3600 ml |
| ProfileTransforms.WorkedExampleTargets | src/utils/profileTransforms.js:89-123 | the example's recommendation is 2759 kcal, split into 172 g protein, 310 g carbs and 92 g fat |
| ProfileTransforms.WorkedExampleRows | src/utils/profileTransforms.js:162-176 | the example rows hold the fields the summary reads, and "Male" normalises to "male" |
| ProfileTransforms.WorkedExampleSummary | src/utils/profileTransforms.js:162-231 | the whole summary of the example: male, 30 years, level 3, BMR 1780, TDEE 2759, 2759 kcal, 3600 ml, maintenance, 172/310/92 g |
| ProfileApi.IsFiniteNum | src/api/profile.js:120-123 | a number exactly when `Number(v)` is finite, and then that number |
| ProfileApi.IsFiniteInt | src/api/profile.js:124-127 | an integer exactly when `Number(v)` is a finite integer, and then that integer |
| ProfileApi.IsFiniteNumVersusToNumberOrNull | src/api/profile.js:120-123 | agrees with `toNumberOrNull` except on null, which becomes 0; undefined gives null and "" gives 0 |
| ProfileApi.IntegersAreFiniteNumbers | src/api/profile.js:120-127 | every integer accepted by `isFiniteInt` is accepted by `isFiniteNum` with the same value, but 2.5 only by the latter |
| ProfileApi.LoadProfileInputs | src/api/profile.js:13-41 | a falsy id throws "profileId required"; a query error other than "no rows" is rethrown, the profile's first; otherwise both rows, a missing one as null |
| ProfileApi.NoRowIsNotAnError | src/api/profile.js:34-35 | two "PGRST116" errors still give a result, with null for an absent row |
| ProfileApi.SaveArguments | src/api/profile.js:52 | a null argument throws on destructuring; otherwise profile and goals are the given ones, with absent ones defaulting to {} |
| ProfileApi.ProfilePayload | src/api/profile.js:56-66 | the profile row carries the given id, and `notifications` is the given array or [] |
| ProfileApi.ProfilePayloadFields | src/api/profile.js:56-66 | the row has exactly the seven text fields, each the given value or null |
| ProfileApi.GoalsPayload | src/api/profile.js:74-80 | the goals row carries the given id; `active_time` is the finite integer or null; `active_level` defaults to null and `weight_goal` to "maintain" |
| ProfileApi.GoalsPayloadColumns | src/api/profile.js:74-108 | the row has all 29 numeric columns, each the finite number read from the same-named field or null |
| ProfileApi.GoalsPayloadDefaults | src/api/profile.js:79-80 | an absent goal text gives "maintain" and an absent level gives null; a present goal text is kept |
| ProfileApi.SaveProfileInputs | src/api/profile.js:52-117 | at most two rows are sent, profile first and goals second, each with the given id; a successful save sent both |
| ProfileApi.SaveRequiresProfileId | src/api/profile.js:52-53 | a falsy id sends nothing and throws "profileId required" (a TypeError when the argument is null) |
| ProfileApi.SaveSendsBothRows | src/api/profile.js:52-117 | when both writes succeed, the two rows are sent and the result is a fresh load |
| ProfileApi.ProfileWriteErrorStopsTheSave | src/api/profile.js:68-71 | a failed profile upsert is rethrown and the goals row is never sent |
| ProfileApi.SaveWithoutArgument | src/api/profile.js:52-117 | with no argument both rows are built from empty objects |
| ProfileApi.RowsOfEmptyObjects | src/api/profile.js:56-108 | empty input gives no notifications, null fields, "maintain" and null numbers |
| ProfilePage.RoundIfNumber | src/pages/ProfilePage.jsx:18-20 | a finite number becomes its nearest integer (halves up); every other value is returned unchanged |
| ProfilePage.RoundIfNumberIdempotent | src/pages/ProfilePage.jsx:18-20 | rounding twice is rounding once |
| ProfilePage.ToPositiveNumberOrNull | src/pages/ProfilePage.jsx:128-132 | a number exactly when the input is not null, undefined or "" and converts to a finite positive number, and then that number |
| ProfilePage.ToNonNegativeIntOrNull | src/pages/ProfilePage.jsx:133-137 | a value exactly when the input is not null, undefined or "" and converts to a finite integer ≥ 0, and then that integer |
| ProfilePage.PositiveIsPositivePartOfNumber | src/pages/ProfilePage.jsx:128-132 | the positive validator is `toNumberOrNull` restricted to positive results |
| ProfilePage.IntegerValidatorVersusIsFiniteInt | src/pages/ProfilePage.jsx:133-137 | away from "" and null, the integer validator is `isFiniteInt` restricted to non-negative results |
| ProfilePage.IntegerValidatorOnEmptyValues | src/pages/ProfilePage.jsx:133-137 | on "" and null the validator gives null where `isFiniteInt` gives 0 |
| ProfilePage.ValidatorsReadNaturalText | src/pages/ProfilePage.jsx:128-137 | the text of a natural number is read back as that number by both validators (0 only by the integer one) |
| ProfilePage.InferredLevel | src/pages/ProfilePage.jsx:111-112 | the stored goal text seeds level 2 exactly for "lose", 4 exactly for "gain", and 3 otherwise, absence included |
| ProfilePage.InferredLevelIsGoalLevelFromText | src/pages/ProfilePage.jsx:111-112 | the page's inference is the summary's, and maps each stored text back to itself through `goalTextFromLevel` |
| ProfilePage.PositiveText | src/pages/ProfilePage.jsx:119-120 | a value is shown only when it is positive, as its number text, and "" otherwise |
| ProfilePage.Prefill | src/pages/ProfilePage.jsx:114-126 | the prefilled form shows height and weight only when positive, the birth date when truthy, the sex or "", the minutes as text, and the inferred goal level |
| ProfilePage.PrefillFromRows | src/pages/ProfilePage.jsx:98-126 | with the page's own summary, the form's height and weight are the goals row's positive measurements and the sex is the profile row's normalised sex |
| ProfilePage.SavePayload | src/pages/ProfilePage.jsx:144-155 | the payload has the user's id; the goal text is "lose" for the level read as 1 or 2, "gain" for 4 or 5, "maintain" otherwise; an empty birth date and an empty sex become null; the sex is the form's text lower-cased letter by letter; height, weight and minutes are their validators' results |
| ProfilePage.PayloadObject | src/pages/ProfilePage.jsx:147-155 | the row sent holds exactly the seven payload fields, with the user's id under `profile_id` and no `user_id` |
| ProfilePage.HandleSaveAsWritten | src/pages/ProfilePage.jsx:139-191 | with `upsertUserMetrics`' guard (src/api/goals.js:22-23) in place, every signed-in save fails and keeps the rows |
| ProfilePage.IntendedPayloadObject | src/api/goals.js:22-23 | the same row with the user's id also under `user_id` |
| ProfilePage.IntendedPayloadPassesGuard | src/api/goals.js:22-23 | for a signed-in user the intended row passes the guard and the row as written does not |
| ProfilePage.MergeAfterSave | src/pages/ProfilePage.jsx:159-175 | the merged rows hold the saved id, birth date, sex, height, weight, minutes and goal text, and the energy row is kept |
| ProfilePage.MergeKeepsOtherFields | src/pages/ProfilePage.jsx:159-175 | the merge adds only the written fields and leaves every other field of both rows unchanged |
| ProfilePage.HandleSave | src/pages/ProfilePage.jsx:139-191 | as intended (the row passing the upsert's guard): nothing happens without a user; otherwise the payload is sent, and on success the rows are merged and a truthy refreshed energy row replaces the old one |
| ProfilePage.MergedRowsReadBack | src/pages/ProfilePage.jsx:159-175 | the merged goals row reads back the saved height, weight and goal level |
| ProfilePage.UneditedSaveKeepsGoalLevel | src/pages/ProfilePage.jsx:111-175 | saving an unedited prefilled form keeps the goal level the page infers |
| ProfilePage.UneditedSaveKeepsWholeMeasurements | src/pages/ProfilePage.jsx:119-151 | saving an unedited form keeps a whole-number height |
| RecipesPage.Without | src/pages/RecipesPage.jsx:50 | filtering removes every occurrence of the id and keeps every other element's count |
| RecipesPage.WithoutAppend | src/pages/RecipesPage.jsx:50 | filtering distributes over joining lists |
| RecipesPage.WithoutAbsent | src/pages/RecipesPage.jsx:50 | filtering out an absent id changes nothing |
| RecipesPage.Toggle | src/pages/RecipesPage.jsx:49-51 | a present id is removed wherever it occurs (the list gets shorter); an absent one is appended at the end |
| RecipesPage.ToggleFlipsOnlyTheToggledId | src/pages/RecipesPage.jsx:50 | the toggled id's membership flips; every other id's membership and count stay the same |
| RecipesPage.ToggleTwiceRestoresAbsent | src/pages/RecipesPage.jsx:50 | toggling an absent id twice gives the original list |
| RecipesPage.ToggleTwiceMovesPresent | src/pages/RecipesPage.jsx:50 | toggling a present id twice moves it, once, to the end |
| RecipesPage.ToggleKeepsDistinct | src/pages/RecipesPage.jsx:50 | a list without duplicates keeps none |
| RecipesPage.FormToggle | src/pages/RecipesPage.jsx:159 | an undefined list toggles to the one id |
| RecipesPage.FormToggleIsToggle | src/pages/RecipesPage.jsx:159 | the form's toggle is the filter toggle with an undefined list read as empty |
| RecipesPage.CategoryList | src/pages/RecipesPage.jsx:70 | a falsy `category_ids` gives [] and an array gives its items |
| RecipesPage.FormOf | src/pages/RecipesPage.jsx:70 | the edit form holds the recipe's title, description and image URL (or ""), its categories and no file |
| RecipesPage.SavePayload | src/pages/RecipesPage.jsx:83-90 | no id unless editing, else the edited id; the user id is the signed-in user's; the form's contents and the image URL |
| RecipesPage.RecipesEditor.constructor | src/pages/RecipesPage.jsx:12-19 | no filters, nothing edited, an empty form and no error |
| RecipesPage.RecipesEditor.ToggleCategory | src/pages/RecipesPage.jsx:49-51 | the filter list is toggled and nothing else changes |
| RecipesPage.RecipesEditor.StartAdd | src/pages/RecipesPage.jsx:53-61 | without a user an error is set and nothing else changes; otherwise the error is cleared, nothing is edited and the form is empty |
| RecipesPage.RecipesEditor.StartEdit | src/pages/RecipesPage.jsx:63-71 | ignores a falsy recipe; refuses someone else's recipe with an error and leaves the edited recipe and the form unchanged; otherwise edits the recipe with its form |
| RecipesPage.RecipesEditor.ToggleFormCategory | src/pages/RecipesPage.jsx:156-161 | the form's list is toggled, an undefined one read as empty, and nothing else changes |
| RecipesPage.RecipesEditor.Cancel | src/pages/RecipesPage.jsx:173 | nothing is edited and the form is empty |
| RecipesPage.RecipesEditor.HandleSave | src/pages/RecipesPage.jsx:73-100 | without a user an error is set and nothing is sent; a failed upload sends nothing; otherwise the payload with the uploaded or kept URL is sent, and success ends editing with the reload's error (if any) |
| RecipesPage.RecipesEditor.HandleDelete | src/pages/RecipesPage.jsx:102-112 | a delete goes ahead exactly when a user is signed in, and otherwise sets an error |
| RecipesPage.OwnershipGuard | src/pages/RecipesPage.jsx:65 | recipes without an owner and the user's own recipes are editable |
| RecipesPage.NewRecipesHaveNoId | src/pages/RecipesPage.jsx:84 | a new recipe's payload has no id and an edited recipe's has its id |
| ImportRecipes.ExternalId | scripts/importRecipes.js:29 | the external id is never undefined (absent becomes null) |
| ImportRecipes.Title | scripts/importRecipes.js:30 | `Meal_Name` when present, otherwise "Recipe " followed by `Meal_ID` or nothing |
| ImportRecipes.IngredientsOf | scripts/importRecipes.js:31 | absent ingredients are [], an array is its items, and any other value has no `map` |
| ImportRecipes.IngredientLabel | scripts/importRecipes.js:33 | the name, plus " (note)" exactly when the note is truthy; a null ingredient throws |
| ImportRecipes.Labels | scripts/importRecipes.js:33 | fails exactly when some ingredient is null or undefined; otherwise one label per ingredient, in order |
| ImportRecipes.LabelsOfPrefix | scripts/importRecipes.js:33 | the labels of a prefix are the prefix of the labels |
| ImportRecipes.Description | scripts/importRecipes.js:33 | the description fails exactly when a label does |
| ImportRecipes.FirstLabels | scripts/importRecipes.js:33 | at most the first eight labels are kept |
| ImportRecipes.DescriptionOfNoIngredients | scripts/importRecipes.js:31-33 | no ingredients give an empty description |
| ImportRecipes.DescriptionNamesFirstEight | scripts/importRecipes.js:33 | only the first eight ingredients shape the description |
| ImportRecipes.DescriptionOfShortList | scripts/importRecipes.js:33 | up to eight ingredients are all listed, joined by ", " |
| ImportRecipes.DescriptionOfOneIngredient | scripts/importRecipes.js:33 | one ingredient's description is its label |
| ImportRecipes.UnreadableLateIngredientFails | scripts/importRecipes.js:33 | a null ingredient beyond the eighth still throws, because every label is built before the cut |
| ImportRecipes.LocalPath | scripts/importRecipes.js:38 | one leading "/" is dropped, and nothing else changes |
| ImportRecipes.TrimTrailingSlashes | scripts/importRecipes.js:39 | the longest prefix of the path that does not end in "/"; everything dropped is "/" |
| ImportRecipes.LastSegment | scripts/importRecipes.js:39 | the suffix after the last "/" |
| ImportRecipes.LastDot | scripts/importRecipes.js:39 | the position of the last "." |
| ImportRecipes.SegmentExtension | scripts/importRecipes.js:39 | non-empty exactly when the segment has a "." after its first character and is not ".."; then the proper suffix from its last "." |
| ImportRecipes.Extname | scripts/importRecipes.js:39 | in the last segment of the path, trailing slashes ignored: non-empty exactly when it has a "." after its first character and is not ".."; then the proper suffix of it from its last "." |
| ImportRecipes.ExtnameOfBareFile | scripts/importRecipes.js:39 | a bare "base.ext" has extension ".ext" |
| ImportRecipes.ExtnameIgnoresTrailingSlash | scripts/importRecipes.js:39 | a trailing "/" does not change the extension |
| ImportRecipes.LastSegmentOfName | scripts/importRecipes.js:39 | the last segment of "dir/name" is the name |
| ImportRecipes.LastDotBeforeExtension | scripts/importRecipes.js:39 | the last "." of "base.ext" is the one after the base |
| ImportRecipes.ExtnameOfFile | scripts/importRecipes.js:39 | "dir/base.ext" has extension ".ext" |
| ImportRecipes.ExtnameWithoutDot | scripts/importRecipes.js:39 | a name without "." has no extension, so ".jpg" is used |
| ImportRecipes.ExtnameOfDotFile | scripts/importRecipes.js:39 | a dot file has no extension |
| ImportRecipes.ImageExtension | scripts/importRecipes.js:39 | always starts with "."; the path's extension when it has one, else ".jpg" |
| ImportRecipes.DestPath | scripts/importRecipes.js:39-40 | "imports/" + the id (or the clock reading) + the image extension |
| ImportRecipes.PayloadOf | scripts/importRecipes.js:28-53 | fails exactly on a null item, ingredients that are no list, or a null ingredient; otherwise the id, title, description and image, with no owner, no categories and source "import:recipes.json" |
| ImportRecipes.Payloads | scripts/importRecipes.js:28-53 | one payload per item, in order |
| ImportRecipes.ImportSpec | scripts/importRecipes.js:28-90 | no more rows sent than items, no more inserted than sent, every item sent unless the run crashed, and the count is the replies that returned a row |
| ImportRecipes.CrashIsFinal | scripts/importRecipes.js:28-90 | after an uncaught error the remaining items change nothing |
| ImportRecipes.Import | scripts/importRecipes.js:24-93 | the loop computes exactly the specified run |
| ImportRecipes.CrashedIffFatal | scripts/importRecipes.js:56-67 | the run ends with an error exactly when some payload cannot be built or some upsert returns no row |
| ImportRecipes.SentPayloads | scripts/importRecipes.js:45-60 | the i-th row sent is the i-th item's payload |
| ImportRecipes.SentPayloadFields | scripts/importRecipes.js:45-53 | every row sent has no owner, no categories, the import's source, and the item's id and title |
| ImportRecipes.InsertedCountsSuccesses | scripts/importRecipes.js:62-88 | without a crash the count is the number of upserts that returned a row, at most the number of items, and all of them when none failed |
| ImportRecipes.AllReturnedSucceed | scripts/importRecipes.js:62-88 | in a run without a crash, every upsert without an error returned a row |

## Left out

- Database, storage and network calls are left out. The model sees their results as parameters: query data and errors, upsert errors and replies, upload outcomes and reload errors.
- Authentication, rendering, routing and React effects are left out, and so is the `mounted` flag.
- `Promise.all` ordering is not modelled: both queries' results are given together.
- `src/pages/NutrientFormulas.jsx` is not part of this model. Its micronutrient tables and carb and fat subtypes are computed nowhere in the code.
- Floating point is not modelled; numbers are exact reals. So tie-breaking of inexact factors such as 1.55, and `1 − 0.7 ≠ 0.3`, are out of scope.
- Number-to-string conversion is partial. Integers print exactly. Fractions print as their decimal expansion, cut after 20 digits, with no exponent form.
- Lower-casing covers ASCII letters only.
- ProfileTransforms.ParseDate: date-string parsing is the parameter `dateOf`. A `Date` object as input is not modelled, since the rows come from JSON.
- ProfileTransforms.ComputeAgeFromDOB: the current date is a parameter.
- `DeriveProfileSummary` has no contract of its own. What it promises is stated by the `Summary…` lemmas.
- The metrics insert behind `upsertUserMetrics` and its recompute call (`src/api/goals.js`) are left out; their outcome is the parameter `upsertSucceeded` (`insertSucceeded` in `HandleSaveAsWritten`). The `user_id` guard in front of them is modelled; see "## Findings".
- ProfileTransforms.DeriveProfileSummary: an activity level outside 1..5 gives no activity name (`None`) where JavaScript gives `undefined`; both read as missing.
- ProfilePage.HandleSave: the error message of a failed save (`JSON.stringify` and friends) and the `lastSaveInfo` record are not modelled.
- ProfilePage.MergeAfterSave: spreading a non-object row is not modelled. A row that is neither an object nor null is read as an empty object.
- RecipesPage: list membership compares JavaScript values as values. NaN and distinct objects with equal contents are not told apart as `!==` would tell them.
- RecipesPage.CategoryList: a truthy `category_ids` that is not an array is read as no list. The page would keep that value.
- RecipesPage.RecipesEditor.HandleSave: the storage path of an upload contains `Date.now()`, so it is not modelled. Only the uploaded URL, or the failure, is a parameter.
- RecipesPage.RecipesEditor.HandleDelete: the confirmation dialog, the delete call and its error message are left out. The method states only the sign-in guard.
- RecipesPage: `loadAll`'s fetching and its error handling are left out. The reload is a parameter that gives an error message or none.
- ImportRecipes: reading and parsing the JSON file are left out, along with the console output and the final "Done" line. A file that parses to something other than an array is not modelled.
- ImportRecipes.PayloadOf: the upload branch is switched off in the script (`UPLOAD_LOCAL_IMAGES = false`), so the payload keeps `item.Image || null`. The path helpers of that branch are modelled and proved on their own: `LocalPath`, `Extname` and `DestPath`.
- ImportRecipes.DestPath: `Date.now()` is a parameter.
- ImportRecipes: the ingredient inserts and `getOrCreateIngredient` are left out. They catch their own errors and do not change the count.

## Findings

| source | as written | input that shows it | evidently intended | confidence | as-written member | corrected member |
|---|---|---|---|---|---|---|
| src/pages/ProfilePage.jsx:147-158 with src/api/goals.js:22-23 | `handleSave` sends a row keyed `profile_id` to `upsertUserMetrics`, which throws 'user_id required' unless `payload.user_id` is truthy | any signed-in user, any form: the row has no `user_id`, so the save sets the error 'user_id required', and the merge, the energy refresh and the end of editing are never reached | the row carries the user's id under `user_id`, the guard passes, and a successful insert merges the saved values into the rows | high (not executed) | ProfilePage.HandleSaveAsWritten | ProfilePage.HandleSave, with ProfilePage.IntendedPayloadPassesGuard |
