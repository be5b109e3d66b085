/** scripts/importRecipes.js: the recipe import. Each item of the parsed
    recipes.json becomes a recipe payload (title, a short ingredient
    description, the image URL, fixed owner, categories and source) that is
    upserted by `external_id`; `inserted` counts the upserts that answered a
    row. The file, the Supabase replies and the clock are parameters. */
module ImportRecipes {
  import opened Wrappers
  import opened JsValues

  // ================================================================ texts

  /** `item.Meal_ID ?? null`. */
  function ExternalId(item: JsValue): (id: JsValue)
    ensures !id.Undefined?
  {
    Coalesce(Get(item, "Meal_ID"), Null)
  }

  /** `item.Meal_Name ?? \`Recipe ${externalId ?? ""}\``: the meal name when
      there is one, otherwise "Recipe " followed by the id, or by nothing. */
  function Title(item: JsValue): (t: JsValue)
    ensures !Nullish(Get(item, "Meal_Name")) ==> t == Get(item, "Meal_Name")
    ensures Nullish(Get(item, "Meal_Name")) && Nullish(Get(item, "Meal_ID")) ==> t == Str("Recipe ")
    ensures Nullish(Get(item, "Meal_Name")) && !Nullish(Get(item, "Meal_ID")) ==>
              t == Str("Recipe " + ToJsString(Get(item, "Meal_ID")))
  {
    Coalesce(Get(item, "Meal_Name"), Str("Recipe " + ToJsString(Coalesce(ExternalId(item), Str("")))))
  }

  /** `item.Ingredients ?? []`, None when it is something `.map` cannot be
      called on (a TypeError). */
  function IngredientsOf(item: JsValue): (r: Option<seq<JsValue>>)
    ensures Nullish(Get(item, "Ingredients")) ==> r == Some([])
    ensures Get(item, "Ingredients").Arr? ==> r == Some(Get(item, "Ingredients").items)
    ensures r.None? <==> !Nullish(Get(item, "Ingredients")) && !Get(item, "Ingredients").Arr?
  {
    var ingredients := Coalesce(Get(item, "Ingredients"), Arr([]));
    if ingredients.Arr? then Some(ingredients.items) else None
  }

  /** `${i.Ingredient_Name}${i.Note ? \` (${i.Note})\` : ""}`; None for a
      null or undefined ingredient, whose fields cannot be read. */
  function IngredientLabel(i: JsValue): (r: Option<string>)
    ensures r.None? <==> Nullish(i)
    ensures r.Some? && !Truthy(Get(i, "Note")) ==> r.value == ToJsString(Get(i, "Ingredient_Name"))
    ensures r.Some? && Truthy(Get(i, "Note")) ==>
              r.value == ToJsString(Get(i, "Ingredient_Name")) + " (" + ToJsString(Get(i, "Note")) + ")"
  {
    if Nullish(i) then None
    else
      var note := Get(i, "Note");
      Some(ToJsString(Get(i, "Ingredient_Name")) + (if Truthy(note) then " (" + ToJsString(note) + ")" else ""))
  }

  /** `ingredients.map(label)`: the label of every ingredient, None when one
      of them cannot be read. */
  function Labels(ingredients: seq<JsValue>): (r: Option<seq<string>>)
    ensures r.None? <==> exists i :: 0 <= i < |ingredients| && Nullish(ingredients[i])
    ensures r.Some? ==> |r.value| == |ingredients|
    ensures r.Some? ==> forall i :: 0 <= i < |ingredients| ==> r.value[i] == IngredientLabel(ingredients[i]).value
  {
    if |ingredients| == 0 then Some([])
    else
      var first := IngredientLabel(ingredients[0]);
      var rest := Labels(ingredients[1..]);
      if first.None? then None
      else if rest.Some? then Some([first.value] + rest.value)
      else
        assert exists i :: 1 <= i < |ingredients| && Nullish(ingredients[i]) by {
          var j :| 0 <= j < |ingredients[1..]| && Nullish(ingredients[1..][j]);
          assert Nullish(ingredients[j + 1]);
        }
        None
  }

  /** The labels of a prefix are the prefix of the labels. */
  lemma {:induction false} LabelsOfPrefix(ingredients: seq<JsValue>, n: nat)
    requires Labels(ingredients).Some? && n <= |ingredients|
    ensures Labels(ingredients[..n]) == Some(Labels(ingredients).value[..n])
  {
    var labels := Labels(ingredients).value;
    var prefix := Labels(ingredients[..n]);
    assert prefix.Some?;
    assert |prefix.value| == n;
    assert forall i :: 0 <= i < n ==> prefix.value[i] == labels[i];
    assert prefix.value == labels[..n];
  }

  /** The most ingredients the description names. */
  const DescribedIngredients: nat := 8

  /** `ingredients.map(label).slice(0, 8).join(", ")`. Every label is built
      before the slice, so an unreadable ninth ingredient still fails. */
  function Description(ingredients: seq<JsValue>): (r: Option<string>)
    ensures r.None? <==> Labels(ingredients).None?
  {
    match Labels(ingredients)
    case None => None
    case Some(labels) => Some(Join(FirstLabels(labels), ", "))
  }

  /** `labels.slice(0, 8)`. */
  function FirstLabels(labels: seq<string>): (r: seq<string>)
    ensures |labels| <= DescribedIngredients ==> r == labels
    ensures |labels| >= DescribedIngredients ==> r == labels[..DescribedIngredients]
  {
    if |labels| <= DescribedIngredients then labels else labels[..DescribedIngredients]
  }

  /** No ingredients, no description. */
  lemma DescriptionOfNoIngredients()
    ensures Description([]) == Some("")
  {
  }

  /** At most eight ingredients are described: a readable list longer than
      eight is described as its first eight. */
  lemma DescriptionNamesFirstEight(ingredients: seq<JsValue>)
    requires Labels(ingredients).Some? && |ingredients| >= DescribedIngredients
    ensures Description(ingredients) == Description(ingredients[..DescribedIngredients])
  {
    LabelsOfPrefix(ingredients, DescribedIngredients);
  }

  /** A readable list of at most eight ingredients is described by the
      labels of all of them, joined by ", ". */
  lemma DescriptionOfShortList(ingredients: seq<JsValue>)
    requires Labels(ingredients).Some? && |ingredients| <= DescribedIngredients
    ensures Description(ingredients) == Some(Join(Labels(ingredients).value, ", "))
  {

  }

  /** A single ingredient is described by its label alone, with no
      separator. */
  lemma DescriptionOfOneIngredient(i: JsValue)
    requires !Nullish(i)
    ensures Description([i]) == IngredientLabel(i)
  {
    var text := IngredientLabel(i).value;
    assert [i][1..] == [];
    assert Labels([i][1..]) == Some([]);
    assert [text] + [] == [text];
    assert Labels([i]) == Some([text]);
    assert [text][..1] == [text];
  }

  /** An unreadable ingredient after the eighth still makes the item fail,
      although it would not be described. */
  lemma UnreadableLateIngredientFails(ingredients: seq<JsValue>, k: nat)
    requires DescribedIngredients <= k < |ingredients| && Nullish(ingredients[k])
    ensures Description(ingredients).None?
  {
  }

  // ================================================================ image paths

  /** `imageUrl.startsWith("/") ? imageUrl.slice(1) : imageUrl`. */
  function LocalPath(imageUrl: string): (p: string)
    ensures StartsWith(imageUrl, "/") ==> [imageUrl[0]] + p == imageUrl
    ensures !StartsWith(imageUrl, "/") ==> p == imageUrl
  {
    if StartsWith(imageUrl, "/") then imageUrl[1..] else imageUrl
  }

  /** `p` with its trailing slashes dropped: the longest prefix that does
      not end in '/', everything after it being slashes. */
  function TrimTrailingSlashes(p: string): (r: string)
    ensures |r| <= |p| && r == p[..|r|]
    ensures |r| == 0 || r[|r| - 1] != '/'
    ensures AllSlashes(p[|r|..])
  {
    if |p| > 0 && p[|p| - 1] == '/' then
      var r := TrimTrailingSlashes(p[..|p| - 1]);
      assert p[|r|..] == p[..|p| - 1][|r|..] + ['/'];
      r
    else p
  }

  /** Whether every character of `s` is '/'. */
  predicate AllSlashes(s: string) {
    forall i :: 0 <= i < |s| ==> s[i] == '/'
  }

  /** The text after the last slash. */
  function LastSegment(p: string): (s: string)
    ensures '/' !in s
    ensures |s| <= |p| && s == p[|p| - |s|..]
    ensures |s| < |p| ==> p[|p| - |s| - 1] == '/'
  {
    if |p| == 0 || p[|p| - 1] == '/' then ""
    else
      var n := |p| - 1;
      var rest := LastSegment(p[..n]);
      assert p[n - |rest|..] == p[..n][n - |rest|..] + [p[n]];
      rest + [p[n]]
  }

  /** The index of the last '.' in `s`. */
  function LastDot(s: string): (k: Option<nat>)
    ensures k.None? <==> '.' !in s
    ensures k.Some? ==> k.value < |s| && s[k.value] == '.' && '.' !in s[k.value + 1..]
  {
    if |s| == 0 then None
    else if s[|s| - 1] == '.' then Some(|s| - 1)
    else
      var k := LastDot(s[..|s| - 1]);
      assert s == s[..|s| - 1] + [s[|s| - 1]];
      k
  }

  /** The extension of one path segment: the text from its last '.', or ""
      when it has no '.', when that '.' starts the segment, or when the
      segment is "..". */
  function SegmentExtension(segment: string): (e: string)
    ensures e != "" <==> |segment| > 1 && '.' in segment[1..] && segment != ".."
    ensures e != "" ==>
              |e| < |segment| && e == segment[|segment| - |e|..] && e[0] == '.' && '.' !in e[1..]
  {
    DotAfterStart(segment);
    match LastDot(segment)
    case None => ""
    case Some(k) =>
      if k == 0 || segment == ".." then ""
      else
        assert segment[k..][1..] == segment[k + 1..];
        segment[k..]
  }

  /** A segment has a '.' after its first character exactly when its last
      '.' is not the first character. */
  lemma DotAfterStart(segment: string)
    ensures |segment| > 1 && '.' in segment[1..] <==> LastDot(segment).Some? && LastDot(segment).value != 0
  {
    var k := LastDot(segment);
    if k.Some? && k.value != 0 {
      assert segment[1..][k.value - 1] == '.';
    } else if k.Some? && |segment| > 0 {
      assert segment[1..] == segment[k.value + 1..];
    }
  }

  /** Node's POSIX `path.extname(p)`: the extension of the last segment,
      trailing slashes ignored. A non-empty result is a proper suffix of
      that segment that starts at its last '.'. */
  function Extname(p: string): (e: string)
    ensures var segment := LastSegment(TrimTrailingSlashes(p));
            e != "" <==> |segment| > 1 && '.' in segment[1..] && segment != ".."
    ensures var segment := LastSegment(TrimTrailingSlashes(p));
            e != "" ==>
              |e| < |segment| && e == segment[|segment| - |e|..] && e[0] == '.' && '.' !in e[1..]
  {
    SegmentExtension(LastSegment(TrimTrailingSlashes(p)))
  }

  /** The last segment of a path ending in "/name" is the name. */
  lemma {:induction false} LastSegmentOfName(dir: string, name: string)
    requires '/' !in name
    ensures LastSegment(dir + "/" + name) == name
  {
    if |name| > 0 {
      var n := |name| - 1;
      assert (dir + "/" + name)[..|dir + "/" + name| - 1] == dir + "/" + name[..n];
      LastSegmentOfName(dir, name[..n]);
      assert name == name[..n] + [name[n]];
    } else {
      assert dir + "/" + name == dir + "/";
    }
  }

  /** The last '.' of "base.ext", when `ext` has none, is the one before it. */
  lemma {:induction false} LastDotBeforeExtension(base: string, ext: string)
    requires '.' !in ext
    ensures LastDot(base + "." + ext) == Some(|base|)
  {
    if |ext| > 0 {
      var n := |ext| - 1;
      assert (base + "." + ext)[..|base + "." + ext| - 1] == base + "." + ext[..n];
      LastDotBeforeExtension(base, ext[..n]);
    }
  }

  /** A file "dir/base.ext" whose base does not start with '.' has the
      extension ".ext". */
  lemma ExtnameOfFile(dir: string, base: string, ext: string)
    requires '/' !in base && '/' !in ext && '.' !in ext
    requires |base| > 0 && base[0] != '.'
    ensures Extname(dir + "/" + base + "." + ext) == "." + ext
  {
    var name := base + "." + ext;
    assert dir + "/" + base + "." + ext == dir + "/" + name;
    assert LastDot(name) == Some(|base|) && name != ".." && name[|base|..] == "." + ext by {
      LastDotBeforeExtension(base, ext);
      assert name[0] == base[0];
    }
    FileSegment(dir, name);
    ExtnameOfSegment(dir + "/" + name, name, |base|);
  }

  /** A path "dir/name" keeps its trailing characters and ends in the segment
      `name`. */
  lemma FileSegment(dir: string, name: string)
    requires '/' !in name && |name| > 0
    ensures TrimTrailingSlashes(dir + "/" + name) == dir + "/" + name
    ensures LastSegment(dir + "/" + name) == name
  {
    var p := dir + "/" + name;
    assert p[|p| - 1] == name[|name| - 1];
    LastSegmentOfName(dir, name);
  }

  /** The extension read from a path's last segment and the last '.' in it. */
  lemma ExtnameOfSegment(p: string, segment: string, k: nat)
    requires TrimTrailingSlashes(p) == p && LastSegment(p) == segment
    requires LastDot(segment) == Some(k) && k != 0 && segment != ".."
    ensures Extname(p) == segment[k..]
  {
  }

  /** A bare file name "base.ext" (no directory) has the extension ".ext". */
  lemma ExtnameOfBareFile(base: string, ext: string)
    requires '/' !in base && '/' !in ext && '.' !in ext
    requires |base| > 0 && base[0] != '.'
    ensures Extname(base + "." + ext) == "." + ext
  {
    var name := base + "." + ext;
    assert LastDot(name) == Some(|base|) && name != ".." && name[|base|..] == "." + ext by {
      LastDotBeforeExtension(base, ext);
      assert name[0] == base[0];
    }
    assert '/' !in name && name[|name| - 1] != '/';
    assert TrimTrailingSlashes(name) == name;
    assert LastSegment(name) == name;
    ExtnameOfSegment(name, name, |base|);
  }

  /** Trailing slashes do not change the extension: "a/b.jpg/" is ".jpg". */
  lemma ExtnameIgnoresTrailingSlash(p: string)
    ensures Extname(p + "/") == Extname(p)
  {
    var q := p + "/";
    assert q[..|q| - 1] == p;
    assert TrimTrailingSlashes(q) == TrimTrailingSlashes(p);
  }

  /** A file "dir/name" whose name has no '.' has no extension. */
  lemma ExtnameWithoutDot(dir: string, name: string)
    requires '/' !in name && '.' !in name && |name| > 0
    ensures Extname(dir + "/" + name) == ""
  {
    var p := dir + "/" + name;
    assert p[|p| - 1] == name[|name| - 1];
    assert TrimTrailingSlashes(p) == p;
    LastSegmentOfName(dir, name);
  }

  /** A file "dir/.name" (a dot file) has no extension. */
  lemma ExtnameOfDotFile(dir: string, name: string)
    requires '/' !in name && '.' !in name
    ensures Extname(dir + "/." + name) == ""
  {
    var p := dir + "/." + name;
    var file := "." + name;
    assert p == dir + "/" + file;
    assert p[|p| - 1] == file[|file| - 1];
    assert TrimTrailingSlashes(p) == p;
    LastSegmentOfName(dir, file);
    LastDotBeforeExtension("", name);
    assert "" + "." + name == file;
  }

  /** `path.extname(localPath) || ".jpg"`: always an extension starting
      with '.', the path's own one when it has one. */
  function ImageExtension(localPath: string): (ext: string)
    ensures |ext| > 0 && ext[0] == '.'
    ensures Extname(localPath) != "" ==> ext == Extname(localPath)
    ensures Extname(localPath) == "" ==> ext == ".jpg"
  {
    var e := Extname(localPath);
    if e == "" then ".jpg" else e
  }

  /** `\`imports/${externalId ?? Date.now()}${ext}\`` with `ext` the image
      extension of the local path; `now` is the clock's reading. */
  function DestPath(externalId: JsValue, now: nat, localPath: string): (d: string)
    ensures StartsWith(d, "imports/")
    ensures d == "imports/" + ImageName(externalId, now) + ImageExtension(localPath)
  {
    PrefixStartsWith("imports/", ImageName(externalId, now), ImageExtension(localPath));
    "imports/" + ImageName(externalId, now) + ImageExtension(localPath)
  }

  /** `externalId ?? Date.now()` as text. */
  function ImageName(externalId: JsValue, now: nat): string {
    if Nullish(externalId) then NatToString(now) else ToJsString(externalId)
  }

  /** A concatenation starts with its first part. */
  lemma PrefixStartsWith(a: string, b: string, c: string)
    ensures StartsWith(a + b + c, a)
  {
    assert (a + b + c)[..|a|] == a;
  }

  // ================================================================ payload

  /** The recipe row of an item. */
  datatype ImportPayload = ImportPayload(
    externalId: JsValue, userId: JsValue, title: JsValue, description: string,
    imageUrl: JsValue, categoryIds: seq<JsValue>, source: string)

  const ImportSource: string := "import:recipes.json"

  /** The payload of an item, None when building it throws: a null item, an
      `Ingredients` value that is no list, or an unreadable ingredient. The
      local upload (switched off by `UPLOAD_LOCAL_IMAGES = false`) does not
      run, so the image URL is `item.Image || null`. */
  function PayloadOf(item: JsValue): (p: Option<ImportPayload>)
    ensures p.None? <==>
              Nullish(item) || IngredientsOf(item).None? || Labels(IngredientsOf(item).value).None?
    ensures p.Some? ==>
              p.value.externalId == ExternalId(item) && p.value.title == Title(item) &&
              Some(p.value.description) == Description(IngredientsOf(item).value) &&
              p.value.imageUrl == Or(Get(item, "Image"), Null)
    ensures p.Some? ==>
              p.value.userId == Null && p.value.categoryIds == [] && p.value.source == ImportSource
  {
    if Nullish(item) then None
    else
      match IngredientsOf(item)
      case None => None
      case Some(ingredients) =>
        match Description(ingredients)
        case None => None
        case Some(description) =>
          Some(ImportPayload(ExternalId(item), Null, Title(item), description, Or(Get(item, "Image"), Null),
                             [], ImportSource))
  }

  // ================================================================ the run

  /** What the recipe upsert answers: an error, or the `data` (the row, or
      null when none came back). */
  datatype UpsertReply = UpsertFailed | UpsertReturned(data: JsValue)

  /** A run of the import: the payloads sent, the count, and whether an
      uncaught TypeError ended the script (exit code 1). */
  datatype ImportRun = ImportRun(sent: seq<ImportPayload>, inserted: nat, crashed: bool)

  /** The payload of every item, in order. */
  function Payloads(items: seq<JsValue>): (ps: seq<Option<ImportPayload>>)
    ensures |ps| == |items|
    ensures forall i :: 0 <= i < |items| ==> ps[i] == PayloadOf(items[i])
  {
    seq(|items|, i requires 0 <= i < |items| => PayloadOf(items[i]))
  }

  /** A reply that answered a row. */
  predicate Answered(reply: UpsertReply) {
    reply.UpsertReturned? && !Nullish(reply.data)
  }

  /** What ends the script: a payload that could not be built, or a reply
      without a row, whose `id` is then read. */
  predicate Fatal(payload: Option<ImportPayload>, reply: UpsertReply) {
    payload.None? || (reply.UpsertReturned? && Nullish(reply.data))
  }

  /** One iteration of the loop. A failed upsert is skipped (`continue`); a
      reply without a row throws when its `id` is read. The ingredient
      inserts catch their own errors and do not change the count. */
  function Step(run: ImportRun, payload: Option<ImportPayload>, reply: UpsertReply): ImportRun {
    if run.crashed then run
    else
      match payload
      case None => run.(crashed := true)
      case Some(p) =>
        var sent := run.sent + [p];
        match reply
        case UpsertFailed => ImportRun(sent, run.inserted, false)
        case UpsertReturned(data) =>
          if Nullish(data) then ImportRun(sent, run.inserted, true) else ImportRun(sent, run.inserted + 1, false)
  }

  /** The number of replies that answered a row. */
  function Succeeded(replies: seq<UpsertReply>): nat {
    if |replies| == 0 then 0
    else Succeeded(replies[..|replies| - 1]) + (if Answered(replies[|replies| - 1]) then 1 else 0)
  }

  /** Counting one more reply. */
  lemma SucceededOfPrefix(replies: seq<UpsertReply>, k: nat)
    requires k < |replies|
    ensures Succeeded(replies[..k + 1]) == Succeeded(replies[..k]) + (if Answered(replies[k]) then 1 else 0)
  {
    assert replies[..k + 1][..k] == replies[..k];
  }

  /** The run over the payloads, each answered by the reply at its index. */
  function ImportSpec(payloads: seq<Option<ImportPayload>>, replies: seq<UpsertReply>): (run: ImportRun)
    requires |replies| == |payloads|
    ensures |run.sent| <= |payloads| && run.inserted <= |run.sent|
    ensures !run.crashed ==> |run.sent| == |payloads|
    ensures run.inserted == Succeeded(replies[..|run.sent|])
  {
    if |payloads| == 0 then ImportRun([], 0, false)
    else
      var n := |payloads| - 1;
      var prev := ImportSpec(payloads[..n], replies[..n]);
      assert replies[..n][..|prev.sent|] == replies[..|prev.sent|];
      SucceededOfPrefix(replies, n);
      Step(prev, payloads[n], replies[n])
  }

  /** The run over one more payload takes one more step. */
  lemma SpecStep(payloads: seq<Option<ImportPayload>>, replies: seq<UpsertReply>, i: nat)
    requires |replies| == |payloads| && i < |payloads|
    ensures ImportSpec(payloads[..i + 1], replies[..i + 1]) ==
            Step(ImportSpec(payloads[..i], replies[..i]), payloads[i], replies[i])
  {
    assert payloads[..i + 1][..i] == payloads[..i] && replies[..i + 1][..i] == replies[..i];
  }

  /** One more payload after a crash changes nothing. */
  lemma CrashedStep(payloads: seq<Option<ImportPayload>>, replies: seq<UpsertReply>)
    requires |replies| == |payloads| > 0
    requires ImportSpec(payloads[..|payloads| - 1], replies[..|payloads| - 1]).crashed
    ensures ImportSpec(payloads, replies) == ImportSpec(payloads[..|payloads| - 1], replies[..|payloads| - 1])
  {
  }

  /** Once the run has crashed, the remaining items change nothing. */
  lemma {:induction false} CrashIsFinal(payloads: seq<Option<ImportPayload>>, replies: seq<UpsertReply>, i: nat)
    requires |replies| == |payloads| && i <= |payloads|
    requires ImportSpec(payloads[..i], replies[..i]).crashed
    ensures ImportSpec(payloads, replies) == ImportSpec(payloads[..i], replies[..i])
    decreases |payloads| - i
  {
    if i < |payloads| {
      var j := i + 1;
      assert payloads[..j][..i] == payloads[..i] && replies[..j][..i] == replies[..i];
      CrashedStep(payloads[..j], replies[..j]);
      CrashIsFinal(payloads, replies, j);
    } else {
      assert payloads[..i] == payloads && replies[..i] == replies;
    }
  }

  /** `main()`'s loop over the parsed items. */
  method Import(items: seq<JsValue>, replies: seq<UpsertReply>) returns (run: ImportRun)
    requires |replies| == |items|
    ensures run == ImportSpec(Payloads(items), replies)
  {
    ghost var payloads := Payloads(items);
    var sent: seq<ImportPayload> := [];
    var inserted: nat := 0;
    var i := 0;
    while i < |items|
      invariant 0 <= i <= |items|
      invariant ImportSpec(payloads[..i], replies[..i]) == ImportRun(sent, inserted, false)
    {
      SpecStep(payloads, replies, i);
      var payload := PayloadOf(items[i]);
      assert payload == payloads[i];
      if payload.None? {
        CrashIsFinal(payloads, replies, i + 1);
        return ImportRun(sent, inserted, true);
      }
      sent := sent + [payload.value];
      var reply := replies[i];
      if reply.UpsertFailed? {
        i := i + 1;
        continue;
      }
      if Nullish(reply.data) {
        CrashIsFinal(payloads, replies, i + 1);
        return ImportRun(sent, inserted, true);
      }
      inserted := inserted + 1;
      i := i + 1;
    }
    assert payloads[..i] == payloads && replies[..i] == replies;
    run := ImportRun(sent, inserted, false);
  }

  /** The run crashes exactly when some item's payload cannot be built or
      its reply has no row. */
  lemma {:induction false} CrashedIffFatal(payloads: seq<Option<ImportPayload>>, replies: seq<UpsertReply>)
    requires |replies| == |payloads|
    ensures ImportSpec(payloads, replies).crashed <==>
              exists i :: 0 <= i < |payloads| && Fatal(payloads[i], replies[i])
  {
    if |payloads| > 0 {
      var n := |payloads| - 1;
      CrashedIffFatal(payloads[..n], replies[..n]);
      var prev := ImportSpec(payloads[..n], replies[..n]);
      assert ImportSpec(payloads, replies) == Step(prev, payloads[n], replies[n]);
      if prev.crashed {
        var i :| 0 <= i < n && Fatal(payloads[..n][i], replies[..n][i]);
        assert payloads[..n][i] == payloads[i] && replies[..n][i] == replies[i];
      } else if !Fatal(payloads[n], replies[n]) {
        forall i | 0 <= i < |payloads|
          ensures !Fatal(payloads[i], replies[i])
        {
          if i < n {
            assert payloads[..n][i] == payloads[i] && replies[..n][i] == replies[i];
          }
        }
      }
    }
  }

  /** The i-th payload a run sends is the i-th payload built. */
  lemma {:induction false} SentPayloads(payloads: seq<Option<ImportPayload>>, replies: seq<UpsertReply>)
    requires |replies| == |payloads|
    ensures var run := ImportSpec(payloads, replies);
            forall i :: 0 <= i < |run.sent| ==> payloads[i] == Some(run.sent[i])
  {
    if |payloads| > 0 {
      var n := |payloads| - 1;
      var prev := ImportSpec(payloads[..n], replies[..n]);
      SentPayloads(payloads[..n], replies[..n]);
      var run := ImportSpec(payloads, replies);
      assert run == Step(prev, payloads[n], replies[n]);
      assert run.sent == prev.sent ||
             (!prev.crashed && payloads[n].Some? && run.sent == prev.sent + [payloads[n].value]);
      forall i | 0 <= i < |run.sent|
        ensures payloads[i] == Some(run.sent[i])
      {
        if i < |prev.sent| {
          assert payloads[..n][i] == payloads[i];
        }
      }
    }
  }

  /** Every row the script sends is the payload of the item at its index:
      no owner, no categories and the import's source. */
  lemma SentPayloadFields(items: seq<JsValue>, replies: seq<UpsertReply>, i: nat)
    requires |replies| == |items|
    requires i < |ImportSpec(Payloads(items), replies).sent|
    ensures var p := ImportSpec(Payloads(items), replies).sent[i];
            PayloadOf(items[i]) == Some(p) &&
            p.userId == Null && p.categoryIds == [] && p.source == ImportSource &&
            p.externalId == ExternalId(items[i]) && p.title == Title(items[i])
  {
    SentPayloads(Payloads(items), replies);
  }

  /** Without crashes the count is the number of replies that answered a
      row; without upsert errors too, it is the number of items. */
  lemma {:induction false} InsertedCountsSuccesses(payloads: seq<Option<ImportPayload>>, replies: seq<UpsertReply>)
    requires |replies| == |payloads|
    requires !ImportSpec(payloads, replies).crashed
    ensures ImportSpec(payloads, replies).inserted == Succeeded(replies) <= |payloads|
    ensures (forall i :: 0 <= i < |replies| ==> replies[i].UpsertReturned?) ==>
              ImportSpec(payloads, replies).inserted == |payloads|
  {
    assert replies[..|payloads|] == replies;
    if forall i :: 0 <= i < |replies| ==> replies[i].UpsertReturned? {
      AllReturnedSucceed(payloads, replies);
    }
  }

  /** In a run that does not crash, every reply that is no error holds a row. */
  lemma {:induction false} AllReturnedSucceed(payloads: seq<Option<ImportPayload>>, replies: seq<UpsertReply>)
    requires |replies| == |payloads|
    requires !ImportSpec(payloads, replies).crashed
    requires forall i :: 0 <= i < |replies| ==> replies[i].UpsertReturned?
    ensures Succeeded(replies) == |payloads|
  {
    if |payloads| > 0 {
      var n := |payloads| - 1;
      var prev := ImportSpec(payloads[..n], replies[..n]);
      assert ImportSpec(payloads, replies) == Step(prev, payloads[n], replies[n]);
      assert !prev.crashed;
      AllReturnedSucceed(payloads[..n], replies[..n]);
      assert !Nullish(replies[n].data);
    }
  }
}
