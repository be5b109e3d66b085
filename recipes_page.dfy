/** The state logic of src/pages/RecipesPage.jsx: the category toggles of
    the filter bar and of the edit form, the guards of "add", "edit" and
    "save", and the payload a save sends. The page's `useState` hooks are
    the fields of a `RecipesEditor`; the signed-in user, the image upload
    and the Supabase calls are parameters. */
module RecipesPage {
  import opened Wrappers
  import opened JsValues

  // ================================================================ toggles

  /** `s.filter(c => c !== id)`: every occurrence of `id` removed, the rest
      kept in order. */
  function Without(s: seq<JsValue>, id: JsValue): (r: seq<JsValue>)
    ensures multiset(r)[id] == 0
    ensures forall x :: x != id ==> multiset(r)[x] == multiset(s)[x]
    ensures |r| == |s| - multiset(s)[id]
  {
    if |s| == 0 then []
    else
      assert s == [s[0]] + s[1..];
      if s[0] == id then Without(s[1..], id) else [s[0]] + Without(s[1..], id)
  }

  /** Filtering distributes over concatenation. */
  lemma {:induction false} WithoutAppend(a: seq<JsValue>, b: seq<JsValue>, id: JsValue)
    ensures Without(a + b, id) == Without(a, id) + Without(b, id)
  {
    if |a| == 0 {
      assert a + b == b;
    } else {
      assert (a + b)[1..] == a[1..] + b;
      WithoutAppend(a[1..], b, id);
    }
  }

  /** Filtering out an element that is not there changes nothing. */
  lemma {:induction false} WithoutAbsent(s: seq<JsValue>, id: JsValue)
    requires id !in s
    ensures Without(s, id) == s
  {
    if |s| > 0 {
      WithoutAbsent(s[1..], id);
      assert s == [s[0]] + s[1..];
    }
  }

  /** `s.includes(id) ? s.filter(c => c !== id) : [...s, id]`. */
  function Toggle(s: seq<JsValue>, id: JsValue): (r: seq<JsValue>)
    ensures id in s ==> id !in r && |r| < |s|
    ensures id !in s ==> r == s + [id]
  {
    if id in s then Without(s, id) else s + [id]
  }

  /** A toggle flips the membership of the toggled id and keeps every other
      id exactly as often as before. */
  lemma ToggleFlipsOnlyTheToggledId(s: seq<JsValue>, id: JsValue, x: JsValue)
    ensures (id in Toggle(s, id)) <==> id !in s
    ensures x != id ==> multiset(Toggle(s, id))[x] == multiset(s)[x]
    ensures x != id ==> (x in Toggle(s, id) <==> x in s)
  {
    if x != id {
      assert x in Toggle(s, id) <==> multiset(Toggle(s, id))[x] > 0;
      assert x in s <==> multiset(s)[x] > 0;
    }
  }

  /** Toggling an absent id twice gives back the list. */
  lemma ToggleTwiceRestoresAbsent(s: seq<JsValue>, id: JsValue)
    requires id !in s
    ensures Toggle(Toggle(s, id), id) == s
  {
    WithoutAppend(s, [id], id);
    WithoutAbsent(s, id);
    assert Without([id], id) == Without([id][1..], id);
    assert [id][1..] == [];
  }

  /** Toggling a present id twice is not the identity: it drops the
      duplicates of the id and moves it to the end. */
  lemma ToggleTwiceMovesPresent(s: seq<JsValue>, id: JsValue)
    requires id in s
    ensures Toggle(Toggle(s, id), id) == Without(s, id) + [id]
  {
  }

  /** A list without duplicates stays without duplicates. */
  lemma ToggleKeepsDistinct(s: seq<JsValue>, id: JsValue)
    requires forall x :: multiset(s)[x] <= 1
    ensures forall x :: multiset(Toggle(s, id))[x] <= 1
  {
    forall x ensures multiset(Toggle(s, id))[x] <= 1 {
      ToggleFlipsOnlyTheToggledId(s, id, x);
    }
  }

  /** The edit form's toggle
      `f.category_ids?.includes(id) ? f.category_ids.filter(x => x !== id)
       : [...(f.category_ids || []), id]`, None standing for a list that is
      undefined or null. */
  function FormToggle(ids: Option<seq<JsValue>>, id: JsValue): (r: seq<JsValue>)
    ensures ids.None? ==> r == [id]
  {
    if ids.Some? && id in ids.value then Without(ids.value, id)
    else ids.GetOr([]) + [id]
  }

  /** The form's toggle is the filter bar's toggle, with a missing list read
      as the empty one. */
  lemma FormToggleIsToggle(ids: Option<seq<JsValue>>, id: JsValue)
    ensures FormToggle(ids, id) == Toggle(ids.GetOr([]), id)
  {
  }

  // ================================================================ editor

  /** The edit form. `categoryIds` is None when the list is missing. */
  datatype RecipeForm = RecipeForm(title: JsValue, description: JsValue, categoryIds: Option<seq<JsValue>>,
                                   imageFile: JsValue, imageUrl: JsValue)

  /** The form of a new recipe. */
  const EmptyForm: RecipeForm := RecipeForm(Str(""), Str(""), Some([]), Null, Str(""))

  const SignInToAdd: string := "Sign in to add recipes."
  const OwnRecipesOnly: string := "You can only edit your own recipes."
  const SignInToSave: string := "Sign in to save."
  const SignInToDelete: string := "Sign in to delete."

  /** `r.user_id && r.user_id !== user?.id`: the recipe belongs to someone
      else. A recipe without an owner belongs to nobody and may be edited. */
  predicate OwnedByOther(r: JsValue, user: JsValue) {
    Truthy(Get(r, "user_id")) && Get(r, "user_id") != Get(user, "id")
  }

  /** The list `r.category_ids || []` as the form holds it. */
  function CategoryList(v: JsValue): (r: Option<seq<JsValue>>)
    ensures !Truthy(v) ==> r == Some([])
    ensures v.Arr? ==> r == Some(v.items)
  {
    var ids := Or(v, Arr([]));
    if ids.Arr? then Some(ids.items) else None
  }

  /** The form `startEdit` fills from a recipe: its texts or "", its
      categories, no file. */
  function FormOf(r: JsValue): (f: RecipeForm)
    ensures f.imageFile == Null
    ensures f.title == Or(Get(r, "title"), Str("")) && f.description == Or(Get(r, "description"), Str(""))
    ensures f.imageUrl == Or(Get(r, "image_url"), Str(""))
    ensures f.categoryIds == CategoryList(Get(r, "category_ids"))
  {
    RecipeForm(Or(Get(r, "title"), Str("")), Or(Get(r, "description"), Str("")),
               CategoryList(Get(r, "category_ids")), Null, Or(Get(r, "image_url"), Str("")))
  }

  /** What `handleSave` upserts. */
  datatype RecipePayload = RecipePayload(id: JsValue, userId: JsValue, title: JsValue, description: JsValue,
                                         imageUrl: JsValue, categoryIds: Option<seq<JsValue>>)

  /** The payload for the edited recipe (`editing || undefined`: no id for a
      new one), owned by the signed-in user, with the form's contents and
      the image URL. */
  function SavePayload(editing: JsValue, user: JsValue, form: RecipeForm, imageUrl: JsValue): (p: RecipePayload)
    ensures !Truthy(editing) ==> p.id == Undefined
    ensures Truthy(editing) ==> p.id == editing
    ensures p.userId == Get(user, "id")
    ensures p.title == form.title && p.description == form.description
    ensures p.categoryIds == form.categoryIds && p.imageUrl == imageUrl
  {
    RecipePayload(Or(editing, Undefined), Get(user, "id"), form.title, form.description, imageUrl,
                  form.categoryIds)
  }

  /** The page's editing state. `editing` is the id of the recipe being
      edited, null for none. */
  class RecipesEditor {
    var selectedCats: seq<JsValue>
    var editing: JsValue
    var form: RecipeForm
    var err: string

    /** The page as it mounts. */
    constructor ()
      ensures selectedCats == [] && editing == Null && form == EmptyForm && err == ""
    {
      selectedCats := [];
      editing := Null;
      form := EmptyForm;
      err := "";
    }

    /** `toggleCategory(catId)` in the filter bar. */
    method ToggleCategory(catId: JsValue)
      modifies this
      ensures selectedCats == Toggle(old(selectedCats), catId)
      ensures editing == old(editing) && form == old(form) && err == old(err)
    {
      selectedCats := Toggle(selectedCats, catId);
    }

    /** `startAdd()`: refused without a user, otherwise a fresh form. */
    method StartAdd(user: JsValue)
      modifies this
      ensures !Truthy(user) ==> err == SignInToAdd && editing == old(editing) && form == old(form)
      ensures Truthy(user) ==> err == "" && editing == Null && form == EmptyForm
      ensures selectedCats == old(selectedCats)
    {
      if !Truthy(user) {
        err := SignInToAdd;
        return;
      }
      err := "";
      editing := Null;
      form := EmptyForm;
    }

    /** `startEdit(r)`: nothing for no recipe; refused with a message for a
      recipe owned by someone else, leaving what is being edited as it was;
      otherwise the recipe's id and form. */
    method StartEdit(r: JsValue, user: JsValue)
      modifies this
      ensures !Truthy(r) ==> editing == old(editing) && form == old(form) && err == old(err)
      ensures Truthy(r) && OwnedByOther(r, user) ==>
                err == OwnRecipesOnly && editing == old(editing) && form == old(form)
      ensures Truthy(r) && !OwnedByOther(r, user) ==>
                editing == Get(r, "id") && form == FormOf(r) && err == old(err)
      ensures selectedCats == old(selectedCats)
    {
      if !Truthy(r) {
        return;
      }
      if OwnedByOther(r, user) {
        err := OwnRecipesOnly;
        return;
      }
      editing := Get(r, "id");
      form := FormOf(r);
    }

    /** A category button of the edit form. */
    method ToggleFormCategory(catId: JsValue)
      modifies this
      ensures form == old(form).(categoryIds := Some(FormToggle(old(form).categoryIds, catId)))
      ensures selectedCats == old(selectedCats) && editing == old(editing) && err == old(err)
    {
      form := form.(categoryIds := Some(FormToggle(form.categoryIds, catId)));
    }

    /** The Cancel button. */
    method Cancel()
      modifies this
      ensures editing == Null && form == EmptyForm
      ensures selectedCats == old(selectedCats) && err == old(err)
    {
      editing := Null;
      form := EmptyForm;
    }

    /** `handleSave()`, given the URL the upload answers, the message of a
      failed upload or upsert, and the message the reload leaves (it
      catches its own errors). Returns the payload sent, if any. When the
      form has a file, the upload comes first and its URL is saved;
      otherwise the form's URL. */
    method HandleSave(user: JsValue, uploadedUrl: JsValue, uploadFailure: Option<string>,
                      upsertFailure: Option<string>, reloadError: Option<string>)
      returns (sent: Option<RecipePayload>)
      modifies this
      ensures !Truthy(user) ==> sent.None? && err == SignInToSave && editing == old(editing)
      ensures Truthy(user) && Truthy(old(form).imageFile) && uploadFailure.Some? ==>
                sent.None? && err == uploadFailure.value && editing == old(editing)
      ensures Truthy(user) && !(Truthy(old(form).imageFile) && uploadFailure.Some?) ==>
                sent == Some(SavePayload(old(editing), user, old(form),
                                         if Truthy(old(form).imageFile) then uploadedUrl else old(form).imageUrl))
      ensures sent.Some? && upsertFailure.Some? ==> err == upsertFailure.value && editing == old(editing)
      ensures sent.Some? && upsertFailure.None? ==> err == reloadError.GetOr("") && editing == Null
      ensures form == old(form) && selectedCats == old(selectedCats)
    {
      if !Truthy(user) {
        err := SignInToSave;
        return None;
      }
      err := "";
      var imageUrl := form.imageUrl;
      if Truthy(form.imageFile) {
        if uploadFailure.Some? {
          err := uploadFailure.value;
          return None;
        }
        imageUrl := uploadedUrl;
      }
      var payload := SavePayload(editing, user, form, imageUrl);
      sent := Some(payload);
      if upsertFailure.Some? {
        err := upsertFailure.value;
        return;
      }
      err := reloadError.GetOr("");
      editing := Null;
    }

    /** `handleDelete(id)`'s guard: refused without a user. Returns whether
      the delete is asked for. */
    method HandleDelete(user: JsValue) returns (proceeds: bool)
      modifies this
      ensures proceeds <==> Truthy(user)
      ensures !proceeds ==> err == SignInToDelete
      ensures proceeds ==> err == old(err)
      ensures selectedCats == old(selectedCats) && editing == old(editing) && form == old(form)
    {
      if !Truthy(user) {
        err := SignInToDelete;
        return false;
      }
      return true;
    }
  }

  /** A recipe without an owner can be edited by anybody, and a signed-in
      user can always edit their own. */
  lemma OwnershipGuard(r: JsValue, user: JsValue)
    ensures !Truthy(Get(r, "user_id")) ==> !OwnedByOther(r, user)
    ensures Get(r, "user_id") == Get(user, "id") ==> !OwnedByOther(r, user)
  {
  }

  /** A save of a new recipe sends no id, so the upsert inserts; a save of
      an edited one sends its id. */
  lemma NewRecipesHaveNoId(user: JsValue, form: RecipeForm, imageUrl: JsValue, id: JsValue)
    requires Truthy(id)
    ensures SavePayload(Null, user, form, imageUrl).id == Undefined
    ensures SavePayload(id, user, form, imageUrl).id == id
  {
  }
}
