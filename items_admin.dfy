/** The menu-item editor of app/rates-admin/items/page.tsx: the form it fills
    when adding or editing an item, the tag list it edits, the preset-tag
    picker, the category label of an item card, the submit guard and the
    request body it sends. */
module ItemsAdmin {
  import opened Wrappers
  import Text
  import Sequences
  import opened DbRows

  /** The tags offered by the picker, in the order it offers them. */
  const PresetTags: seq<string> :=
    ["Popular", "Chef's Choice", "New", "Spicy", "Vegetarian", "Vegan", "Gluten Free"]

  /** The dialog's `formData`: every number is held as the text of its input. */
  datatype ItemForm = ItemForm(
    name: string, description: string, price: string, imageUrl: Option<string>,
    categoryId: string, tags: seq<string>, isAvailable: bool)

  // ---------------------------------------------------------------------------
  // Tags

  /** `handleAddTag`: a non-empty tag that is not yet selected goes to the end. */
  function WithTag(tags: seq<string>, tag: string): (r: seq<string>)
    ensures forall t :: t in r <==> t in tags || (t == tag && tag != "")
    ensures |r| == if tag != "" && tag !in tags then |tags| + 1 else |tags|
    ensures r[..|tags|] == tags
  {
    if tag != "" && tag !in tags then tags + [tag] else tags
  }

  /** `handleRemoveTag`: every occurrence of `tag` is dropped. */
  function WithoutTag(tags: seq<string>, tag: string): (r: seq<string>)
    ensures tag !in r
    ensures forall t :: t != tag ==> (t in r <==> t in tags)
  {
    Sequences.Filter(tags, t => t != tag)
  }

  /** Adding a tag a second time changes nothing. */
  lemma AddTagIdempotent(tags: seq<string>, tag: string)
    ensures WithTag(WithTag(tags, tag), tag) == WithTag(tags, tag)
  {
    assert tag != "" ==> tag in WithTag(tags, tag);
  }

  /** Removal keeps every other tag, as often as it occurred and in the same
      relative order: it is a filter that distributes over concatenation. */
  lemma RemoveTagKeepsOthers(a: seq<string>, b: seq<string>, tag: string)
    ensures WithoutTag(a + b, tag) == WithoutTag(a, tag) + WithoutTag(b, tag)
    ensures forall t :: t != tag ==> multiset(WithoutTag(a + b, tag))[t] == multiset(a + b)[t]
  {
    Sequences.FilterAppend(a, b, t => t != tag);
    forall t | t != tag
      ensures multiset(WithoutTag(a + b, tag))[t] == multiset(a + b)[t]
    {
      Sequences.FilterCount(a + b, t => t != tag, t);
    }
  }

  /** Removing a tag that is not selected changes nothing. */
  lemma RemoveAbsentTag(tags: seq<string>, tag: string)
    requires tag !in tags
    ensures WithoutTag(tags, tag) == tags
  {
    Sequences.FilterKeepsAll(tags, t => t != tag);
  }

  /** A tag list without repeats keeps none under adding and removing. */
  lemma TagsStayDistinct(tags: seq<string>, tag: string)
    requires Sequences.NoDuplicates(tags)
    ensures Sequences.NoDuplicates(WithTag(tags, tag))
    ensures Sequences.NoDuplicates(WithoutTag(tags, tag))
  {
    Sequences.FilterNoDuplicates(tags, t => t != tag);
  }

  /** The picker: the preset tags not yet selected, in preset order. */
  function PresetChoices(tags: seq<string>): (r: seq<string>)
    ensures forall t :: t in r <==> t in PresetTags && t !in tags
    ensures Sequences.OrderedIn(r, PresetTags)
  {
    assert Sequences.NoDuplicates(PresetTags);
    Sequences.FilterKeepsOrder(PresetTags, t => t !in tags);
    Sequences.Filter(PresetTags, t => t !in tags)
  }

  /** Every preset tag the picker offers and the form then adds disappears from
      the picker, and nothing else does. */
  lemma PickedTagLeavesPicker(tags: seq<string>, tag: string)
    requires tag in PresetChoices(tags)
    ensures forall t :: t in PresetChoices(WithTag(tags, tag)) <==> t in PresetChoices(tags) && t != tag
  {
  }

  // ---------------------------------------------------------------------------
  // Category labels

  /** `categories.find(c => c.id === id)`: the first category with that id. */
  function FindCategory(categories: seq<Category>, id: int): (r: Option<Category>)
    ensures r.None? <==> forall i :: 0 <= i < |categories| ==> categories[i].id != id
    ensures r.Some? ==> exists i :: 0 <= i < |categories| && categories[i] == r.value
                                   && r.value.id == id
                                   && forall j :: 0 <= j < i ==> categories[j].id != id
  {
    if categories == [] then None
    else if categories[0].id == id then Some(categories[0])
    else
      var r := FindCategory(categories[1..], id);
      assert forall i :: 0 < i < |categories| ==> categories[1..][i - 1] == categories[i];
      r
  }

  /** `getCategoryName`: the first matching category's name, or "Unknown" when
      no category matches or its name is empty. */
  function CategoryName(categories: seq<Category>, id: int): (r: string)
    ensures r != ""
    ensures (forall i :: 0 <= i < |categories| ==> categories[i].id != id) ==> r == "Unknown"
    ensures r != "Unknown" ==> exists i :: 0 <= i < |categories| && categories[i].id == id && categories[i].name == r
    ensures var found := FindCategory(categories, id);
      && (found.Some? && found.value.name != "" ==> r == found.value.name)
      && (found.None? || found.value.name == "" ==> r == "Unknown")
  {
    match FindCategory(categories, id)
    case None => "Unknown"
    case Some(c) => if c.name != "" then c.name else "Unknown"
  }

  // ---------------------------------------------------------------------------
  // Form defaults, submit guard and request body

  /** The form `handleOpenAdd` shows: empty, available, and set to the first
      listed category when there is one. */
  function AddForm(categories: seq<Category>): (f: ItemForm)
    ensures f.name == "" && f.description == "" && f.price == "" && f.imageUrl == None
    ensures f.tags == [] && f.isAvailable
    ensures f.categoryId == "" <==> categories == []
    ensures categories != [] ==> Text.Parse(f.categoryId) == Some(categories[0].id)
  {
    if categories == [] then ItemForm("", "", "", None, "", [], true)
    else
      Text.ParseRender(categories[0].id);
      ItemForm("", "", "", None, Text.Render(categories[0].id), [], true)
  }

  /** The form `handleOpenEdit` shows for a stored item. */
  function EditForm(item: MenuItem): (f: ItemForm)
    ensures Text.Parse(f.price) == Some(item.price) && Text.Parse(f.categoryId) == Some(item.categoryId)
    ensures f.description == "" <==> item.description.None? || item.description == Some("")
    ensures f.tags == item.tags && f.imageUrl == item.imageUrl
    ensures f.name == item.name && f.isAvailable == item.isAvailable && f.description == item.description.GetOr("")
  {
    Text.ParseRender(item.price);
    Text.ParseRender(item.categoryId);
    ItemForm(item.name, item.description.GetOr(""), Text.Render(item.price), item.imageUrl,
             Text.Render(item.categoryId), item.tags, item.isAvailable)
  }

  /** Whether `handleSubmit` goes ahead: a name that is not blank, a category
      and a price. */
  function CanSubmit(f: ItemForm): (ok: bool)
    ensures ok <==> && (exists i :: 0 <= i < |f.name| && !Text.IsWhitespace(f.name[i]))
                    && f.categoryId != "" && f.price != ""
  {
    Text.TrimBlank(f.name);
    Text.Trim(f.name) != "" && f.categoryId != "" && f.price != ""
  }

  /** The submit button is disabled exactly when submitting would do nothing, or
      while a save is running. */
  function SubmitDisabled(f: ItemForm, saving: bool): (disabled: bool)
    ensures !disabled <==> CanSubmit(f) && !saving
  {
    Text.Trim(f.name) == "" || f.categoryId == "" || f.price == "" || saving
  }

  /** `itemData`, the request body; an unparsable number is `NaN`, which the
      request's JSON carries as null. */
  function Payload(f: ItemForm): (p: MenuItemPatch)
    ensures p.name == Some(f.name) && p.description == Some(f.description) && p.imageUrl == f.imageUrl
    ensures p.tags == Some(f.tags) && p.isAvailable == Some(f.isAvailable) && p.sortOrder == None
    ensures p.price == Text.Parse(f.price) && p.categoryId == Text.Parse(f.categoryId)
  {
    MenuItemPatch(Text.Parse(f.categoryId), Some(f.name), Some(f.description), Text.Parse(f.price),
                  f.imageUrl, Some(f.tags), Some(f.isAvailable), None)
  }

  /** Saving the edit form of an item without touching it leaves the stored row
      as it was. */
  lemma ResaveIsNoOp(item: MenuItem)
    ensures PatchMenuItem(item, Payload(EditForm(item))) == item
  {
    Text.ParseRender(item.price);
    Text.ParseRender(item.categoryId);
  }

  /** What the editor does with an accepted form: create an item, or update the
      one being edited. */
  datatype Request = Create(body: MenuItemPatch) | Update(id: int, body: MenuItemPatch)

  /** `handleSubmit`: nothing when the guard fails, otherwise the request. */
  function SubmitRequest(f: ItemForm, editing: Option<MenuItem>): (r: Option<Request>)
    ensures r.Some? <==> CanSubmit(f)
    ensures r.Some? ==> r.value.body == Payload(f)
    ensures r.Some? ==> (r.value.Update? <==> editing.Some?)
    ensures r.Some? && editing.Some? ==> r.value.id == editing.value.id
  {
    if !CanSubmit(f) then None
    else if editing.Some? then Some(Update(editing.value.id, Payload(f)))
    else Some(Create(Payload(f)))
  }

  // ---------------------------------------------------------------------------
  // The page state the handlers change

  class ItemsPage {
    var categories: seq<Category>
    var formData: ItemForm
    var editingItem: Option<MenuItem>
    var dialogOpen: bool

    constructor ()
      ensures categories == [] && formData == ItemForm("", "", "", None, "", [], true)
      ensures editingItem == None && !dialogOpen
    {
      categories := [];
      formData := ItemForm("", "", "", None, "", [], true);
      editingItem := None;
      dialogOpen := false;
    }

    /** The "Add Item" button is disabled while there are no categories: exactly
        when the add form could not preselect a category, so that form could never
        be submitted. */
    function AddDisabled(): (disabled: bool)
      reads this
      ensures disabled <==> AddForm(categories).categoryId == ""
      ensures disabled ==> forall editing :: SubmitRequest(AddForm(categories), editing).None?
    {
      categories == []
    }

    method OpenAdd()
      modifies this
      ensures formData == AddForm(categories) && editingItem == None && dialogOpen
      ensures categories == old(categories)
    {
      editingItem := None;
      formData := AddForm(categories);
      dialogOpen := true;
    }

    method OpenEdit(item: MenuItem)
      modifies this
      ensures formData == EditForm(item) && editingItem == Some(item) && dialogOpen
      ensures categories == old(categories)
    {
      editingItem := Some(item);
      formData := EditForm(item);
      dialogOpen := true;
    }

    method AddTag(tag: string)
      modifies this
      ensures formData == old(formData).(tags := WithTag(old(formData).tags, tag))
      ensures categories == old(categories) && editingItem == old(editingItem) && dialogOpen == old(dialogOpen)
    {
      if tag != "" && tag !in formData.tags {
        formData := formData.(tags := formData.tags + [tag]);
      }
    }

    method RemoveTag(tag: string)
      modifies this
      ensures formData == old(formData).(tags := WithoutTag(old(formData).tags, tag))
      ensures categories == old(categories) && editingItem == old(editingItem) && dialogOpen == old(dialogOpen)
    {
      formData := formData.(tags := WithoutTag(formData.tags, tag));
    }
  }
}
