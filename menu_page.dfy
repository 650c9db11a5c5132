/** The public menu of app/menu/page.tsx: which items each category section
    lists, which sections appear, and when the empty-menu message shows. The
    fetched categories and items are parameters. */
module MenuPage {
  import Sequences
  import opened DbRows

  /** `getItemsByCategory(categoryId)`: the available items of that category, in
      the order they were received. */
  function ItemsByCategory(items: seq<MenuItem>, categoryId: int): (r: seq<MenuItem>)
    ensures forall i :: 0 <= i < |r| ==> r[i] in items && r[i].categoryId == categoryId && r[i].isAvailable
    ensures forall i :: 0 <= i < |items| && items[i].categoryId == categoryId && items[i].isAvailable ==> items[i] in r
  {
    Sequences.Filter(items, (m: MenuItem) => m.categoryId == categoryId && m.isAvailable)
  }

  /** The items of a category keep the order in which they were received. */
  lemma ItemsByCategoryKeepsOrder(a: seq<MenuItem>, b: seq<MenuItem>, categoryId: int)
    ensures ItemsByCategory(a + b, categoryId) == ItemsByCategory(a, categoryId) + ItemsByCategory(b, categoryId)
  {
    Sequences.FilterAppend(a, b, (m: MenuItem) => m.categoryId == categoryId && m.isAvailable);
  }

  /** One rendered category section: the category's header and its items. */
  datatype Section = Section(category: Category, items: seq<MenuItem>)

  /** What the page's main area shows. */
  datatype MenuView = NoMenuItemsMessage | SectionList(sections: seq<Section>)

  /** The sections `categories.map` renders, one per category that has an
      available item, in the order the categories were received. */
  function Sections(categories: seq<Category>, items: seq<MenuItem>): (r: seq<Section>)
    ensures |r| <= |categories|
    ensures forall i :: 0 <= i < |r| ==> && r[i].category in categories
                                         && r[i].items == ItemsByCategory(items, r[i].category.id)
                                         && r[i].items != []
    decreases |categories|
  {
    if categories == [] then []
    else
      var rest := Sections(categories[1..], items);
      assert forall i :: 0 < i < |categories| ==> categories[i] == categories[1..][i - 1];
      var here := ItemsByCategory(items, categories[0].id);
      if here == [] then rest
      else
        [Section(categories[0], here)] + rest
  }

  /** The categories the sections belong to, in section order. */
  function SectionCategories(sections: seq<Section>): (r: seq<Category>)
    ensures |r| == |sections|
    ensures forall i :: 0 <= i < |r| ==> r[i] == sections[i].category
  {
    if sections == [] then [] else [sections[0].category] + SectionCategories(sections[1..])
  }

  /** The sections follow the order of the categories as received: they are
      exactly the categories with an available item. */
  lemma {:induction false} SectionsInCategoryOrder(categories: seq<Category>, items: seq<MenuItem>)
    ensures SectionCategories(Sections(categories, items))
         == Sequences.Filter(categories, (c: Category) => ItemsByCategory(items, c.id) != [])
    decreases |categories|
  {
    if categories != [] {
      SectionsInCategoryOrder(categories[1..], items);
      var here := ItemsByCategory(items, categories[0].id);
      if here != [] {
        var s := Sections(categories, items);
        assert s[1..] == Sections(categories[1..], items);
      }
    }
  }

  /** The page: the "No menu items available" message when no category was
      received, the sections otherwise. */
  function View(categories: seq<Category>, items: seq<MenuItem>): (v: MenuView)
    ensures v.NoMenuItemsMessage? <==> categories == []
  {
    if categories == [] then NoMenuItemsMessage else SectionList(Sections(categories, items))
  }

  /** Categories without a single available item show neither the message nor
      any section. */
  lemma NothingAvailableShowsBlankMenu(categories: seq<Category>, items: seq<MenuItem>)
    requires categories != []
    requires forall i :: 0 <= i < |items| ==> !items[i].isAvailable
    ensures View(categories, items) == SectionList([])
  {
    var hasItems := (c: Category) => ItemsByCategory(items, c.id) != [];
    forall c: Category ensures !hasItems(c) {
      Sequences.FilterNoneKept(items, (m: MenuItem) => m.categoryId == c.id && m.isAvailable);
    }
    Sequences.FilterNoneKept(categories, hasItems);
    SectionsInCategoryOrder(categories, items);
  }

  /** Every rendered item is available and belongs to a received category: an
      unavailable item, or one whose category was not received, never shows. */
  lemma RenderedItemsAreListed(categories: seq<Category>, items: seq<MenuItem>, s: Section, m: MenuItem)
    requires View(categories, items).SectionList? && s in View(categories, items).sections && m in s.items
    ensures m in items && m.isAvailable
    ensures exists c :: c in categories && c.id == m.categoryId
  {
    var k :| 0 <= k < |s.items| && s.items[k] == m;
  }

  /** Every available item of a received category shows, in that category's
      section. */
  lemma AvailableItemsAreRendered(categories: seq<Category>, items: seq<MenuItem>, c: Category, m: MenuItem)
    requires c in categories && m in items && m.isAvailable && m.categoryId == c.id
    ensures exists s :: s in View(categories, items).sections && s.category == c && m in s.items
  {
    var i :| 0 <= i < |categories| && categories[i] == c;
    var k :| 0 <= k < |items| && items[k] == m;
    assert m in ItemsByCategory(items, c.id);
    var r := Sections(categories, items);
    SectionsInCategoryOrder(categories, items);
    var shown := SectionCategories(r);
    assert c in shown;
    var j :| 0 <= j < |shown| && shown[j] == c;
    assert r[j] in r;
  }
}
