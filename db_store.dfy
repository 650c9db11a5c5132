/** The data accessor of lib/db.ts over an in-memory database: four tables,
    each a map from id to row, and the serial sequence that hands out each
    table's ids. Create, update and delete change the tables in place; the
    get, list and statistics queries are functions of the current tables. */
module Db {
  import opened Wrappers
  import opened DbRows
  import Ordering

  // ---------------------------------------------------------------------------
  // Listing a table: every row once, in key order

  /** The rows of `m` in ascending id order, each exactly once; `m` stores every row
      under its own id and all its ids lie in `[lo, hi)`. */
  function Rows<R>(m: map<int, R>, id: R -> int, lo: int, hi: int): (r: seq<R>)
    requires forall k :: k in m ==> id(m[k]) == k && lo <= k < hi
    ensures |r| == |m|
    ensures forall i :: 0 <= i < |r| ==> id(r[i]) in m && m[id(r[i])] == r[i]
    ensures forall k :: k in m ==> multiset(r)[m[k]] == 1
    decreases hi - lo
  {
    if lo >= hi then
      assert forall k :: k !in m.Keys;
      assert m == map[];
      []
    else if lo in m then
      var rest := m - {lo};
      var tail := Rows(rest, id, lo + 1, hi);
      RowsCons(m, rest, id, lo, tail);
      [m[lo]] + tail
    else
      Rows(m, id, lo + 1, hi)
  }

  /** One step of `Rows`: the row stored under `lo` followed by the rows of the
      other ids lists every row of `m` once. */
  lemma RowsCons<R>(m: map<int, R>, rest: map<int, R>, id: R -> int, lo: int, tail: seq<R>)
    requires forall k :: k in m ==> id(m[k]) == k
    requires lo in m && rest == m - {lo}
    requires |tail| == |rest|
    requires forall i :: 0 <= i < |tail| ==> id(tail[i]) in rest && rest[id(tail[i])] == tail[i]
    requires forall k :: k in rest ==> multiset(tail)[rest[k]] == 1
    ensures |[m[lo]] + tail| == |m|
    ensures forall i :: 0 <= i < |[m[lo]] + tail| ==> id(([m[lo]] + tail)[i]) in m && m[id(([m[lo]] + tail)[i])] == ([m[lo]] + tail)[i]
    ensures forall k :: k in m ==> multiset([m[lo]] + tail)[m[k]] == 1
  {
    assert rest.Keys == m.Keys - {lo};
    assert m[lo] !in multiset(tail) by {
      forall i | 0 <= i < |tail| ensures tail[i] != m[lo] {
        assert id(tail[i]) != lo;
      }
    }
    forall k | k in m ensures multiset([m[lo]] + tail)[m[k]] == 1 {
      if k != lo {
        assert rest[k] == m[k];
        assert m[k] != m[lo];
      }
    }
  }

  /** The rows of `m`, each exactly once, sorted ascending by `key`. */
  function Listing<R>(m: map<int, R>, id: R -> int, lo: int, hi: int, key: R -> Ordering.Key): (r: seq<R>)
    requires forall k :: k in m ==> id(m[k]) == k && lo <= k < hi
    ensures |r| == |m|
    ensures forall i :: 0 <= i < |r| ==> id(r[i]) in m && m[id(r[i])] == r[i]
    ensures forall k :: k in m ==> multiset(r)[m[k]] == 1
    ensures Ordering.SortedBy(r, key)
  {
    var rows := Rows(m, id, lo, hi);
    var r := Ordering.SortBy(rows, key);
    assert |r| == |multiset(r)| == |multiset(rows)| == |rows|;
    assert forall i :: 0 <= i < |r| ==> r[i] in multiset(rows);
    r
  }

  /** The available rows of `items` in category `categoryId`, under their own ids. */
  function AvailableIn(items: map<int, MenuItem>, categoryId: int): (r: map<int, MenuItem>)
    ensures forall id :: id in r <==> id in items && items[id].categoryId == categoryId && items[id].isAvailable
    ensures forall id :: id in r ==> r[id] == items[id]
  {
    map id | id in items && items[id].categoryId == categoryId && items[id].isAvailable :: items[id]
  }

  /** A menu item as `getMenuItems` returns it: the row with the name of its category
      attached by a left join (`None` when no category has its `category_id`). */
  datatype MenuItemWithCategory = MenuItemWithCategory(item: MenuItem, categoryName: Option<string>)

  /** The left join's `c.name`: the name of the category with that id, or null. */
  function JoinedName(categories: map<int, Category>, categoryId: int): Option<string> {
    if categoryId in categories then Some(categories[categoryId].name) else None
  }

  /** Each row paired with its joined category name, in the same order. */
  function WithCategoryNames(rows: seq<MenuItem>, categories: map<int, Category>): (r: seq<MenuItemWithCategory>)
    ensures |r| == |rows|
    ensures forall i :: 0 <= i < |r| ==> r[i] == MenuItemWithCategory(rows[i], JoinedName(categories, rows[i].categoryId))
  {
    if rows == [] then []
    else [MenuItemWithCategory(rows[0], JoinedName(categories, rows[0].categoryId))]
         + WithCategoryNames(rows[1..], categories)
  }

  /** The row counts `getDashboardStats` reports. */
  datatype Stats = Stats(categoriesCount: nat, itemsCount: nat, roomsCount: nat, servicesCount: nat)

  class Store {
    var categories: map<int, Category>
    var menuItems: map<int, MenuItem>
    var rooms: map<int, Room>
    var services: map<int, Service>
    // The next value of each table's id sequence; ids are never reused.
    var nextCategoryId: int
    var nextMenuItemId: int
    var nextRoomId: int
    var nextServiceId: int

    /** Every row is stored under its own id, and every id was issued by the table's sequence. */
    ghost predicate Valid()
      reads this
    {
      && 1 <= nextCategoryId && 1 <= nextMenuItemId && 1 <= nextRoomId && 1 <= nextServiceId
      && (forall id :: id in categories ==> categories[id].id == id && 1 <= id < nextCategoryId)
      && (forall id :: id in menuItems ==> menuItems[id].id == id && 1 <= id < nextMenuItemId)
      && (forall id :: id in rooms ==> rooms[id].id == id && 1 <= id < nextRoomId)
      && (forall id :: id in services ==> services[id].id == id && 1 <= id < nextServiceId)
    }

    constructor ()
      ensures Valid()
      ensures categories == map[] && menuItems == map[] && rooms == map[] && services == map[]
    {
      categories, menuItems, rooms, services := map[], map[], map[], map[];
      nextCategoryId, nextMenuItemId, nextRoomId, nextServiceId := 1, 1, 1, 1;
    }

    // -------------------------------------------------------------------------
    // Queries

    /** `getCategoryById`: the row with that id, or null. */
    function GetCategoryById(id: int): (r: Option<Category>)
      requires Valid()
      reads this
      ensures r.None? <==> id !in categories
      ensures r.Some? ==> r.value == categories[id] && r.value.id == id
    {
      if id in categories then Some(categories[id]) else None
    }

    /** `getRoomById`: the row with that id, or null. */
    function GetRoomById(id: int): (r: Option<Room>)
      requires Valid()
      reads this
      ensures r.None? <==> id !in rooms
      ensures r.Some? ==> r.value == rooms[id] && r.value.id == id
    {
      if id in rooms then Some(rooms[id]) else None
    }

    /** `getServiceById`: the row with that id, or null. */
    function GetServiceById(id: int): (r: Option<Service>)
      requires Valid()
      reads this
      ensures r.None? <==> id !in services
      ensures r.Some? ==> r.value == services[id] && r.value.id == id
    {
      if id in services then Some(services[id]) else None
    }

    /** `getMenuItemById`: the row with that id and its category's name, or null. */
    function GetMenuItemById(id: int): (r: Option<MenuItemWithCategory>)
      requires Valid()
      reads this
      ensures r.None? <==> id !in menuItems
      ensures r.Some? ==> r.value.item == menuItems[id] && r.value.item.id == id
      ensures r.Some? ==> r.value.categoryName == JoinedName(categories, r.value.item.categoryId)
    {
      if id in menuItems then Some(MenuItemWithCategory(menuItems[id], JoinedName(categories, menuItems[id].categoryId)))
      else None
    }

    /** `getCategories`: every category once, ascending by (sort_order, name). */
    function ListCategories(): (r: seq<Category>)
      requires Valid()
      reads this
      ensures |r| == |categories|
      ensures forall i :: 0 <= i < |r| ==> r[i].id in categories && categories[r[i].id] == r[i]
      ensures forall id :: id in categories ==> multiset(r)[categories[id]] == 1
      ensures Ordering.SortedBy(r, CategoryKey)
    {
      Listing(categories, (x: Category) => x.id, 1, nextCategoryId, CategoryKey)
    }

    /** The menu items once each, ascending by (sort_order, name). */
    function ListMenuItemRows(): (r: seq<MenuItem>)
      requires Valid()
      reads this
      ensures |r| == |menuItems|
      ensures forall i :: 0 <= i < |r| ==> r[i].id in menuItems && menuItems[r[i].id] == r[i]
      ensures forall id :: id in menuItems ==> multiset(r)[menuItems[id]] == 1
      ensures Ordering.SortedBy(r, MenuItemKey)
    {
      Listing(menuItems, (x: MenuItem) => x.id, 1, nextMenuItemId, MenuItemKey)
    }

    /** `getMenuItems`: every menu item once, ascending by (sort_order, name), each with
        the name of its category or null when no category matches. */
    function GetMenuItems(): (r: seq<MenuItemWithCategory>)
      requires Valid()
      reads this
      ensures |r| == |menuItems|
      ensures forall i :: 0 <= i < |r| ==> r[i].item == ListMenuItemRows()[i]
      ensures forall i :: 0 <= i < |r| ==>
        (r[i].categoryName.Some? <==> r[i].item.categoryId in categories)
      ensures forall i :: 0 <= i < |r| && r[i].categoryName.Some? ==>
        r[i].categoryName.value == categories[r[i].item.categoryId].name
    {
      WithCategoryNames(ListMenuItemRows(), categories)
    }

    /** `getMenuItemsByCategory`: exactly the available items of that category, each once,
        ascending by (sort_order, name). */
    function GetMenuItemsByCategory(categoryId: int): (r: seq<MenuItem>)
      requires Valid()
      reads this
      ensures forall i :: 0 <= i < |r| ==>
        r[i].id in menuItems && menuItems[r[i].id] == r[i] && r[i].categoryId == categoryId && r[i].isAvailable
      ensures forall id :: id in menuItems && menuItems[id].categoryId == categoryId && menuItems[id].isAvailable ==>
        multiset(r)[menuItems[id]] == 1
      ensures Ordering.SortedBy(r, MenuItemKey)
    {
      Listing(AvailableIn(menuItems, categoryId), (x: MenuItem) => x.id, 1, nextMenuItemId, MenuItemKey)
    }

    /** `getRooms`: every room once, ascending by (sort_order, price_per_night). */
    function ListRooms(): (r: seq<Room>)
      requires Valid()
      reads this
      ensures |r| == |rooms|
      ensures forall i :: 0 <= i < |r| ==> r[i].id in rooms && rooms[r[i].id] == r[i]
      ensures forall id :: id in rooms ==> multiset(r)[rooms[id]] == 1
      ensures Ordering.SortedBy(r, RoomKey)
    {
      Listing(rooms, (x: Room) => x.id, 1, nextRoomId, RoomKey)
    }

    /** `getServices`: every service once, ascending by (sort_order, name). */
    function ListServices(): (r: seq<Service>)
      requires Valid()
      reads this
      ensures |r| == |services|
      ensures forall i :: 0 <= i < |r| ==> r[i].id in services && services[r[i].id] == r[i]
      ensures forall id :: id in services ==> multiset(r)[services[id]] == 1
      ensures Ordering.SortedBy(r, ServiceKey)
    {
      Listing(services, (x: Service) => x.id, 1, nextServiceId, ServiceKey)
    }

    /** `getDashboardStats`: each count agrees with the length of the table's listing. */
    function DashboardStats(): (r: Stats)
      requires Valid()
      reads this
      ensures r.categoriesCount == |ListCategories()| && r.itemsCount == |GetMenuItems()|
      ensures r.roomsCount == |ListRooms()| && r.servicesCount == |ListServices()|
    {
      Stats(|categories|, |menuItems|, |rooms|, |services|)
    }

    // -------------------------------------------------------------------------
    // Categories

    /** `createCategory`: inserts the row with defaults under a fresh id. */
    method CreateCategory(data: NewCategory) returns (row: Category)
      requires Valid()
      modifies this
      ensures Valid()
      ensures row == InsertCategory(row.id, data) && row.id !in old(categories)
      ensures categories == old(categories)[row.id := row]
      ensures GetCategoryById(row.id) == Some(row)
      ensures menuItems == old(menuItems) && rooms == old(rooms) && services == old(services)
    {
      row := InsertCategory(nextCategoryId, data);
      categories := categories[nextCategoryId := row];
      nextCategoryId := nextCategoryId + 1;
    }

    /** `updateCategory`: patches the row with that id, or returns null and changes nothing. */
    method UpdateCategory(id: int, patch: CategoryPatch) returns (r: Option<Category>)
      requires Valid()
      modifies this
      ensures Valid()
      ensures r.Some? <==> id in old(categories)
      ensures r.Some? ==> r.value == PatchCategory(old(categories)[id], patch)
      ensures categories == if r.Some? then old(categories)[id := r.value] else old(categories)
      ensures menuItems == old(menuItems) && rooms == old(rooms) && services == old(services)
    {
      if id in categories {
        var row := PatchCategory(categories[id], patch);
        categories := categories[id := row];
        r := Some(row);
      } else {
        r := None;
      }
    }

    /** `deleteCategory`: removes the row with that id and reports whether there was one. */
    method DeleteCategory(id: int) returns (existed: bool)
      requires Valid()
      modifies this
      ensures Valid()
      ensures existed <==> id in old(categories)
      ensures categories == old(categories) - {id}
      ensures GetCategoryById(id) == None
      ensures menuItems == old(menuItems) && rooms == old(rooms) && services == old(services)
    {
      existed := id in categories;
      categories := categories - {id};
    }

    // -------------------------------------------------------------------------
    // Menu items

    /** `createMenuItem`: inserts the row with defaults under a fresh id. */
    method CreateMenuItem(data: NewMenuItem) returns (row: MenuItem)
      requires Valid()
      modifies this
      ensures Valid()
      ensures row == InsertMenuItem(row.id, data) && row.id !in old(menuItems)
      ensures menuItems == old(menuItems)[row.id := row]
      ensures GetMenuItemById(row.id) == Some(MenuItemWithCategory(row, JoinedName(categories, row.categoryId)))
      ensures categories == old(categories) && rooms == old(rooms) && services == old(services)
    {
      row := InsertMenuItem(nextMenuItemId, data);
      menuItems := menuItems[nextMenuItemId := row];
      nextMenuItemId := nextMenuItemId + 1;
    }

    /** `updateMenuItem`: patches the row with that id, or returns null and changes nothing. */
    method UpdateMenuItem(id: int, patch: MenuItemPatch) returns (r: Option<MenuItem>)
      requires Valid()
      modifies this
      ensures Valid()
      ensures r.Some? <==> id in old(menuItems)
      ensures r.Some? ==> r.value == PatchMenuItem(old(menuItems)[id], patch)
      ensures menuItems == if r.Some? then old(menuItems)[id := r.value] else old(menuItems)
      ensures categories == old(categories) && rooms == old(rooms) && services == old(services)
    {
      if id in menuItems {
        var row := PatchMenuItem(menuItems[id], patch);
        menuItems := menuItems[id := row];
        r := Some(row);
      } else {
        r := None;
      }
    }

    /** `deleteMenuItem`: removes the row with that id and reports whether there was one. */
    method DeleteMenuItem(id: int) returns (existed: bool)
      requires Valid()
      modifies this
      ensures Valid()
      ensures existed <==> id in old(menuItems)
      ensures menuItems == old(menuItems) - {id}
      ensures GetMenuItemById(id) == None
      ensures categories == old(categories) && rooms == old(rooms) && services == old(services)
    {
      existed := id in menuItems;
      menuItems := menuItems - {id};
    }

    // -------------------------------------------------------------------------
    // Rooms

    /** `createRoom`: inserts the row with defaults under a fresh id. */
    method CreateRoom(data: NewRoom) returns (row: Room)
      requires Valid()
      modifies this
      ensures Valid()
      ensures row == InsertRoom(row.id, data) && row.id !in old(rooms)
      ensures rooms == old(rooms)[row.id := row]
      ensures GetRoomById(row.id) == Some(row)
      ensures categories == old(categories) && menuItems == old(menuItems) && services == old(services)
    {
      row := InsertRoom(nextRoomId, data);
      rooms := rooms[nextRoomId := row];
      nextRoomId := nextRoomId + 1;
    }

    /** `updateRoom`: patches the row with that id, or returns null and changes nothing. */
    method UpdateRoom(id: int, patch: RoomPatch) returns (r: Option<Room>)
      requires Valid()
      modifies this
      ensures Valid()
      ensures r.Some? <==> id in old(rooms)
      ensures r.Some? ==> r.value == PatchRoom(old(rooms)[id], patch)
      ensures rooms == if r.Some? then old(rooms)[id := r.value] else old(rooms)
      ensures categories == old(categories) && menuItems == old(menuItems) && services == old(services)
    {
      if id in rooms {
        var row := PatchRoom(rooms[id], patch);
        rooms := rooms[id := row];
        r := Some(row);
      } else {
        r := None;
      }
    }

    /** `deleteRoom`: removes the row with that id and reports whether there was one. */
    method DeleteRoom(id: int) returns (existed: bool)
      requires Valid()
      modifies this
      ensures Valid()
      ensures existed <==> id in old(rooms)
      ensures rooms == old(rooms) - {id}
      ensures GetRoomById(id) == None
      ensures categories == old(categories) && menuItems == old(menuItems) && services == old(services)
    {
      existed := id in rooms;
      rooms := rooms - {id};
    }

    // -------------------------------------------------------------------------
    // Services

    /** `createService`: inserts the row with defaults under a fresh id. */
    method CreateService(data: NewService) returns (row: Service)
      requires Valid()
      modifies this
      ensures Valid()
      ensures row == InsertService(row.id, data) && row.id !in old(services)
      ensures services == old(services)[row.id := row]
      ensures GetServiceById(row.id) == Some(row)
      ensures categories == old(categories) && menuItems == old(menuItems) && rooms == old(rooms)
    {
      row := InsertService(nextServiceId, data);
      services := services[nextServiceId := row];
      nextServiceId := nextServiceId + 1;
    }

    /** `updateService`: patches the row with that id, or returns null and changes nothing. */
    method UpdateService(id: int, patch: ServicePatch) returns (r: Option<Service>)
      requires Valid()
      modifies this
      ensures Valid()
      ensures r.Some? <==> id in old(services)
      ensures r.Some? ==> r.value == PatchService(old(services)[id], patch)
      ensures services == if r.Some? then old(services)[id := r.value] else old(services)
      ensures categories == old(categories) && menuItems == old(menuItems) && rooms == old(rooms)
    {
      if id in services {
        var row := PatchService(services[id], patch);
        services := services[id := row];
        r := Some(row);
      } else {
        r := None;
      }
    }

    /** `deleteService`: removes the row with that id and reports whether there was one. */
    method DeleteService(id: int) returns (existed: bool)
      requires Valid()
      modifies this
      ensures Valid()
      ensures existed <==> id in old(services)
      ensures services == old(services) - {id}
      ensures GetServiceById(id) == None
      ensures categories == old(categories) && menuItems == old(menuItems) && rooms == old(rooms)
    {
      existed := id in services;
      services := services - {id};
    }
  }
}
