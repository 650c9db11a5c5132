/** Rows and request bodies of the four tables of lib/db.ts, and the
    row-level meaning of its INSERT and UPDATE statements: which defaults an
    insert supplies and how an update's `COALESCE(new, old)` merges a partial
    request into a stored row. */
module DbRows {
  import opened Wrappers
  import Ordering

  // ---------------------------------------------------------------------------
  // Rows (the server-assigned `created_at` timestamp is not modelled)

  datatype Category = Category(
    id: int, name: string, description: Option<string>, imageUrl: Option<string>, sortOrder: int)

  datatype MenuItem = MenuItem(
    id: int, categoryId: int, name: string, description: Option<string>, price: int,
    imageUrl: Option<string>, tags: seq<string>, isAvailable: bool, sortOrder: int)

  datatype Room = Room(
    id: int, name: string, description: Option<string>, pricePerNight: int,
    imageUrl: Option<string>, capacity: int, amenities: seq<string>, isAvailable: bool, sortOrder: int)

  /** A service whose price is `None` is complimentary. */
  datatype Service = Service(
    id: int, name: string, description: Option<string>, price: Option<int>,
    isAvailable: bool, sortOrder: int)

  // ---------------------------------------------------------------------------
  // Request bodies; `None` is a field that is missing or null

  datatype NewCategory = NewCategory(
    name: string, description: Option<string>, imageUrl: Option<string>, sortOrder: Option<int>)

  datatype CategoryPatch = CategoryPatch(
    name: Option<string>, description: Option<string>, imageUrl: Option<string>, sortOrder: Option<int>)

  datatype NewMenuItem = NewMenuItem(
    categoryId: int, name: string, description: Option<string>, price: int,
    imageUrl: Option<string>, tags: Option<seq<string>>, isAvailable: Option<bool>, sortOrder: Option<int>)

  datatype MenuItemPatch = MenuItemPatch(
    categoryId: Option<int>, name: Option<string>, description: Option<string>, price: Option<int>,
    imageUrl: Option<string>, tags: Option<seq<string>>, isAvailable: Option<bool>, sortOrder: Option<int>)

  datatype NewRoom = NewRoom(
    name: string, description: Option<string>, pricePerNight: int, imageUrl: Option<string>,
    capacity: Option<int>, amenities: Option<seq<string>>, isAvailable: Option<bool>, sortOrder: Option<int>)

  datatype RoomPatch = RoomPatch(
    name: Option<string>, description: Option<string>, pricePerNight: Option<int>, imageUrl: Option<string>,
    capacity: Option<int>, amenities: Option<seq<string>>, isAvailable: Option<bool>, sortOrder: Option<int>)

  datatype NewService = NewService(
    name: string, description: Option<string>, price: Option<int>,
    isAvailable: Option<bool>, sortOrder: Option<int>)

  datatype ServicePatch = ServicePatch(
    name: Option<string>, description: Option<string>, price: Option<int>,
    isAvailable: Option<bool>, sortOrder: Option<int>)

  // ---------------------------------------------------------------------------
  // The JavaScript operators the statements apply to request fields

  /** `s || null` on a string field: the empty string is falsy and becomes null. */
  function TextOrNull(s: Option<string>): Option<string> {
    if s == Some("") then None else s
  }

  /** `n || fallback` on a number field: 0 is falsy and becomes the fallback. */
  function NumberOr(n: Option<int>, fallback: int): int {
    if n.Some? && n.value != 0 then n.value else fallback
  }

  /** `b !== false`: only an explicit false is false. */
  function NotFalse(b: Option<bool>): bool {
    b != Some(false)
  }

  /** SQL `COALESCE(first, second)` on a nullable column. */
  function Coalesce<T>(first: Option<T>, second: Option<T>): Option<T> {
    if first.Some? then first else second
  }

  // ---------------------------------------------------------------------------
  // INSERT: the row a create statement stores under the server-assigned `id`

  function InsertCategory(id: int, data: NewCategory): (r: Category)
    ensures r.id == id && r.name == data.name
    ensures r.description == (if data.description == Some("") then None else data.description)
    ensures r.imageUrl == (if data.imageUrl == Some("") then None else data.imageUrl)
    ensures r.sortOrder == (if data.sortOrder.Some? then data.sortOrder.value else 0)
  {
    Category(id, data.name, TextOrNull(data.description), TextOrNull(data.imageUrl),
             NumberOr(data.sortOrder, 0))
  }

  function InsertMenuItem(id: int, data: NewMenuItem): (r: MenuItem)
    ensures r.id == id && r.name == data.name && r.categoryId == data.categoryId && r.price == data.price
    ensures r.description == (if data.description == Some("") then None else data.description)
    ensures r.imageUrl == (if data.imageUrl == Some("") then None else data.imageUrl)
    ensures r.tags == (if data.tags.Some? then data.tags.value else [])
    ensures r.isAvailable <==> data.isAvailable != Some(false)
    ensures r.sortOrder == (if data.sortOrder.Some? then data.sortOrder.value else 0)
  {
    MenuItem(id, data.categoryId, data.name, TextOrNull(data.description), data.price,
             TextOrNull(data.imageUrl), data.tags.GetOr([]), NotFalse(data.isAvailable),
             NumberOr(data.sortOrder, 0))
  }

  function InsertRoom(id: int, data: NewRoom): (r: Room)
    ensures r.id == id && r.name == data.name && r.pricePerNight == data.pricePerNight
    ensures r.description == (if data.description == Some("") then None else data.description)
    ensures r.imageUrl == (if data.imageUrl == Some("") then None else data.imageUrl)
    ensures data.capacity == None || data.capacity == Some(0) ==> r.capacity == 2
    ensures data.capacity.Some? && data.capacity.value != 0 ==> r.capacity == data.capacity.value
    ensures r.amenities == (if data.amenities.Some? then data.amenities.value else [])
    ensures r.isAvailable <==> data.isAvailable != Some(false)
    ensures r.sortOrder == (if data.sortOrder.Some? then data.sortOrder.value else 0)
  {
    Room(id, data.name, TextOrNull(data.description), data.pricePerNight, TextOrNull(data.imageUrl),
         NumberOr(data.capacity, 2), data.amenities.GetOr([]), NotFalse(data.isAvailable),
         NumberOr(data.sortOrder, 0))
  }

  function InsertService(id: int, data: NewService): (r: Service)
    ensures r.id == id && r.name == data.name
    ensures r.description == (if data.description == Some("") then None else data.description)
    ensures r.price == data.price
    ensures r.isAvailable <==> data.isAvailable != Some(false)
    ensures r.sortOrder == (if data.sortOrder.Some? then data.sortOrder.value else 0)
  {
    Service(id, data.name, TextOrNull(data.description), data.price, NotFalse(data.isAvailable),
            NumberOr(data.sortOrder, 0))
  }

  // ---------------------------------------------------------------------------
  // UPDATE: `column = COALESCE(<request field>, column)` for every column.
  // String fields pass through `|| null`, so "" keeps the old value; number,
  // boolean and array fields are written whenever present, 0, false and [] included.

  function PatchCategory(row: Category, p: CategoryPatch): (r: Category)
    ensures r.id == row.id
    ensures r.name == (if p.name == None || p.name == Some("") then row.name else p.name.value)
    ensures r.description == (if p.description == None || p.description == Some("") then row.description else p.description)
    ensures r.imageUrl == (if p.imageUrl == None || p.imageUrl == Some("") then row.imageUrl else p.imageUrl)
    ensures r.sortOrder == (if p.sortOrder.Some? then p.sortOrder.value else row.sortOrder)
  {
    Category(row.id,
             TextOrNull(p.name).GetOr(row.name),
             Coalesce(TextOrNull(p.description), row.description),
             Coalesce(TextOrNull(p.imageUrl), row.imageUrl),
             p.sortOrder.GetOr(row.sortOrder))
  }

  function PatchMenuItem(row: MenuItem, p: MenuItemPatch): (r: MenuItem)
    ensures r.id == row.id
    ensures r.categoryId == (if p.categoryId.Some? then p.categoryId.value else row.categoryId)
    ensures r.name == (if p.name == None || p.name == Some("") then row.name else p.name.value)
    ensures r.description == (if p.description == None || p.description == Some("") then row.description else p.description)
    ensures r.price == (if p.price.Some? then p.price.value else row.price)
    ensures r.imageUrl == (if p.imageUrl == None || p.imageUrl == Some("") then row.imageUrl else p.imageUrl)
    ensures r.tags == (if p.tags.Some? then p.tags.value else row.tags)
    ensures r.isAvailable == (if p.isAvailable.Some? then p.isAvailable.value else row.isAvailable)
    ensures r.sortOrder == (if p.sortOrder.Some? then p.sortOrder.value else row.sortOrder)
  {
    MenuItem(row.id,
             p.categoryId.GetOr(row.categoryId),
             TextOrNull(p.name).GetOr(row.name),
             Coalesce(TextOrNull(p.description), row.description),
             p.price.GetOr(row.price),
             Coalesce(TextOrNull(p.imageUrl), row.imageUrl),
             p.tags.GetOr(row.tags),
             p.isAvailable.GetOr(row.isAvailable),
             p.sortOrder.GetOr(row.sortOrder))
  }

  function PatchRoom(row: Room, p: RoomPatch): (r: Room)
    ensures r.id == row.id
    ensures r.name == (if p.name == None || p.name == Some("") then row.name else p.name.value)
    ensures r.description == (if p.description == None || p.description == Some("") then row.description else p.description)
    ensures r.pricePerNight == (if p.pricePerNight.Some? then p.pricePerNight.value else row.pricePerNight)
    ensures r.imageUrl == (if p.imageUrl == None || p.imageUrl == Some("") then row.imageUrl else p.imageUrl)
    ensures r.capacity == (if p.capacity.Some? then p.capacity.value else row.capacity)
    ensures r.amenities == (if p.amenities.Some? then p.amenities.value else row.amenities)
    ensures r.isAvailable == (if p.isAvailable.Some? then p.isAvailable.value else row.isAvailable)
    ensures r.sortOrder == (if p.sortOrder.Some? then p.sortOrder.value else row.sortOrder)
  {
    Room(row.id,
         TextOrNull(p.name).GetOr(row.name),
         Coalesce(TextOrNull(p.description), row.description),
         p.pricePerNight.GetOr(row.pricePerNight),
         Coalesce(TextOrNull(p.imageUrl), row.imageUrl),
         p.capacity.GetOr(row.capacity),
         p.amenities.GetOr(row.amenities),
         p.isAvailable.GetOr(row.isAvailable),
         p.sortOrder.GetOr(row.sortOrder))
  }

  function PatchService(row: Service, p: ServicePatch): (r: Service)
    ensures r.id == row.id
    ensures r.name == (if p.name == None || p.name == Some("") then row.name else p.name.value)
    ensures r.description == (if p.description == None || p.description == Some("") then row.description else p.description)
    ensures r.price == (if p.price.Some? then p.price else row.price)
    ensures r.isAvailable == (if p.isAvailable.Some? then p.isAvailable.value else row.isAvailable)
    ensures r.sortOrder == (if p.sortOrder.Some? then p.sortOrder.value else row.sortOrder)
  {
    Service(row.id,
            TextOrNull(p.name).GetOr(row.name),
            Coalesce(TextOrNull(p.description), row.description),
            Coalesce(p.price, row.price),
            p.isAvailable.GetOr(row.isAvailable),
            p.sortOrder.GetOr(row.sortOrder))
  }

  // ---------------------------------------------------------------------------
  // Properties of repeated updates

  /** The row after a series of update requests, applied in order. */
  function PatchCategoryAll(row: Category, ps: seq<CategoryPatch>): Category
    decreases |ps|
  {
    if ps == [] then row else PatchCategoryAll(PatchCategory(row, ps[0]), ps[1..])
  }

  function PatchServiceAll(row: Service, ps: seq<ServicePatch>): Service
    decreases |ps|
  {
    if ps == [] then row else PatchServiceAll(PatchService(row, ps[0]), ps[1..])
  }

  function PatchMenuItemAll(row: MenuItem, ps: seq<MenuItemPatch>): MenuItem
    decreases |ps|
  {
    if ps == [] then row else PatchMenuItemAll(PatchMenuItem(row, ps[0]), ps[1..])
  }

  function PatchRoomAll(row: Room, ps: seq<RoomPatch>): Room
    decreases |ps|
  {
    if ps == [] then row else PatchRoomAll(PatchRoom(row, ps[0]), ps[1..])
  }

  /** No series of category updates can clear a description or an image, or blank the name:
      each of them only ever changes to a non-empty string. */
  lemma {:induction false} CategoryTextNeverCleared(row: Category, ps: seq<CategoryPatch>)
    decreases |ps|
    ensures var r := PatchCategoryAll(row, ps);
      && (row.description.Some? ==> r.description.Some?)
      && (row.imageUrl.Some? ==> r.imageUrl.Some?)
      && (r.description == row.description || (r.description.Some? && r.description.value != ""))
      && (r.imageUrl == row.imageUrl || (r.imageUrl.Some? && r.imageUrl.value != ""))
      && (r.name == row.name || r.name != "")
  {
    if ps != [] {
      CategoryTextNeverCleared(PatchCategory(row, ps[0]), ps[1..]);
    }
  }

  /** No series of menu-item updates can clear a description or an image, or blank the name. */
  lemma {:induction false} MenuItemTextNeverCleared(row: MenuItem, ps: seq<MenuItemPatch>)
    decreases |ps|
    ensures var r := PatchMenuItemAll(row, ps);
      && (row.description.Some? ==> r.description.Some?)
      && (row.imageUrl.Some? ==> r.imageUrl.Some?)
      && (r.description == row.description || (r.description.Some? && r.description.value != ""))
      && (r.imageUrl == row.imageUrl || (r.imageUrl.Some? && r.imageUrl.value != ""))
      && (r.name == row.name || r.name != "")
  {
    if ps != [] {
      MenuItemTextNeverCleared(PatchMenuItem(row, ps[0]), ps[1..]);
    }
  }

  /** No series of room updates can clear a description or an image, or blank the name. */
  lemma {:induction false} RoomTextNeverCleared(row: Room, ps: seq<RoomPatch>)
    decreases |ps|
    ensures var r := PatchRoomAll(row, ps);
      && (row.description.Some? ==> r.description.Some?)
      && (row.imageUrl.Some? ==> r.imageUrl.Some?)
      && (r.description == row.description || (r.description.Some? && r.description.value != ""))
      && (r.imageUrl == row.imageUrl || (r.imageUrl.Some? && r.imageUrl.value != ""))
      && (r.name == row.name || r.name != "")
  {
    if ps != [] {
      RoomTextNeverCleared(PatchRoom(row, ps[0]), ps[1..]);
    }
  }

  /** No series of service updates can clear a description or blank the name, and a priced
      service can never be made complimentary again. */
  lemma {:induction false} ServiceNeverCleared(row: Service, ps: seq<ServicePatch>)
    decreases |ps|
    ensures var r := PatchServiceAll(row, ps);
      && (row.description.Some? ==> r.description.Some?)
      && (r.description == row.description || (r.description.Some? && r.description.value != ""))
      && (r.name == row.name || r.name != "")
      && (row.price.Some? ==> r.price.Some?)
  {
    if ps != [] {
      ServiceNeverCleared(PatchService(row, ps[0]), ps[1..]);
    }
  }

  /** Sending the same update twice leaves the row as sending it once. */
  lemma PatchIdempotent(c: Category, cp: CategoryPatch, m: MenuItem, mp: MenuItemPatch,
                        r: Room, rp: RoomPatch, s: Service, sp: ServicePatch)
    ensures PatchCategory(PatchCategory(c, cp), cp) == PatchCategory(c, cp)
    ensures PatchMenuItem(PatchMenuItem(m, mp), mp) == PatchMenuItem(m, mp)
    ensures PatchRoom(PatchRoom(r, rp), rp) == PatchRoom(r, rp)
    ensures PatchService(PatchService(s, sp), sp) == PatchService(s, sp)
  {
  }

  /** A text field the request leaves out or sends empty: `|| null` turns both into null. */
  predicate Unset(s: Option<string>) {
    s == None || s == Some("")
  }

  /** Requests that carry no usable field: every text unset, every other field missing. */
  predicate BlankCategoryPatch(p: CategoryPatch) {
    Unset(p.name) && Unset(p.description) && Unset(p.imageUrl) && p.sortOrder.None?
  }

  predicate BlankMenuItemPatch(p: MenuItemPatch) {
    && p.categoryId.None? && Unset(p.name) && Unset(p.description) && p.price.None?
    && Unset(p.imageUrl) && p.tags.None? && p.isAvailable.None? && p.sortOrder.None?
  }

  predicate BlankRoomPatch(p: RoomPatch) {
    && Unset(p.name) && Unset(p.description) && p.pricePerNight.None? && Unset(p.imageUrl)
    && p.capacity.None? && p.amenities.None? && p.isAvailable.None? && p.sortOrder.None?
  }

  predicate BlankServicePatch(p: ServicePatch) {
    Unset(p.name) && Unset(p.description) && p.price.None? && p.isAvailable.None? && p.sortOrder.None?
  }

  /** Any request that carries no usable field leaves the row as it was. */
  lemma EmptyPatchIsNoOp(c: Category, cp: CategoryPatch, m: MenuItem, mp: MenuItemPatch,
                         r: Room, rp: RoomPatch, s: Service, sp: ServicePatch)
    ensures BlankCategoryPatch(cp) ==> PatchCategory(c, cp) == c
    ensures BlankMenuItemPatch(mp) ==> PatchMenuItem(m, mp) == m
    ensures BlankRoomPatch(rp) ==> PatchRoom(r, rp) == r
    ensures BlankServicePatch(sp) ==> PatchService(s, sp) == s
  {
  }

  // ---------------------------------------------------------------------------
  // List order keys

  /** `ORDER BY sort_order, name` */
  function CategoryKey(c: Category): Ordering.Key { Ordering.Key(c.sortOrder, 0, c.name) }

  /** `ORDER BY sort_order, name` */
  function MenuItemKey(m: MenuItem): Ordering.Key { Ordering.Key(m.sortOrder, 0, m.name) }

  /** `ORDER BY sort_order, price_per_night` */
  function RoomKey(r: Room): Ordering.Key { Ordering.Key(r.sortOrder, r.pricePerNight, "") }

  /** `ORDER BY sort_order, name` */
  function ServiceKey(s: Service): Ordering.Key { Ordering.Key(s.sortOrder, 0, s.name) }
}
