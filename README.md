# ComfyInn rates: a Dafny model of the data accessor and the page logic

ComfyInn publishes its restaurant menu, room rates and extra services on a
small Next.js site with an admin area. This project models the parts of the
site whose behaviour can be stated exactly, and proves properties of them:

- **The data accessor** (`lib/db.ts`). It is modelled as a `Store` class that
  holds four tables (categories, menu items, rooms, services) as
  `map<int, Row>` fields, plus one id sequence per table. Each create, update
  and delete statement is a method that changes those maps. Each query is a
  function over them. The SQL's row-level rules are pure functions on rows
  (`DbRows.InsertX`, `DbRows.PatchX`):
  - the defaults an insert supplies (`|| null`, `|| 0`, `|| []`, `|| 2`,
    `!== false`, `?? null`);
  - how an update merges a partial request into a row with `COALESCE(new, old)`.
    A string field passes through `|| null`, so `""` keeps the old value.
    A number or boolean field passes through `?? null`, so `0` and `false`
    are written. An array field passes through `|| null`, so `[]` is written.
- **The Cloudinary public-id extractor** (`getPublicIdFromUrl`). The regular
  expression `/\/v\d+\/(.+)\.\w+$/` is stated as a predicate on match
  positions. The function searches for the leftmost match and is proved to
  return its capture.
- **The image upload widget.** This covers the type and size checks, the
  `error`/`uploading` state they drive, the remove button, and the rule that
  only the first file of a drop is taken.
- **The three admin editors.** For items, rooms and services this covers the
  tag and amenity list operations, the form defaults, the submit guards and
  the request bodies. It also connects them to the accessor: saving an
  untouched edit form leaves the stored row unchanged. Emptying a priced
  service's price does not make the service complimentary, although the price
  input's placeholder (app/rates-admin/services/page.tsx:268) says it would.
- **The public menu and rooms pages.** This covers the availability filters,
  the per-category sections, and the empty-state rules.

Numbers are unbounded integers. Prices go through the forms as the decimal
text of a whole number (`Text.Render` and `Text.Parse`), and reading the text
back gives the same number. Name collation in `ORDER BY ... name` is taken as
code-point lexicographic order (`Text.StringLe`), which is proved total,
antisymmetric and transitive. Every list order is one key,
`Ordering.Key(order, price, name)`, and every list is sorted by insertion sort
(`Ordering.SortBy`).

Files: `wrappers.dfy` (Option), `sequences.dfy` (order-preserving filter),
`text.dfy` (JavaScript whitespace and `trim`, decimal text, collation),
`ordering.dfy` (sort keys, sorting), `db_rows.dfy` and `db_store.dfy`
(`lib/db.ts`), `cloudinary.dfy`, `image_upload.dfy`, `items_admin.dfy`,
`rooms_admin.dfy`, `services_admin.dfy`, `menu_page.dfy`, `rooms_page.dfy`.

## Model

| member | source | states |
|---|---|---|
| DbRows.InsertCategory | lib/db.ts:68-73 | a missing or empty description or image URL is stored as null; sort order defaults to 0 |
| DbRows.InsertMenuItem | lib/db.ts:143-157 | missing or empty description and image URL become null; tags default to []; available unless explicitly false; sort order defaults to 0 |
| DbRows.InsertRoom | lib/db.ts:216-230 | capacity becomes 2 when missing or 0, otherwise kept; amenities default to []; available unless explicitly false; empty texts become null; sort order defaults to 0 |
| DbRows.InsertService | lib/db.ts:286-297 | a missing price stays null and a price of 0 is kept; available unless explicitly false; empty description becomes null |
| DbRows.PatchCategory | lib/db.ts:85-95 | each string field keeps its old value when the request's value is missing or empty; sort order is overwritten by any supplied number, 0 included; the id never changes |
| DbRows.PatchMenuItem | lib/db.ts:173-187 | string fields keep the old value on missing or empty; category, price, availability and sort order are overwritten by any supplied value (0 and false included); tags by any supplied array ([] included) |
| DbRows.PatchRoom | lib/db.ts:246-260 | string fields keep the old value on missing or empty; price, capacity, availability and sort order are overwritten by any supplied value; amenities by any supplied array |
| DbRows.PatchService | lib/db.ts:310-321 | string fields keep the old value on missing or empty; a supplied price overwrites, a missing or null one keeps the old price |
| DbRows.CategoryTextNeverCleared | lib/db.ts:88-90 | after any series of updates, a stored description or image is still present and the name is never blank: such text can only be replaced by non-empty text |
| DbRows.MenuItemTextNeverCleared | lib/db.ts:177-180 | the same for menu items: no series of updates clears a description or image or blanks the name |
| DbRows.RoomTextNeverCleared | lib/db.ts:249-252 | the same for rooms |
| DbRows.ServiceNeverCleared | lib/db.ts:313-315 | the same for services, and a priced service stays priced under any series of updates |
| DbRows.PatchIdempotent | lib/db.ts:85-95 | applying the same update request twice gives the same row as applying it once, for all four tables |
| DbRows.EmptyPatchIsNoOp | lib/db.ts:173-187 | a request whose fields are all missing or empty changes no row |
| Db.Rows | lib/db.ts:53 | the rows of a table as a sequence: as many as the table has, each row exactly once, each one stored under its own id |
| Db.RowsCons | lib/db.ts:53 | one step of the listing: a table's row under the lowest id, followed by every other row once, lists every row of the table once |
| Db.Listing | lib/db.ts:53 | a table's rows, each exactly once, sorted ascending by the table's key |
| Db.WithCategoryNames | lib/db.ts:105-110 | each menu item paired with the left-joined name of its category, in the same order |
| Db.Store.constructor | lib/db.ts:3 | a fresh store has four empty tables and satisfies the store invariant |
| Db.Store.GetCategoryById | lib/db.ts:57-60 | null exactly when no row has that id, otherwise the stored row itself |
| Db.Store.GetMenuItemById | lib/db.ts:123-131 | null exactly when no item has that id, otherwise the stored item itself and the name of its category, or null when no category matches |
| Db.Store.GetRoomById | lib/db.ts:201-204 | null exactly when no room has that id, otherwise the stored room itself |
| Db.Store.GetServiceById | lib/db.ts:274-277 | null exactly when no service has that id, otherwise the stored service itself |
| Db.Store.ListCategories | lib/db.ts:52-55 | every category exactly once, ascending by (sort_order, name) |
| Db.Store.ListMenuItemRows | lib/db.ts:104-110 | every menu item exactly once, ascending by (sort_order, name) |
| Db.Store.GetMenuItems | lib/db.ts:104-112 | the ordered item list, each with its category's name, which is null exactly when no category has the item's category id |
| Db.Store.GetMenuItemsByCategory | lib/db.ts:114-121 | exactly the available items of that category, each once, ascending by (sort_order, name) |
| Db.Store.ListRooms | lib/db.ts:196-199 | every room exactly once, ascending by (sort_order, price_per_night) |
| Db.Store.ListServices | lib/db.ts:269-272 | every service exactly once, ascending by (sort_order, name) |
| Db.Store.DashboardStats | lib/db.ts:330-343 | each count equals the number of rows the table's listing returns |
| Db.Store.CreateCategory | lib/db.ts:62-74 | the new row is the insert defaults under a fresh id; the table gains exactly that row; get-by-id finds it; other tables are unchanged |
| Db.Store.UpdateCategory | lib/db.ts:76-96 | returns the patched row exactly when the id existed; only that row changes; an absent id returns null and changes nothing |
| Db.Store.DeleteCategory | lib/db.ts:98-101 | returns true exactly when the row existed; afterwards the table lacks only that id and get-by-id returns null; other tables are unchanged |
| Db.Store.CreateMenuItem | lib/db.ts:133-158 | as for categories, with the menu-item defaults |
| Db.Store.UpdateMenuItem | lib/db.ts:160-188 | as for categories, with the menu-item merge rules |
| Db.Store.DeleteMenuItem | lib/db.ts:190-193 | as for categories |
| Db.Store.CreateRoom | lib/db.ts:206-231 | as for categories, with the room defaults |
| Db.Store.UpdateRoom | lib/db.ts:233-261 | as for categories, with the room merge rules |
| Db.Store.DeleteRoom | lib/db.ts:263-266 | as for categories |
| Db.Store.CreateService | lib/db.ts:279-298 | as for categories, with the service defaults |
| Db.Store.UpdateService | lib/db.ts:300-322 | as for categories, with the service merge rules |
| Db.Store.DeleteService | lib/db.ts:324-327 | as for categories |
| Ordering.SortBy | lib/db.ts:53 | the result is a permutation of the input and sorted by the key |
| Ordering.SortedCons | lib/db.ts:53 | a row whose key is at most every key of a sorted list stays sorted when put in front of it |
| Ordering.KeyLeTotal | lib/db.ts:197 | any two sort keys are comparable |
| Ordering.KeyLeTransitive | lib/db.ts:197 | the key order is transitive |
| Text.StringLeTotal | lib/db.ts:109 | name collation compares any two names |
| Text.StringLeAntisymmetric | lib/db.ts:109 | names that collate both ways are equal |
| Text.StringLeTransitive | lib/db.ts:109 | name collation is transitive |
| Cloudinary.DigitRunEnd | lib/cloudinary.ts:46 | the end of the maximal digit run that `\d+` must take |
| Cloudinary.WordRunStart | lib/cloudinary.ts:46 | the start of the maximal trailing run of word characters |
| Cloudinary.ExtensionDot | lib/cloudinary.ts:46 | the only dot `\.\w+$` can match: followed to the end by at least one word character |
| Cloudinary.MatchDigits | lib/cloudinary.ts:46 | every match ends its digits where the digit run ends |
| Cloudinary.MatchDot | lib/cloudinary.ts:46 | every match uses the extension dot |
| Cloudinary.CandidateIsMatch | lib/cloudinary.ts:46 | the one-pass test at a start position holds exactly when the expression matches from there |
| Cloudinary.FirstMatch | lib/cloudinary.ts:46 | the match found starts at or after the given position and no match starts between the two |
| Cloudinary.GetPublicIdFromUrl | lib/cloudinary.ts:44-51 | null exactly when the expression matches nowhere; otherwise the capture of a match with no match further left; total, so it never throws |
| Cloudinary.MatchShape | lib/cloudinary.ts:46-47 | what any single match captures: non-empty text without a line break, followed to the end of the URL by a dot and a non-empty run of word characters |
| Cloudinary.PublicIdShape | lib/cloudinary.ts:46-47 | a result is non-empty, has no line break, and the URL ends with the result, a dot and a non-empty run of word characters |
| Cloudinary.NoVersionNoId | lib/cloudinary.ts:46-47 | without a `/v<digits>/` segment the result is null |
| Cloudinary.NoExtensionNoId | lib/cloudinary.ts:46-47 | without a trailing dot and word characters (for example after a query string) the result is null |
| Cloudinary.CapturedByLeftmostMatch | lib/cloudinary.ts:46-47 | the result is the capture of the leftmost match, folder path kept and extension stripped |
| Cloudinary.ExampleLeftmost | lib/cloudinary.ts:46-47 | `/v1/a/v2/b.png` gives `a/v2/b`: the leftmost version segment wins |
| Cloudinary.ExampleQueryString | lib/cloudinary.ts:46-47 | `/v1/a.jpg?w=800` gives null |
| ImageUpload.Validate | components/image-upload.tsx:31-41 | accepted exactly when the type starts with `image/` and the size is at most 5 MiB; a non-image gets the type message even when too large; an oversized image gets the size message |
| ImageUpload.FirstFile | components/image-upload.tsx:72-73 | none for an empty selection, otherwise the first file |
| ImageUpload.Widget.constructor | components/image-upload.tsx:24-25 | no error and no upload running |
| ImageUpload.Widget.StartUpload | components/image-upload.tsx:28-44 | a rejected file sets the error to its message and starts nothing; an accepted file clears the error and sets uploading; the value is untouched |
| ImageUpload.Widget.FinishUpload | components/image-upload.tsx:46-67 | uploading ends in every case; success passes the URL to the value; failure sets the retry message and keeps the value |
| ImageUpload.Widget.HandleUpload | components/image-upload.tsx:28-68 | a rejected file never reaches the value; an accepted one ends with uploading false and the value or error set by the outcome |
| ImageUpload.Widget.HandleFiles | components/image-upload.tsx:70-74 | only the first dropped or chosen file is handled; an empty selection changes nothing |
| ImageUpload.Widget.Remove | components/image-upload.tsx:104 | the value becomes null; nothing else changes |
| ItemsAdmin.WithTag | app/rates-admin/items/page.tsx:117-121 | a non-empty, unselected tag is appended; otherwise the list is unchanged; membership grows by that tag only |
| ItemsAdmin.WithoutTag | app/rates-admin/items/page.tsx:123-125 | the tag no longer occurs and every other tag's membership is unchanged |
| ItemsAdmin.AddTagIdempotent | app/rates-admin/items/page.tsx:118 | adding a tag twice gives the same list as adding it once |
| ItemsAdmin.RemoveTagKeepsOthers | app/rates-admin/items/page.tsx:124 | removal keeps every other tag with its number of occurrences and in the same relative order |
| ItemsAdmin.RemoveAbsentTag | app/rates-admin/items/page.tsx:124 | removing a tag that is not selected changes nothing |
| ItemsAdmin.TagsStayDistinct | app/rates-admin/items/page.tsx:117-125 | a tag list without repeats keeps none under adding and removing |
| ItemsAdmin.PresetChoices | app/rates-admin/items/page.tsx:373 | the picker offers exactly the preset tags not yet selected, in the order of the preset list |
| Sequences.FilterKeepsOrder | app/rates-admin/items/page.tsx:373 | a filter over a list without repeats keeps what it keeps in the list's order |
| ItemsAdmin.PickedTagLeavesPicker | app/rates-admin/items/page.tsx:373 | adding an offered tag removes it, and only it, from the picker |
| ItemsAdmin.FindCategory | app/rates-admin/items/page.tsx:189 | none exactly when no category has the id, otherwise the first category with that id |
| ItemsAdmin.CategoryName | app/rates-admin/items/page.tsx:188-190 | the name of the first category with that id when it is non-empty, otherwise "Unknown"; never empty; any label other than "Unknown" is the name of a category with that id |
| ItemsAdmin.AddForm | app/rates-admin/items/page.tsx:84-96 | an empty, available form; the category field is empty exactly when there are no categories and otherwise reads back as the first category's id |
| ItemsAdmin.EditForm | app/rates-admin/items/page.tsx:98-110 | price and category text read back as the item's numbers; name, availability, tags and image carried over; the description field holds the item's description, empty exactly when it has none |
| ItemsAdmin.CanSubmit | app/rates-admin/items/page.tsx:129 | submit goes ahead exactly when the name has a non-whitespace character and the category and price fields are non-empty |
| ItemsAdmin.SubmitDisabled | app/rates-admin/items/page.tsx:394 | the button is enabled exactly when submit would go ahead and no save is running |
| ItemsAdmin.Payload | app/rates-admin/items/page.tsx:132-140 | the request carries the form's texts, tags and availability, the price and category id as read from their fields (null when unreadable), and no sort order |
| ItemsAdmin.ItemsPage.AddDisabled | app/rates-admin/items/page.tsx:208 | "Add Item" is disabled exactly when the add form could preselect no category, and such a form never yields a request |
| ItemsAdmin.ResaveIsNoOp | app/rates-admin/items/page.tsx:98-140 | saving an item's edit form untouched leaves the stored row unchanged |
| ItemsAdmin.SubmitRequest | app/rates-admin/items/page.tsx:127-158 | no request unless the guard holds; otherwise the form's body, sent as an update of the edited item or as a create |
| ItemsAdmin.ItemsPage.constructor | app/rates-admin/items/page.tsx:54-62 | the initial empty, available form with no item being edited |
| ItemsAdmin.ItemsPage.OpenAdd | app/rates-admin/items/page.tsx:84-96 | the form becomes the add form for the loaded categories; nothing is being edited; the dialog opens |
| ItemsAdmin.ItemsPage.OpenEdit | app/rates-admin/items/page.tsx:98-110 | the form becomes the item's edit form; that item is being edited; the dialog opens |
| ItemsAdmin.ItemsPage.AddTag | app/rates-admin/items/page.tsx:117-121 | only the form's tags change, to the tags with the tag added |
| ItemsAdmin.ItemsPage.RemoveTag | app/rates-admin/items/page.tsx:123-125 | only the form's tags change, to the tags without the tag |
| RoomsAdmin.Toggle | app/rates-admin/rooms/page.tsx:114-121 | the amenity's membership flips and no other amenity's membership changes |
| RoomsAdmin.ToggleAbsentAppends | app/rates-admin/rooms/page.tsx:119 | an unselected amenity is appended at the end |
| RoomsAdmin.TogglePresentRemoves | app/rates-admin/rooms/page.tsx:117-118 | a selected amenity is removed everywhere; every other amenity keeps its number of occurrences and order |
| RoomsAdmin.ToggleTwiceRestores | app/rates-admin/rooms/page.tsx:114-121 | toggling an unselected amenity twice restores the original list |
| RoomsAdmin.ToggleKeepsDistinct | app/rates-admin/rooms/page.tsx:114-121 | a list without repeats keeps none under toggling |
| RoomsAdmin.ShownAmenities | app/rates-admin/rooms/page.tsx:254 | a card lists a prefix of at most four amenities, all of them when there are at most four |
| RoomsAdmin.MoreCount | app/rates-admin/rooms/page.tsx:263-266 | the "+N more" note appears exactly when there are more than four amenities |
| RoomsAdmin.CardCountsEveryAmenity | app/rates-admin/rooms/page.tsx:252-268 | the listed amenities plus N are all the amenities; N is positive when shown |
| RoomsAdmin.EditForm | app/rates-admin/rooms/page.tsx:95-107 | price and capacity text read back as the room's numbers; name, availability, amenities and image carried over; the description field holds the room's description, empty exactly when it has none |
| RoomsAdmin.CanSubmit | app/rates-admin/rooms/page.tsx:125 | submit goes ahead exactly when the name has a non-whitespace character and the price is non-empty |
| RoomsAdmin.SubmitDisabled | app/rates-admin/rooms/page.tsx:380 | the button is enabled exactly when submit would go ahead and no save is running |
| RoomsAdmin.Payload | app/rates-admin/rooms/page.tsx:128-136 | the request carries the form's texts, amenities and availability, the price and capacity as read from their fields (null when unreadable), and no sort order |
| RoomsAdmin.NewRoomDefaults | app/rates-admin/rooms/page.tsx:81-93 | a new room is sent with capacity 2, no amenities and available, whatever name and price are typed |
| RoomsAdmin.ResaveIsNoOp | app/rates-admin/rooms/page.tsx:95-136 | saving a room's edit form untouched leaves the stored row unchanged |
| RoomsAdmin.SubmitRequest | app/rates-admin/rooms/page.tsx:123-155 | no request unless the guard holds; otherwise the form's body, sent as an update of the edited room or as a create |
| RoomsAdmin.RoomsPage.constructor | app/rates-admin/rooms/page.tsx:54-62 | the initial form is the new-room form |
| RoomsAdmin.RoomsPage.OpenAdd | app/rates-admin/rooms/page.tsx:81-93 | the form becomes the new-room form (capacity "2", no amenities, available); nothing is being edited |
| RoomsAdmin.RoomsPage.OpenEdit | app/rates-admin/rooms/page.tsx:95-107 | the form becomes the room's edit form; that room is being edited |
| RoomsAdmin.RoomsPage.ToggleAmenity | app/rates-admin/rooms/page.tsx:114-121 | only the form's amenities change, to the toggled list |
| ServicesAdmin.PriceText | app/rates-admin/services/page.tsx:82 | the price field is empty exactly when the service has no price (0 gives "0") |
| ServicesAdmin.PriceValue | app/rates-admin/services/page.tsx:101 | an empty price field sends a null price |
| ServicesAdmin.PriceRoundTrip | app/rates-admin/services/page.tsx:82-101 | no price gives an empty field and back no price; a price gives its text and back the same price |
| ServicesAdmin.EditForm | app/rates-admin/services/page.tsx:77-86 | the price field reads back as the service's price; name and availability carried over; the description field holds the service's description, empty exactly when it has none |
| ServicesAdmin.CanSubmit | app/rates-admin/services/page.tsx:95 | submit goes ahead exactly when the name has a non-whitespace character; nothing else is required |
| ServicesAdmin.SubmitDisabled | app/rates-admin/services/page.tsx:284 | the button is enabled exactly when submit would go ahead and no save is running |
| ServicesAdmin.Payload | app/rates-admin/services/page.tsx:98-103 | the request carries the form's texts and availability and no sort order; an empty price field sends no price, a number's text sends that number |
| ServicesAdmin.ResaveIsNoOp | app/rates-admin/services/page.tsx:77-103 | saving a service's edit form untouched leaves the stored row unchanged, priced or complimentary |
| ServicesAdmin.EmptiedPriceIsKept | app/rates-admin/services/page.tsx:268 | emptying a priced service's price field and saving keeps the stored price |
| ServicesAdmin.NewServicePrice | app/rates-admin/services/page.tsx:98-103 | a service created from the form is complimentary exactly when the price was left empty or is unreadable; a number's text creates it with that price |
| ServicesAdmin.PriceLabel | app/rates-admin/services/page.tsx:204-208 | a price is shown exactly when there is one, as "$" and text that reads back as the price |
| ServicesAdmin.SubmitRequest | app/rates-admin/services/page.tsx:93-122 | no request unless the guard holds; otherwise the form's body, sent as an update of the edited service or as a create |
| ServicesAdmin.ServicesPage.constructor | app/rates-admin/services/page.tsx:42-47 | the initial form is empty and available |
| ServicesAdmin.ServicesPage.OpenAdd | app/rates-admin/services/page.tsx:66-75 | the form becomes empty strings and available; nothing is being edited |
| ServicesAdmin.ServicesPage.OpenEdit | app/rates-admin/services/page.tsx:77-86 | the form becomes the service's edit form; that service is being edited |
| MenuPage.ItemsByCategory | app/menu/page.tsx:36-40 | exactly the available items of that category |
| MenuPage.ItemsByCategoryKeepsOrder | app/menu/page.tsx:36-40 | the selection preserves the order in which items were received |
| MenuPage.Sections | app/menu/page.tsx:82-84 | each section belongs to a received category and lists that category's available items, never none |
| MenuPage.SectionCategories | app/menu/page.tsx:82 | the categories of the sections, in section order |
| MenuPage.SectionsInCategoryOrder | app/menu/page.tsx:82-84 | the sections are exactly the categories with an available item, in the order received |
| MenuPage.View | app/menu/page.tsx:75-84 | "No menu items available" exactly when no category was received |
| MenuPage.NothingAvailableShowsBlankMenu | app/menu/page.tsx:75-84 | with categories but no available item, neither the message nor any section shows |
| MenuPage.RenderedItemsAreListed | app/menu/page.tsx:82-84 | a rendered item is available and belongs to a received category |
| MenuPage.AvailableItemsAreRendered | app/menu/page.tsx:82-84 | every available item of a received category is rendered in that category's section |
| RoomsPage.ShownRooms | app/rooms/page.tsx:80-82 | exactly the available rooms |
| RoomsPage.ShownServices | app/rooms/page.tsx:161-163 | exactly the available services |
| RoomsPage.ShownListsKeepOrder | app/rooms/page.tsx:80-82 | both lists keep the order received |
| RoomsPage.RoomsView | app/rooms/page.tsx:73-82 | "No rooms available" exactly when the fetched list is empty, otherwise the available rooms |
| RoomsPage.AllUnavailableShowsNothing | app/rooms/page.tsx:73-82 | rooms received but none available: neither the message nor a room |
| RoomsPage.ServicesView | app/rooms/page.tsx:155-163 | the services section appears exactly when any service was received, listing the available ones |
| RoomsPage.UnavailableServicesShowEmptySection | app/rooms/page.tsx:155-163 | only unavailable services still show the section, with no card |
| RoomsPage.ServicePriceLabel | app/rooms/page.tsx:174 | a service's price is shown exactly when it has one |
| Text.TrimBlank | app/rates-admin/items/page.tsx:129 | `trim()` gives the empty string exactly when every character is JavaScript whitespace |
| Text.ParseRender | app/rates-admin/items/page.tsx:103 | reading back the text of a whole number gives the number |

## Left out

- Database transport: the Neon client, SQL execution and `Promise.all` are not modelled. Each statement is its effect on in-memory tables.
- `created_at` is not modelled. Ids come from a per-table counter. This is one way to give "some fresh id not in the table", and ids are never reused.
- Db.Store.ListCategories: ties in `ORDER BY` are broken by id here. SQL leaves their order unspecified. Collation is code-point order, not the database's locale collation.
- Foreign keys and the category cascade delete are database constraints, so they are not modelled. A menu item may name a missing category; the left join then gives null.
- Conference halls are not part of this model; the accessor defines no functions for them.
- The API route handlers are not part of this model. The model treats a request body as passed unchanged to the accessor function.
- Cloudinary `uploadImage`/`deleteImage` and the `/api/upload` request are external. The request's outcome is a parameter of `ImageUpload.Widget.HandleUpload`.
- ImageUpload.Widget.HandleUpload: the asynchronous gap between starting and finishing an upload is not modelled. `StartUpload` and `FinishUpload` expose its two ends. The `folder` prop and drag-over handling are not modelled.
- Number parsing and formatting: `parseFloat`, `parseInt` and `toFixed` are modelled only on the text of whole decimal numbers (`Text.Parse`, `Text.Render`). Fractions, exponents, leading whitespace and prefix parsing (`parseFloat("12abc")`) are not modelled. Text that is not a whole number is treated as `NaN`, which the request's JSON sends as null.
- ItemsAdmin.Payload and RoomsAdmin.Payload model the update request body. A create request with an unreadable price (null in a NOT NULL column) is not modelled.
- Strings are sequences of Unicode scalar values, not UTF-16 code units. The regular expression and `trim` are stated over those characters.
- React rendering, toasts, dialogs, delete confirmation, fetching and the loading state are not modelled. Only the data that decides what is shown is modelled.
- Room facet filtering (room type, bed type, meal plan, price range) does not exist in the code, so it is not modelled.
- The categories admin page, the dashboard page, the layout and the home page have no logic beyond what is modelled elsewhere.
