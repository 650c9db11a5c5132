/** The room editor of app/rates-admin/rooms/page.tsx: the amenity toggle, the
    form it fills when adding or editing a room, the submit guard, the request
    body, and how a room card shortens its amenity list. */
module RoomsAdmin {
  import opened Wrappers
  import Text
  import Sequences
  import opened DbRows

  /** The amenities the editor offers as toggle buttons. */
  const PresetAmenities: seq<string> :=
    ["High-Speed Wifi", "Breakfast", "TV", "Lunch", "Room Service", "Dinner", "Luxury Bedding"]

  /** The dialog's `formData`: every number is held as the text of its input. */
  datatype RoomForm = RoomForm(
    name: string, pricePerNight: string, description: string, imageUrl: Option<string>,
    capacity: string, amenities: seq<string>, isAvailable: bool)

  // ---------------------------------------------------------------------------
  // Amenities

  /** `handleToggleAmenity`: a selected amenity is dropped (every occurrence of
      it), any other is appended. Only that amenity changes membership. */
  function Toggle(amenities: seq<string>, amenity: string): (r: seq<string>)
    ensures amenity in r <==> amenity !in amenities
    ensures forall a :: a != amenity ==> (a in r <==> a in amenities)
  {
    if amenity in amenities then Sequences.Filter(amenities, a => a != amenity)
    else amenities + [amenity]
  }

  /** Toggling an amenity that is not selected appends it at the end. */
  lemma ToggleAbsentAppends(amenities: seq<string>, amenity: string)
    requires amenity !in amenities
    ensures Toggle(amenities, amenity) == amenities + [amenity]
  {
  }

  /** Toggling a selected amenity removes it and keeps every other amenity, as
      often as it occurred and in the same order. */
  lemma TogglePresentRemoves(amenities: seq<string>, amenity: string)
    requires amenity in amenities
    ensures Toggle(amenities, amenity) == Sequences.Filter(amenities, a => a != amenity)
    ensures forall a :: a != amenity ==> multiset(Toggle(amenities, amenity))[a] == multiset(amenities)[a]
  {
    forall a | a != amenity
      ensures multiset(Toggle(amenities, amenity))[a] == multiset(amenities)[a]
    {
      Sequences.FilterCount(amenities, b => b != amenity, a);
    }
  }

  /** Toggling an amenity that is not selected twice restores the list. */
  lemma ToggleTwiceRestores(amenities: seq<string>, amenity: string)
    requires amenity !in amenities
    ensures Toggle(Toggle(amenities, amenity), amenity) == amenities
  {
    var keep := (a: string) => a != amenity;
    Sequences.FilterAppend(amenities, [amenity], keep);
    Sequences.FilterKeepsAll(amenities, keep);
    assert Sequences.Filter([amenity], keep) == [];
  }

  /** A list without repeats keeps none under toggling. */
  lemma ToggleKeepsDistinct(amenities: seq<string>, amenity: string)
    requires Sequences.NoDuplicates(amenities)
    ensures Sequences.NoDuplicates(Toggle(amenities, amenity))
  {
    Sequences.FilterNoDuplicates(amenities, a => a != amenity);
  }

  // ---------------------------------------------------------------------------
  // The room card

  /** The amenities a card lists: the first four. */
  function ShownAmenities(amenities: seq<string>): (r: seq<string>)
    ensures |r| <= 4 && |r| <= |amenities|
    ensures r == amenities[..|r|]
    ensures |r| == 4 || r == amenities
  {
    if |amenities| > 4 then amenities[..4] else amenities
  }

  /** The "+N more" note after them, present only when some are not listed. */
  function MoreCount(amenities: seq<string>): (n: Option<nat>)
    ensures n.Some? <==> |amenities| > 4
  {
    if |amenities| > 4 then Some(|amenities| - 4) else None
  }

  /** The listed amenities and the count in the note account for every amenity
      exactly once. */
  lemma CardCountsEveryAmenity(amenities: seq<string>)
    ensures |ShownAmenities(amenities)| + MoreCount(amenities).GetOr(0) == |amenities|
    ensures MoreCount(amenities).Some? ==> MoreCount(amenities).value > 0
    ensures ShownAmenities(amenities) + amenities[|ShownAmenities(amenities)|..] == amenities
  {
  }

  // ---------------------------------------------------------------------------
  // Form defaults, submit guard and request body

  /** The form `handleOpenAdd` shows (also the form's initial state). */
  const NewRoomForm := RoomForm("", "", "", None, "2", [], true)

  /** The form `handleOpenEdit` shows for a stored room. */
  function EditForm(room: Room): (f: RoomForm)
    ensures Text.Parse(f.pricePerNight) == Some(room.pricePerNight) && Text.Parse(f.capacity) == Some(room.capacity)
    ensures f.description == "" <==> room.description.None? || room.description == Some("")
    ensures f.amenities == room.amenities && f.imageUrl == room.imageUrl
    ensures f.name == room.name && f.isAvailable == room.isAvailable && f.description == room.description.GetOr("")
  {
    Text.ParseRender(room.pricePerNight);
    Text.ParseRender(room.capacity);
    RoomForm(room.name, Text.Render(room.pricePerNight), room.description.GetOr(""), room.imageUrl,
             Text.Render(room.capacity), room.amenities, room.isAvailable)
  }

  /** Whether `handleSubmit` goes ahead: a name that is not blank and a price. */
  function CanSubmit(f: RoomForm): (ok: bool)
    ensures ok <==> (exists i :: 0 <= i < |f.name| && !Text.IsWhitespace(f.name[i])) && f.pricePerNight != ""
  {
    Text.TrimBlank(f.name);
    Text.Trim(f.name) != "" && f.pricePerNight != ""
  }

  /** The submit button is disabled exactly when submitting would do nothing, or
      while a save is running. */
  function SubmitDisabled(f: RoomForm, saving: bool): (disabled: bool)
    ensures !disabled <==> CanSubmit(f) && !saving
  {
    Text.Trim(f.name) == "" || f.pricePerNight == "" || saving
  }

  /** `roomData`, the request body; an unparsable number is `NaN`, which the
      request's JSON carries as null. */
  function Payload(f: RoomForm): (p: RoomPatch)
    ensures p.name == Some(f.name) && p.description == Some(f.description) && p.imageUrl == f.imageUrl
    ensures p.pricePerNight == Text.Parse(f.pricePerNight) && p.capacity == Text.Parse(f.capacity)
    ensures p.amenities == Some(f.amenities) && p.isAvailable == Some(f.isAvailable) && p.sortOrder == None
  {
    RoomPatch(Some(f.name), Some(f.description), Text.Parse(f.pricePerNight), f.imageUrl,
              Text.Parse(f.capacity), Some(f.amenities), Some(f.isAvailable), None)
  }

  /** A new room keeps the form's capacity of two and no amenities, and is
      available, whatever name and price are typed in. */
  lemma NewRoomDefaults(name: string, price: string)
    ensures var p := Payload(NewRoomForm.(name := name, pricePerNight := price));
      p.capacity == Some(2) && p.amenities == Some([]) && p.isAvailable == Some(true)
  {
    Text.ParseRender(2);
  }

  /** Saving the edit form of a room without touching it leaves the stored row
      as it was. */
  lemma ResaveIsNoOp(room: Room)
    ensures PatchRoom(room, Payload(EditForm(room))) == room
  {
    Text.ParseRender(room.pricePerNight);
    Text.ParseRender(room.capacity);
  }

  /** What the editor does with an accepted form: create a room, or update the
      one being edited. */
  datatype Request = Create(body: RoomPatch) | Update(id: int, body: RoomPatch)

  /** `handleSubmit`: nothing when the guard fails, otherwise the request. */
  function SubmitRequest(f: RoomForm, editing: Option<Room>): (r: Option<Request>)
    ensures r.Some? <==> CanSubmit(f)
    ensures r.Some? ==> r.value.body == Payload(f)
    ensures r.Some? ==> (r.value.Update? <==> editing.Some?)
    ensures r.Some? && editing.Some? ==> r.value.id == editing.value.id
  {
    if !CanSubmit(f) then None
    else if editing.Some? then Some(Update(editing.value.id, Payload(f)))
    else Some(Create(Payload(f)))
  }

  // ---------------------------------------------------------------------------
  // The page state the handlers change

  class RoomsPage {
    var formData: RoomForm
    var editingRoom: Option<Room>
    var dialogOpen: bool

    constructor ()
      ensures formData == NewRoomForm && editingRoom == None && !dialogOpen
    {
      formData := NewRoomForm;
      editingRoom := None;
      dialogOpen := false;
    }

    method OpenAdd()
      modifies this
      ensures formData == NewRoomForm && editingRoom == None && dialogOpen
    {
      editingRoom := None;
      formData := NewRoomForm;
      dialogOpen := true;
    }

    method OpenEdit(room: Room)
      modifies this
      ensures formData == EditForm(room) && editingRoom == Some(room) && dialogOpen
    {
      editingRoom := Some(room);
      formData := EditForm(room);
      dialogOpen := true;
    }

    method ToggleAmenity(amenity: string)
      modifies this
      ensures formData == old(formData).(amenities := Toggle(old(formData).amenities, amenity))
      ensures editingRoom == old(editingRoom) && dialogOpen == old(dialogOpen)
    {
      formData := formData.(amenities := Toggle(formData.amenities, amenity));
    }
  }
}
