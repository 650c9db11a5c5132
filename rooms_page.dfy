/** The public rates page of app/rooms/page.tsx: which rooms and services it
    shows, when the "No rooms available" message appears, and when the
    "Additional Services" section appears. The fetched lists are parameters. */
module RoomsPage {
  import opened Wrappers
  import Sequences
  import opened DbRows
  import ServicesAdmin

  /** The rooms listed: the available ones, in the order they were received. */
  function ShownRooms(rooms: seq<Room>): (r: seq<Room>)
    ensures forall i :: 0 <= i < |r| ==> r[i] in rooms && r[i].isAvailable
    ensures forall i :: 0 <= i < |rooms| && rooms[i].isAvailable ==> rooms[i] in r
  {
    Sequences.Filter(rooms, (room: Room) => room.isAvailable)
  }

  /** The services listed: the available ones, in the order they were received. */
  function ShownServices(services: seq<Service>): (r: seq<Service>)
    ensures forall i :: 0 <= i < |r| ==> r[i] in services && r[i].isAvailable
    ensures forall i :: 0 <= i < |services| && services[i].isAvailable ==> services[i] in r
  {
    Sequences.Filter(services, (s: Service) => s.isAvailable)
  }

  /** Both lists keep the order in which the rows were received. */
  lemma ShownListsKeepOrder(a: seq<Room>, b: seq<Room>, c: seq<Service>, d: seq<Service>)
    ensures ShownRooms(a + b) == ShownRooms(a) + ShownRooms(b)
    ensures ShownServices(c + d) == ShownServices(c) + ShownServices(d)
  {
    Sequences.FilterAppend(a, b, (room: Room) => room.isAvailable);
    Sequences.FilterAppend(c, d, (s: Service) => s.isAvailable);
  }

  /** The rooms section: the message when the fetched list is empty, the
      cards otherwise. */
  datatype RoomsSection = NoRoomsMessage | RoomCards(rooms: seq<Room>)

  function RoomsView(rooms: seq<Room>): (v: RoomsSection)
    ensures v.NoRoomsMessage? <==> rooms == []
    ensures v.RoomCards? ==> v.rooms == ShownRooms(rooms)
  {
    if rooms == [] then NoRoomsMessage else RoomCards(ShownRooms(rooms))
  }

  /** When rooms were received but none is available, the page shows neither
      the message nor a room. */
  lemma AllUnavailableShowsNothing(rooms: seq<Room>)
    requires rooms != []
    requires forall i :: 0 <= i < |rooms| ==> !rooms[i].isAvailable
    ensures RoomsView(rooms) == RoomCards([])
  {
    Sequences.FilterNoneKept(rooms, (room: Room) => room.isAvailable);
  }

  /** The "Additional Services" section, with the cards it lists, appears
      whenever any service was received, even when none is available. */
  function ServicesView(services: seq<Service>): (v: Option<seq<Service>>)
    ensures v.Some? <==> services != []
    ensures v.Some? ==> v.value == ShownServices(services)
  {
    if services == [] then None else Some(ShownServices(services))
  }

  /** A received list of only unavailable services still shows the section's
      heading, with no card under it. */
  lemma UnavailableServicesShowEmptySection(services: seq<Service>)
    requires services != []
    requires forall i :: 0 <= i < |services| ==> !services[i].isAvailable
    ensures ServicesView(services) == Some([])
  {
    Sequences.FilterNoneKept(services, (s: Service) => s.isAvailable);
  }

  /** A service card shows a price, the same "$" text as the editor's cards,
      exactly when the service has one. */
  function ServicePriceLabel(s: Service): (shown: Option<string>)
    ensures shown.Some? <==> s.price.Some?
  {
    ServicesAdmin.PriceLabel(s.price)
  }
}
