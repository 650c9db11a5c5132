/** The service editor of app/rates-admin/services/page.tsx: the form it fills
    when adding or editing a service, how the price text maps to the price in
    the request (empty text is no price), the submit guard, and when a card
    shows a price. */
module ServicesAdmin {
  import opened Wrappers
  import Text
  import opened DbRows

  /** The dialog's `formData`; the price is the text of its input. */
  datatype ServiceForm = ServiceForm(name: string, description: string, price: string, isAvailable: bool)

  /** The form `handleOpenAdd` shows (also the form's initial state). */
  const NewServiceForm := ServiceForm("", "", "", true)

  /** The price input's text for a stored price: empty for a complimentary
      service. A price of 0 gives "0", which is not empty. */
  function PriceText(price: Option<int>): (t: string)
    ensures t == "" <==> price.None?
  {
    match price
    case None => ""
    case Some(p) => Text.Render(p)
  }

  /** The price `serviceData` sends for the input's text: none for empty text,
      otherwise the parsed number (unparsable text is `NaN`, which the
      request's JSON carries as null). */
  function PriceValue(text: string): (price: Option<int>)
    ensures text == "" ==> price.None?
  {
    if text == "" then None else Text.Parse(text)
  }

  /** The price survives the trip through the form: no price gives empty text
      and back no price, a price gives its text and back the same price. */
  lemma PriceRoundTrip(price: Option<int>)
    ensures PriceValue(PriceText(price)) == price
  {
    if price.Some? {
      Text.ParseRender(price.value);
    }
  }

  /** The form `handleOpenEdit` shows for a stored service. */
  function EditForm(s: Service): (f: ServiceForm)
    ensures PriceValue(f.price) == s.price
    ensures f.description == "" <==> s.description.None? || s.description == Some("")
    ensures f.name == s.name && f.isAvailable == s.isAvailable && f.description == s.description.GetOr("")
  {
    PriceRoundTrip(s.price);
    ServiceForm(s.name, s.description.GetOr(""), PriceText(s.price), s.isAvailable)
  }

  /** Whether `handleSubmit` goes ahead: only a name that is not blank is needed. */
  function CanSubmit(f: ServiceForm): (ok: bool)
    ensures ok <==> exists i :: 0 <= i < |f.name| && !Text.IsWhitespace(f.name[i])
  {
    Text.TrimBlank(f.name);
    Text.Trim(f.name) != ""
  }

  /** The submit button is disabled exactly when submitting would do nothing, or
      while a save is running. */
  function SubmitDisabled(f: ServiceForm, saving: bool): (disabled: bool)
    ensures !disabled <==> CanSubmit(f) && !saving
  {
    Text.Trim(f.name) == "" || saving
  }

  /** `serviceData`, the request body. */
  function Payload(f: ServiceForm): (p: ServicePatch)
    ensures p.name == Some(f.name) && p.description == Some(f.description)
    ensures p.price == PriceValue(f.price)
    ensures f.price == "" ==> p.price.None?
    ensures forall n :: f.price == PriceText(Some(n)) ==> p.price == Some(n)
    ensures p.isAvailable == Some(f.isAvailable) && p.sortOrder == None
  {
    assert forall n :: f.price == PriceText(Some(n)) ==> PriceValue(f.price) == Some(n) by {
      forall n | f.price == PriceText(Some(n)) ensures PriceValue(f.price) == Some(n) {
        PriceRoundTrip(Some(n));
      }
    }
    ServicePatch(Some(f.name), Some(f.description), PriceValue(f.price), Some(f.isAvailable), None)
  }

  /** Saving the edit form of a service without touching it leaves the stored
      row as it was, complimentary or not. */
  lemma ResaveIsNoOp(s: Service)
    ensures PatchService(s, Payload(EditForm(s))) == s
  {
    PriceRoundTrip(s.price);
  }

  /** Emptying the price of a priced service in the editor does not make it
      complimentary, although the input invites it: the empty text is sent as
      null and the update keeps the stored price. */
  lemma EmptiedPriceIsKept(s: Service, f: ServiceForm)
    requires s.price.Some? && f.price == ""
    ensures PatchService(s, Payload(f)).price == s.price
  {
  }

  /** A new service created from the form is complimentary exactly when the
      price was left empty or could not be read; the text of a price creates a
      service with that price. */
  lemma NewServicePrice(f: ServiceForm, id: int)
    ensures var price := InsertService(id, NewService(f.name, Some(f.description), Payload(f).price, Some(f.isAvailable), None)).price;
      && (price.None? <==> f.price == "" || Text.Parse(f.price).None?)
      && forall n :: f.price == Text.Render(n) ==> price == Some(n)
  {
    forall n | f.price == Text.Render(n) ensures Text.Parse(f.price) == Some(n) {
      Text.ParseRender(n);
    }
  }

  /** A card shows the price (as "$" and its whole-number text) exactly when
      there is one. */
  function PriceLabel(price: Option<int>): (shown: Option<string>)
    ensures shown.Some? <==> price.Some?
    ensures shown.Some? ==> |shown.value| > 1 && shown.value[0] == '$' && Text.Parse(shown.value[1..]) == price
  {
    match price
    case None => None
    case Some(p) =>
      Text.ParseRender(p);
      assert ("$" + Text.Render(p))[1..] == Text.Render(p);
      Some("$" + Text.Render(p))
  }

  /** What the editor does with an accepted form: create a service, or update
      the one being edited. */
  datatype Request = Create(body: ServicePatch) | Update(id: int, body: ServicePatch)

  /** `handleSubmit`: nothing when the guard fails, otherwise the request. */
  function SubmitRequest(f: ServiceForm, editing: Option<Service>): (r: Option<Request>)
    ensures r.Some? <==> CanSubmit(f)
    ensures r.Some? ==> r.value.body == Payload(f)
    ensures r.Some? ==> (r.value.Update? <==> editing.Some?)
    ensures r.Some? && editing.Some? ==> r.value.id == editing.value.id
  {
    if !CanSubmit(f) then None
    else if editing.Some? then Some(Update(editing.value.id, Payload(f)))
    else Some(Create(Payload(f)))
  }

  // ---------------------------------------------------------------------------
  // The page state the handlers change

  class ServicesPage {
    var formData: ServiceForm
    var editingService: Option<Service>
    var dialogOpen: bool

    constructor ()
      ensures formData == NewServiceForm && editingService == None && !dialogOpen
    {
      formData := NewServiceForm;
      editingService := None;
      dialogOpen := false;
    }

    method OpenAdd()
      modifies this
      ensures formData == NewServiceForm && editingService == None && dialogOpen
    {
      editingService := None;
      formData := NewServiceForm;
      dialogOpen := true;
    }

    method OpenEdit(s: Service)
      modifies this
      ensures formData == EditForm(s) && editingService == Some(s) && dialogOpen
    {
      editingService := Some(s);
      formData := EditForm(s);
      dialogOpen := true;
    }
  }
}
