/**
 * The booking modal: its form, the five handlers that move a room between
 * available, booked, occupied and cleaning through the single
 * `room.booking` record, and the status-gated sections that decide which
 * handler's button is shown. Each handler passes a partial update to the
 * dashboard's `handleUpdateRoom` and then closes the modal.
 */
module BookingModal {
  import opened Wrappers
  import opened Strings
  import opened RoomData
  import opened AppState

  /** The modal's action buttons, one per handler. */
  datatype Action = Book | CheckIn | CheckOut | Cleaned | Cancel

  /** Whether the modal shows the button of action `a` for `room`. */
  predicate Offered(room: Room, a: Action)
  {
    match a
    case Book => room.status == AVAILABLE
    case CheckIn => room.status == BOOKED && room.booking.Some?
    case Cancel => room.status == BOOKED && room.booking.Some?
    case CheckOut => room.status == OCCUPIED
    case Cleaned => room.status == CLEANING
  }

  /** The update each handler passes to `onUpdate`; the booking handler copies the form. */
  function ActionPatch(a: Action, form: BookingForm): Patch
  {
    match a
    case Book => Patch(Some(BOOKED), Some(Some(form)))
    case CheckIn => Patch(Some(OCCUPIED), None)
    case CheckOut => Patch(Some(CLEANING), Some(None))
    case Cleaned => Patch(Some(AVAILABLE), None)
    case Cancel => Patch(Some(AVAILABLE), Some(None))
  }

  /** The state changes the modal can make. */
  const TRANSITIONS: set<(string, string)> :=
    {(AVAILABLE, BOOKED), (BOOKED, OCCUPIED), (BOOKED, AVAILABLE), (OCCUPIED, CLEANING), (CLEANING, AVAILABLE)}

  /** Every status shows its own buttons: each action is offered in exactly one status. */
  lemma OfferedByStatus(room: Room, a: Action)
    ensures room.status == AVAILABLE ==> (Offered(room, a) <==> a == Book)
    ensures room.status == BOOKED ==> (Offered(room, a) <==> room.booking.Some? && (a == CheckIn || a == Cancel))
    ensures room.status == OCCUPIED ==> (Offered(room, a) <==> a == CheckOut)
    ensures room.status == CLEANING ==> (Offered(room, a) <==> a == Cleaned)
    ensures room.status !in {AVAILABLE, BOOKED, OCCUPIED, CLEANING} ==> !Offered(room, a)
  {
    StatusesDistinct();
  }

  /**
   * An offered action moves the room along one of the five transitions,
   * sets or clears the booking as its handler says, leaves every other
   * field alone, and leads to a room that offers the next step of a stay.
   */
  lemma ActionEffect(room: Room, a: Action, form: BookingForm)
    requires Offered(room, a)
    ensures var after := Merge(room, ActionPatch(a, form));
      && (room.status, after.status) in TRANSITIONS
      && after == room.(status := after.status, booking := after.booking)
      && (a == Book ==> after.booking == Some(form))
      && (a == CheckIn || a == Cleaned ==> after.booking == room.booking)
      && (a == CheckOut || a == Cancel ==> after.booking == None)
      && (a == Book ==> forall a' :: Offered(after, a') <==> a' == CheckIn || a' == Cancel)
      && (a == CheckIn ==> forall a' :: Offered(after, a') <==> a' == CheckOut)
      && (a == CheckOut ==> forall a' :: Offered(after, a') <==> a' == Cleaned)
      && (a == Cleaned || a == Cancel ==> forall a' :: Offered(after, a') <==> a' == Book)
  {
    StatusesDistinct();
  }

  /**
   * From an available room without a booking, a full stay (book, check in,
   * check out, cleaned) and a cancelled booking both restore the room.
   */
  lemma StayCycle(room: Room, form: BookingForm)
    requires room.status == AVAILABLE && room.booking == None
    ensures var booked := Merge(room, ActionPatch(Book, form));
      && Merge(Merge(Merge(booked, ActionPatch(CheckIn, form)), ActionPatch(CheckOut, form)), ActionPatch(Cleaned, form)) == room
      && Merge(booked, ActionPatch(Cancel, form)) == room
  {
  }

  // ------------------------------------------------------------- form

  /** JavaScript's `value || fallback` on a string field. */
  function OrText(value: string, fallback: string): string
  {
    if value != "" then value else fallback
  }

  /** The form's initial state: prefilled from `room.booking`, or the defaults. */
  function InitialForm(room: Room, today: string): (f: BookingForm)
    ensures room.booking.None? ==> f == BookingForm("", "", today, "", 1, "")
    ensures room.booking.Some? ==>
      var b := room.booking.value;
      && f.guestName == b.guestName && f.phone == b.phone && f.checkOut == b.checkOut && f.note == b.note
      && f.checkIn == (if b.checkIn != "" then b.checkIn else today)
      && f.adults == (if b.adults != 0 then b.adults else 1)
  {
    match room.booking
    case None => BookingForm("", "", today, "", 1, "")
    case Some(b) =>
      BookingForm(OrText(b.guestName, ""), OrText(b.phone, ""), OrText(b.checkIn, today),
                  OrText(b.checkOut, ""), if b.adults != 0 then b.adults else 1, OrText(b.note, ""))
  }

  /** The text inputs of the form, by their `name` attribute. */
  datatype TextField = GuestNameField | PhoneField | CheckInField | CheckOutField | NoteField

  /** `{ ...prev, [name]: value }` for a text input. */
  function WithText(form: BookingForm, field: TextField, value: string): BookingForm
  {
    match field
    case GuestNameField => form.(guestName := value)
    case PhoneField => form.(phone := value)
    case CheckInField => form.(checkIn := value)
    case CheckOutField => form.(checkOut := value)
    case NoteField => form.(note := value)
  }

  /** Which alert the booking handler shows, or that it goes ahead. */
  datatype BookOutcome = MissingGuestName | MissingCheckOut | Confirmed

  /**
   * The booking handler's checks in order: the guest name must hold a
   * character that is not whitespace, then the check-out date must be set.
   */
  function CheckForm(form: BookingForm): (r: BookOutcome)
    ensures r == MissingGuestName <==> forall i :: 0 <= i < |form.guestName| ==> IsWhitespace(form.guestName[i])
    ensures r == MissingCheckOut <==>
      (exists i :: 0 <= i < |form.guestName| && !IsWhitespace(form.guestName[i])) && form.checkOut == ""
    ensures r == Confirmed <==>
      (exists i :: 0 <= i < |form.guestName| && !IsWhitespace(form.guestName[i])) && form.checkOut != ""
  {
    TrimEmptyIff(form.guestName);
    if Trim(form.guestName) == "" then MissingGuestName
    else if form.checkOut == "" then MissingCheckOut
    else Confirmed
  }

  /**
   * Reopening the modal on a room booked from a form with its check-in date
   * and guest count set shows that same form, before and after check-in.
   */
  lemma ReopenShowsBooking(room: Room, form: BookingForm, today: string)
    requires CheckForm(form) == Confirmed && form.checkIn != "" && form.adults != 0
    ensures InitialForm(Merge(room, ActionPatch(Book, form)), today) == form
    ensures InitialForm(Merge(Merge(room, ActionPatch(Book, form)), ActionPatch(CheckIn, form)), today) == form
  {
  }

  /** The modal for one room, wired to the dashboard's update and close handlers. */
  class Modal {
    const room: Room
    const app: Dashboard
    var form: BookingForm

    constructor (room: Room, app: Dashboard, today: string)
      ensures this.room == room && this.app == app && form == InitialForm(room, today)
    {
      this.room := room;
      this.app := app;
      form := InitialForm(room, today);
    }

    /** `handleChange` on a text input. */
    method Change(field: TextField, value: string)
      modifies this
      ensures form == WithText(old(form), field, value)
    {
      form := WithText(form, field, value);
    }

    /** `handleChange` on the guest-count input. */
    method ChangeAdults(value: int)
      modifies this
      ensures form == old(form).(adults := value)
    {
      form := form.(adults := value);
    }

    /** `handleBook`: refused with no update on a blank guest name or a missing check-out date. */
    method HandleBook() returns (outcome: BookOutcome)
      requires app.Valid()
      modifies app
      ensures outcome == CheckForm(form)
      ensures outcome != Confirmed ==> unchanged(app)
      ensures outcome == Confirmed ==>
        && app.rooms == ApplyUpdate(old(app.rooms), room.id, ActionPatch(Book, form))
        && app.Valid() && !app.modalOpen
    {
      if Trim(form.guestName) == "" {
        outcome := MissingGuestName;
        return;
      }
      if form.checkOut == "" {
        outcome := MissingCheckOut;
        return;
      }
      app.UpdateRoom(room.id, Patch(Some(BOOKED), Some(Some(form))));
      app.ModalClose();
      outcome := Confirmed;
    }

    /** `handleCheckIn`: only the status changes; the booking is kept. */
    method HandleCheckIn()
      requires app.Valid()
      modifies app
      ensures app.rooms == ApplyUpdate(old(app.rooms), room.id, ActionPatch(CheckIn, form))
      ensures app.Valid() && !app.modalOpen
    {
      app.UpdateRoom(room.id, Patch(Some(OCCUPIED), None));
      app.ModalClose();
    }

    /** `handleCheckOut`: the booking is cleared and the room goes to cleaning. */
    method HandleCheckOut()
      requires app.Valid()
      modifies app
      ensures app.rooms == ApplyUpdate(old(app.rooms), room.id, ActionPatch(CheckOut, form))
      ensures app.Valid() && !app.modalOpen
    {
      app.UpdateRoom(room.id, Patch(Some(CLEANING), Some(None)));
      app.ModalClose();
    }

    /** `handleCleaned`: the room is available again; the booking field is not touched. */
    method HandleCleaned()
      requires app.Valid()
      modifies app
      ensures app.rooms == ApplyUpdate(old(app.rooms), room.id, ActionPatch(Cleaned, form))
      ensures app.Valid() && !app.modalOpen
    {
      app.UpdateRoom(room.id, Patch(Some(AVAILABLE), None));
      app.ModalClose();
    }

    /** `handleCancel`: the booking is cleared and the room is available. */
    method HandleCancel()
      requires app.Valid()
      modifies app
      ensures app.rooms == ApplyUpdate(old(app.rooms), room.id, ActionPatch(Cancel, form))
      ensures app.Valid() && !app.modalOpen
    {
      app.UpdateRoom(room.id, Patch(Some(AVAILABLE), Some(None)));
      app.ModalClose();
    }
  }
}
