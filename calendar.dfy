/** The calendar page: events loaded from stored records, created, edited and deleted through
    a modal form, listed per day, and the mock suggestions offered for a selected day. */
module Calendar {
  import opened Basics
  import opened Dates
  import Seqs

  /** A calendar event; `kind` is the event's `type` ("task", "shopping" or "event" when the
      page itself wrote it). */
  datatype Event = Event(id: string, title: string, date: Date, time: string, kind: string,
                         location: Option<string>, photo: Option<string>)

  /** One stored record as parsed back from JSON: any field may be missing. */
  datatype StoredEvent = StoredEvent(id: Option<string>, title: Option<string>, date: Option<Date>,
                                     time: Option<string>, kind: Option<string>,
                                     location: Option<string>, photo: Option<string>)

  /** The modal's form fields; `photo` is `null` until a picture is picked. */
  datatype Form = Form(title: string, time: string, kind: string, location: string, photo: Option<string>)

  /** The form as `openModal()` resets it. */
  const BlankForm: Form := Form("", "12:00", "event", "", None)

  /** `value || undefined` for an optional string: the empty string counts as absent. */
  function OrUndefined(o: Option<string>): (r: Option<string>)
    ensures r.None? <==> o.None? || o == Some([])
    ensures r.Some? ==> r == o && r.value != []
  {
    if o.Some? && o.value != [] then o else None
  }

  /** The loader's per-record mapping: `??` defaults only replace missing fields, while the
      `||` and truthiness tests of type, location and photo also replace the empty string. */
  function NormaliseEvent(raw: StoredEvent, freshId: string, today: Date): (r: Event)
    ensures r.id == raw.id.GetOr(freshId) && r.date == raw.date.GetOr(today)
    ensures r.title == (if raw.title.Some? then raw.title.value else "")
    ensures r.time == (if raw.time.Some? then raw.time.value else "12:00")
    ensures r.kind != [] && (raw.kind.Some? && raw.kind.value != [] ==> r.kind == raw.kind.value)
    ensures raw.kind.None? || raw.kind == Some([]) ==> r.kind == "event"
    ensures r.location == OrUndefined(raw.location) && r.photo == OrUndefined(raw.photo)
  {
    Event(raw.id.GetOr(freshId),
          raw.title.GetOr(""),
          raw.date.GetOr(today),
          raw.time.GetOr("12:00"),
          if raw.kind.None? || raw.kind.value == [] then "event" else raw.kind.value,
          OrUndefined(raw.location),
          OrUndefined(raw.photo))
  }

  /** The loaded list: one event per stored record, in stored order. */
  function LoadEvents(raw: seq<StoredEvent>, freshId: string, today: Date): (r: seq<Event>)
    ensures |r| == |raw|
    ensures forall i :: 0 <= i < |raw| ==> r[i] == NormaliseEvent(raw[i], freshId, today)
  {
    if raw == [] then [] else [NormaliseEvent(raw[0], freshId, today)] + LoadEvents(raw[1..], freshId, today)
  }

  /** The record `JSON.stringify` writes for an event: absent optional fields are left out,
      every other field is present. */
  function Stored(e: Event): (r: StoredEvent)
    ensures r.id == Some(e.id) && r.title == Some(e.title) && r.date == Some(e.date)
    ensures r.time == Some(e.time) && r.kind == Some(e.kind)
    ensures r.location.None? <==> e.location.None?
    ensures r.photo.None? <==> e.photo.None?
  {
    StoredEvent(Some(e.id), Some(e.title), Some(e.date), Some(e.time), Some(e.kind), e.location, e.photo)
  }

  /** Loading what was saved gives the event back, except that an empty location or photo
      comes back absent. */
  lemma LoadAfterSave(e: Event, freshId: string, today: Date)
    requires e.kind != []
    ensures NormaliseEvent(Stored(e), freshId, today)
            == e.(location := OrUndefined(e.location), photo := OrUndefined(e.photo))
  {
  }

  /** A saved event with an empty location, as the create path writes one when the location
      field is left blank, loads without a location. */
  lemma BlankLocationNotRestored(e: Event, freshId: string, today: Date)
    requires e.kind != [] && e.location == Some([])
    ensures NormaliseEvent(Stored(e), freshId, today) != e
  {
    LoadAfterSave(e, freshId, today);
  }

  /** Loaded events are a fixed point of saving and loading again. */
  lemma {:induction false} LoadSaveLoad(raw: seq<StoredEvent>, freshId: string, today: Date)
    ensures var once := LoadEvents(raw, freshId, today);
            LoadEvents(SaveAll(once), freshId, today) == once
  {
    var once := LoadEvents(raw, freshId, today);
    var twice := LoadEvents(SaveAll(once), freshId, today);
    forall i | 0 <= i < |once| ensures twice[i] == once[i] {
      LoadAfterSave(once[i], freshId, today);
    }
  }

  function SaveAll(events: seq<Event>): (r: seq<StoredEvent>)
    ensures |r| == |events|
    ensures forall i :: 0 <= i < |events| ==> r[i] == Stored(events[i])
  {
    if events == [] then [] else [Stored(events[0])] + SaveAll(events[1..])
  }

  /** The edit branch of `handleSaveEvent`: every event with the edited id takes the form's
      fields and the selected date, and a photo that was not picked is dropped. */
  function ApplyEdit(events: seq<Event>, id: string, f: Form, day: Date): (r: seq<Event>)
    ensures |r| == |events|
    ensures forall i :: 0 <= i < |events| && events[i].id == id ==>
              r[i] == Event(id, f.title, day, f.time, f.kind, Some(f.location), OrUndefined(f.photo))
    ensures forall i :: 0 <= i < |events| && events[i].id != id ==> r[i] == events[i]
  {
    if events == [] then []
    else
      [if events[0].id == id
       then events[0].(title := f.title, time := f.time, kind := f.kind, date := day,
                       location := Some(f.location), photo := OrUndefined(f.photo))
       else events[0]]
      + ApplyEdit(events[1..], id, f, day)
  }

  /** The event the create branch of `handleSaveEvent` appends: the form's fields on the
      selected day, the location always present (possibly empty), a photo only when one was picked. */
  function NewEvent(f: Form, day: Date, id: string): (e: Event)
    ensures e.id == id && e.title == f.title && e.date == day && e.time == f.time && e.kind == f.kind
    ensures e.location == Some(f.location)
    ensures e.photo.None? <==> f.photo.None? || f.photo == Some([])
    ensures e.photo.Some? ==> e.photo == f.photo
  {
    Event(id, f.title, day, f.time, f.kind, Some(f.location), OrUndefined(f.photo))
  }

  /** The list after a save with a non-empty title: an edit keeps the length and the other
      events, a create appends exactly one event. */
  function Saved(events: seq<Event>, editing: Option<Event>, f: Form, day: Date, newId: string): (r: seq<Event>)
    ensures editing.None? ==> r == events + [NewEvent(f, day, newId)]
    ensures editing.Some? ==> |r| == |events|
    ensures editing.Some? ==> forall i :: 0 <= i < |events| && events[i].id != editing.value.id ==> r[i] == events[i]
    ensures editing.Some? ==> forall i :: 0 <= i < |events| && events[i].id == editing.value.id ==>
              r[i] == Event(editing.value.id, f.title, day, f.time, f.kind, Some(f.location), OrUndefined(f.photo))
  {
    match editing
    case Some(e) => ApplyEdit(events, e.id, f, day)
    case None => events + [NewEvent(f, day, newId)]
  }

  /** Editing an event without picking a photo in the modal (opening it on an event leaves
      the photo field at `null`) drops the event's stored photo. */
  lemma EditWithoutPhotoDropsPhoto(events: seq<Event>, e: Event, f: Form, day: Date, newId: string, i: int)
    requires f.photo.None? && 0 <= i < |events| && events[i].id == e.id
    ensures Saved(events, Some(e), f, day, newId)[i].photo.None?
  {
  }

  /** `events.filter(ev => ev.id !== id)`. */
  function WithoutEvent(events: seq<Event>, id: string): (r: seq<Event>)
    ensures forall i :: 0 <= i < |r| ==> r[i].id != id && r[i] in events
    ensures forall i :: 0 <= i < |events| && events[i].id != id ==> events[i] in r
  {
    Seqs.Filter(events, (ev: Event) => ev.id != id)
  }

  /** `getEventsForDay`: the events on the given calendar day, in list order. */
  function EventsForDay(events: seq<Event>, d: Date): (r: seq<Event>)
    ensures forall i :: 0 <= i < |r| ==> r[i].date == d && r[i] in events
    ensures forall i :: 0 <= i < |events| && events[i].date == d ==> events[i] in r
  {
    Seqs.Filter(events, (ev: Event) => ev.date == d)
  }

  /** Adding an event on another day leaves a day's list unchanged. */
  lemma EventsForOtherDay(events: seq<Event>, e: Event, d: Date)
    requires e.date != d
    ensures EventsForDay(events + [e], d) == EventsForDay(events, d)
  {
    Seqs.FilterAppend(events, [e], (ev: Event) => ev.date == d);
    assert EventsForDay([e], d) == [];
  }

  datatype Suggestion = Suggestion(id: string, title: string, category: string,
                                   location: Option<string>, description: string)

  const BaseSuggestions: seq<Suggestion> := [
    Suggestion("1", "Local Farmers Market", "Shopping", Some("Town Square"), "Fresh produce and local goods."),
    Suggestion("2", "Cinema Night", "Entertainment", Some("City Mall Cinema"), "Catch the latest blockbuster."),
    Suggestion("3", "Park Picnic", "Outdoor", Some("Central Park"), "Relaxing afternoon in the sun.")
  ]

  const WeekendExtras: seq<Suggestion> := [
    Suggestion("w1", "Live Music Night", "Nightlife", Some("The Jazz Corner"), "Local bands playing live."),
    Suggestion("w2", "Hiking Trip", "Outdoor", Some("Sunset Trail"), "3-hour scenic hike.")
  ]

  const WeekdayExtras: seq<Suggestion> := [
    Suggestion("d1", "Quick Gym Session", "Health", Some("FitZone"), "45 min cardio workout."),
    Suggestion("d2", "Try a New Recipe", "Cooking", None, "Cook something special for dinner.")
  ]

  predicate IsWeekend(d: Date)
    requires ValidDate(d)
  {
    Weekday(d) == 0 || Weekday(d) == 6
  }

  /** `getMockSuggestions`: on Saturday and Sunday the three base suggestions and two weekend
      ones; on other days the first two base suggestions and two weekday ones. */
  function Suggestions(d: Date): (r: seq<Suggestion>)
    requires ValidDate(d)
    ensures IsWeekend(d) ==> |r| == 5 && r[..3] == BaseSuggestions
    ensures !IsWeekend(d) ==> |r| == 4 && r[..2] == BaseSuggestions[..2]
    ensures forall i, j :: 0 <= i < j < |r| ==> r[i].id != r[j].id
  {
    if IsWeekend(d) then BaseSuggestions + WeekendExtras else BaseSuggestions[..2] + WeekdayExtras
  }

  /** 1 June 2024 was a Saturday and 3 June 2024 a Monday. */
  lemma SuggestionsOnKnownDays()
    ensures |Suggestions(Date(2024, 6, 1))| == 5
    ensures |Suggestions(Date(2024, 6, 3))| == 4
  {
    KnownWeekdays();
  }

  /** The form `handleAddSuggestion` fills in: the suggestion's title and location (empty when
      it has none), type "shopping" exactly for the Shopping category, and an evening time.
      The photo field is left as it was. */
  function SuggestionForm(s: Suggestion, f: Form): (r: Form)
    ensures r.kind == "shopping" <==> s.category == "Shopping"
    ensures r.kind != "shopping" ==> r.kind == "event"
    ensures r.time == "18:00" && r.title == s.title && r.photo == f.photo
    ensures r.location == (if s.location.Some? then s.location.value else "")
  {
    Form(s.title, "18:00", if s.category == "Shopping" then "shopping" else "event",
         s.location.GetOr(""), f.photo)
  }

  /** The state of the calendar page that its handlers change. */
  class CalendarPage {
    var events: seq<Event>
    var selectedDate: Date
    var editing: Option<Event>
    var form: Form
    var modalOpen: bool

    /** The page as it opens: the stored records loaded, today selected, the modal closed. */
    constructor (stored: seq<StoredEvent>, freshId: string, today: Date)
      ensures events == LoadEvents(stored, freshId, today)
      ensures selectedDate == today && editing.None? && form == BlankForm && !modalOpen
    {
      events := LoadEvents(stored, freshId, today);
      selectedDate := today;
      editing := None;
      form := BlankForm;
      modalOpen := false;
    }

    /** Clicking a day of the month grid. */
    method SelectDay(d: Date)
      modifies this
      ensures selectedDate == d
      ensures events == old(events) && editing == old(editing) && form == old(form) && modalOpen == old(modalOpen)
    {
      selectedDate := d;
    }

    /** Typing in the form or picking a picture. */
    method EditForm(f: Form)
      modifies this
      ensures form == f
      ensures events == old(events) && selectedDate == old(selectedDate) && editing == old(editing)
      ensures modalOpen == old(modalOpen)
    {
      form := f;
    }

    /** `openModal(event)`: editing an event copies its fields into the form but leaves the
        photo field as it was; without an event the form is reset. */
    method OpenModal(event: Option<Event>)
      modifies this
      ensures modalOpen && editing == event && events == old(events)
      ensures match event
              case Some(e) =>
                && form == Form(e.title, e.time, e.kind, e.location.GetOr(""), old(form).photo)
                && selectedDate == e.date
              case None => form == BlankForm && selectedDate == old(selectedDate)
    {
      editing := event;
      match event {
        case Some(e) =>
          form := Form(e.title, e.time, e.kind, e.location.GetOr(""), form.photo);
          selectedDate := e.date;
        case None =>
          form := BlankForm;
      }
      modalOpen := true;
    }

    method AddSuggestion(s: Suggestion)
      modifies this
      ensures form == SuggestionForm(s, old(form))
      ensures editing.None? && modalOpen
      ensures events == old(events) && selectedDate == old(selectedDate)
    {
      form := SuggestionForm(s, form);
      editing := None;
      modalOpen := true;
    }

    /** `handleSaveEvent`: nothing happens for an empty title; otherwise the edit or create
        is applied, the modal closes and the photo field is cleared. */
    method SaveEvent(newId: string)
      modifies this
      ensures old(form).title == [] ==>
                events == old(events) && form == old(form) && modalOpen == old(modalOpen)
      ensures old(form).title != [] ==>
                && events == Saved(old(events), old(editing), old(form), old(selectedDate), newId)
                && form == old(form).(photo := None) && !modalOpen
      ensures selectedDate == old(selectedDate) && editing == old(editing)
    {
      if form.title == [] {
        return;
      }
      events := Saved(events, editing, form, selectedDate, newId);
      modalOpen := false;
      form := form.(photo := None);
    }

    /** `handleDeleteEvent`: removes the events with the edited id and closes the modal; a
        no-op when no event is being edited. */
    method DeleteEvent()
      modifies this
      ensures match old(editing)
              case Some(e) => events == WithoutEvent(old(events), e.id) && !modalOpen
              case None => events == old(events) && modalOpen == old(modalOpen)
      ensures form == old(form) && editing == old(editing) && selectedDate == old(selectedDate)
    {
      if editing.Some? {
        events := WithoutEvent(events, editing.value.id);
        modalOpen := false;
      }
    }
  }
}
