/**
 The admin agenda: manual appointment creation (paired with an income
 record), marking an appointment completed, the technique price and duration
 table that pre-fills the form, and the order the agenda is listed in.
 */
module Schedule {
  import opened Types
  import opened Text
  import opened Seqs
  import Availability
  import Booking

  // ---------------------------------------------------------------------------
  // The new-appointment form
  // ---------------------------------------------------------------------------

  /** `Number(field)` of a form field: a number, or NaN for text that is not one. */
  datatype NumInput = Num(value: int) | NaN

  /** `Number(field) || fallback`: zero and NaN are falsy and give way to the fallback. */
  function NumberOr(x: NumInput, fallback: int): (r: int)
    ensures x.Num? && x.value != 0 ==> r == x.value
    ensures x == NaN || x == Num(0) ==> r == fallback
  {
    match x
    case Num(v) => if v != 0 then v else fallback
    case NaN => fallback
  }

  /** The form's partial appointment; an empty string stands for a field not filled in. */
  datatype AppointmentForm = AppointmentForm(
    clientId: string,
    date: string,
    time: string,
    service: AppointmentType,
    price: NumInput,
    duration: NumInput)

  /** The form as first shown and as reset after a successful add. */
  function EmptyForm(s: GlobalSettings): (f: AppointmentForm)
    ensures f.clientId == "" && f.date == "" && f.time == ""
    ensures f.service == BoxBraids
    ensures NumberOr(f.price, 0) == s.defaultPrice && NumberOr(f.duration, 0) == s.defaultDuration
  {
    AppointmentForm("", "", "", BoxBraids, Num(s.defaultPrice), Num(s.defaultDuration))
  }

  /** `client?.name || 'Cliente'` for the client with id `id`. */
  function ClientLabel(clients: seq<Client>, id: string): (r: string)
    ensures (forall i :: 0 <= i < |clients| ==> clients[i].id != id) ==> r == "Cliente"
    ensures forall i :: (0 <= i < |clients| && clients[i].id == id
      && (forall k :: 0 <= k < i ==> clients[k].id != id)) ==>
      r == (if clients[i].name != "" then clients[i].name else "Cliente")
  {
    if |clients| == 0 then "Cliente"
    else if clients[0].id == id then (if clients[0].name != "" then clients[0].name else "Cliente")
    else
      assert forall i :: 1 <= i < |clients| ==> clients[i] == clients[1..][i - 1];
      ClientLabel(clients[1..], id)
  }

  /** The form is missing its client, date or time. */
  predicate Incomplete(form: AppointmentForm) {
    form.clientId == "" || form.date == "" || form.time == ""
  }

  /** `handleAddAppointment`: add the form's appointment and its income record. */
  function HandleAddAppointment(st: Store, form: AppointmentForm, now: nat): (r: Store)
    ensures Incomplete(form) ==> r == st
    ensures !Incomplete(form) ==>
      && |r.appointments| == |st.appointments| + 1
      && r.appointments[..|st.appointments|] == st.appointments
      && var a := r.appointments[|st.appointments|];
        && a.clientId == form.clientId && a.date == form.date && a.time == form.time
        && a.service == form.service && a.status == Scheduled
        && a.price == NumberOr(form.price, st.settings.defaultPrice)
        && a.duration == NumberOr(form.duration, st.settings.defaultDuration)
        && |r.finances| == |st.finances| + 1
        && r.finances[..|st.finances|] == st.finances
        && var f := r.finances[|st.finances|];
          && f.kind == Income && f.category == Booking.ServiceCategory
          && f.amount == a.price && f.date == a.date
    ensures r.clients == st.clients && r.settings == st.settings
    ensures r.sessionReports == st.sessionReports && r.kanbanTasks == st.kanbanTasks
  {
    if Incomplete(form) then st
    else
      var price := NumberOr(form.price, st.settings.defaultPrice);
      var app := Appointment(Decimal(now), form.clientId, form.date, form.time, form.service,
                             Scheduled, None, price, NumberOr(form.duration, st.settings.defaultDuration));
      var record := FinancialRecord(
        "f-" + Decimal(now),
        "Agendamento Manual (" + AppointmentTypeName(app.service) + ") - " + ClientLabel(st.clients, form.clientId),
        price, Income, form.date, Booking.ServiceCategory);
      st.(appointments := st.appointments + [app], finances := st.finances + [record])
  }

  /**
   Submitting the form: the store after `handleAddAppointment`, and the form
   it leaves behind. An incomplete form stays as it is; after a successful add
   the form is reset to its initial contents.
   */
  function SubmitForm(st: Store, form: AppointmentForm, now: nat): (r: (Store, AppointmentForm))
    ensures r.0 == HandleAddAppointment(st, form, now)
    ensures Incomplete(form) ==> r.1 == form
    ensures !Incomplete(form) ==> r.1 == EmptyForm(st.settings)
  {
    if Incomplete(form) then (st, form)
    else (HandleAddAppointment(st, form, now), EmptyForm(st.settings))
  }

  /**
   Submitting a second time right after a successful add changes nothing: the
   reset form has no client, date or time, so the handler returns early.
   */
  lemma {:induction false} SubmitTwiceAddsOnce(st: Store, form: AppointmentForm, now: nat, later: nat)
    ensures var (st1, form1) := SubmitForm(st, form, now);
      SubmitForm(st1, form1, later) == (st1, form1)
  {
    var (st1, form1) := SubmitForm(st, form, now);
    assert Incomplete(form1);
  }

  /**
   A form submitted without touching the technique buttons is recorded as Box
   Braids, but at the settings' default price and duration: with the settings
   a new installation starts with, 180 and 240 minutes, where choosing Box
   Braids explicitly would have given 350 and 360.
   */
  lemma {:induction false} UntouchedTechniqueUsesDefaults(st: Store, client: string, date: string, time: string, now: nat)
    requires st.settings == DefaultSettings
    requires client != "" && date != "" && time != ""
    ensures var form := EmptyForm(st.settings).(clientId := client, date := date, time := time);
      var a := HandleAddAppointment(st, form, now).appointments[|st.appointments|];
      && a.service == BoxBraids && a.price == 180 && a.duration == 240
      && TechniqueDefaults(AppointmentTypeName(BoxBraids), st.settings) == (350, 360)
  {
    AppointmentTypeNames(BoxBraids, AppointmentTypeName(BoxBraids));
  }

  /**
   A manual add keeps every appointment pointing at an existing client as long
   as the form's client is one; the form offers only existing clients, and the
   handler itself does not check.
   */
  lemma {:induction false} ManualAddPreservesClientRefs(st: Store, form: AppointmentForm, now: nat)
    requires ClientRefsValid(st)
    requires exists j :: 0 <= j < |st.clients| && st.clients[j].id == form.clientId
    ensures ClientRefsValid(HandleAddAppointment(st, form, now))
  {
    var r := HandleAddAppointment(st, form, now);
    if !Incomplete(form) {
      forall i | 0 <= i < |r.appointments|
        ensures exists j :: 0 <= j < |r.clients| && r.clients[j].id == r.appointments[i].clientId
      {
        if i < |st.appointments| {
          assert r.appointments[i] == r.appointments[..|st.appointments|][i] == st.appointments[i];
        }
      }
    }
  }

  // ---------------------------------------------------------------------------
  // Completion
  // ---------------------------------------------------------------------------

  /** `markCompleted(id)`: every appointment with that id becomes completed; nothing else changes. */
  function MarkCompleted(st: Store, id: string): (r: Store)
    ensures |r.appointments| == |st.appointments|
    ensures forall i :: 0 <= i < |st.appointments| ==>
      r.appointments[i] == st.appointments[i].(status := r.appointments[i].status)
    ensures forall i :: 0 <= i < |st.appointments| ==>
      (r.appointments[i].status == st.appointments[i].status || st.appointments[i].id == id)
    ensures forall i :: 0 <= i < |st.appointments| && st.appointments[i].id == id ==>
      r.appointments[i].status == Completed
    ensures r.finances == st.finances && r.clients == st.clients && r.settings == st.settings
    ensures r.sessionReports == st.sessionReports && r.kanbanTasks == st.kanbanTasks
  {
    var apps := seq(|st.appointments|, i requires 0 <= i < |st.appointments| =>
      var a := st.appointments[i];
      if a.id == id then a.(status := Completed) else a);
    st.(appointments := apps)
  }

  /** Marking the same appointment completed twice is marking it once. */
  lemma {:induction false} MarkCompletedIdempotent(st: Store, id: string)
    ensures MarkCompleted(MarkCompleted(st, id), id) == MarkCompleted(st, id)
  {
    var once := MarkCompleted(st, id);
    var twice := MarkCompleted(once, id);
    assert twice.appointments == once.appointments by {
      forall i | 0 <= i < |once.appointments| ensures twice.appointments[i] == once.appointments[i] {
        if once.appointments[i].id == id {
          assert st.appointments[i].id == id;
        }
      }
    }
  }

  /**
   Completing an appointment that is not cancelled (the agenda offers the
   action only on scheduled ones) keeps its slot taken: the public page offers
   the same slots.
   */
  lemma {:induction false} MarkCompletedKeepsAvailability(st: Store, id: string, date: string, today: string,
                                                          clock: Availability.Clock)
    requires forall i :: 0 <= i < |st.appointments| && st.appointments[i].id == id ==>
      st.appointments[i].status != Cancelled
    ensures Availability.AvailableTimeSlots(date, today, clock, MarkCompleted(st, id).appointments)
         == Availability.AvailableTimeSlots(date, today, clock, st.appointments)
  {
    var before := st.appointments;
    var after := MarkCompleted(st, id).appointments;
    forall t ensures Availability.Occupied(after, date, t) <==> Availability.Occupied(before, date, t) {
      if Availability.Occupied(after, date, t) {
        var i :| 0 <= i < |after| && Availability.Holds(after[i], date, t);
        assert Availability.Holds(before[i], date, t);
      }
      if Availability.Occupied(before, date, t) {
        var i :| 0 <= i < |before| && Availability.Holds(before[i], date, t);
        assert Availability.Holds(after[i], date, t);
      }
    }
    FilterCongruent(Availability.Catalog,
      t => Availability.KeepSlot(t, date, today, clock, after),
      t => Availability.KeepSlot(t, date, today, clock, before));
  }

  // ---------------------------------------------------------------------------
  // Technique defaults
  // ---------------------------------------------------------------------------

  /** The price table of the technique selector (`prices[type]`). */
  function PriceTable(name: string): Option<int> {
    if name == "Box Braids" then Some(350)
    else if name == "Nag\U{00F4}" then Some(150)
    else if name == "Twist" then Some(300)
    else if name == "Entrelace" then Some(400)
    else if name == "Penteado" then Some(120)
    else None
  }

  /** The duration table of the technique selector (`durations[type]`), in minutes. */
  function DurationTable(name: string): Option<int> {
    if name == "Box Braids" then Some(360)
    else if name == "Nag\U{00F4}" then Some(90)
    else if name == "Twist" then Some(240)
    else if name == "Entrelace" then Some(240)
    else if name == "Penteado" then Some(60)
    else None
  }

  /** `table[name] || fallback`: a missing entry and a zero entry give way to the fallback. */
  function LookupOr(entry: Option<int>, fallback: int): int {
    match entry
    case Some(v) => if v != 0 then v else fallback
    case None => fallback
  }

  /** The (price, duration) pre-filled for a technique name. */
  function TechniqueDefaults(name: string, s: GlobalSettings): (r: (int, int))
    ensures ParseAppointmentType(name) == Some(BoxBraids) ==> r == (350, 360)
    ensures ParseAppointmentType(name) == Some(Nago) ==> r == (150, 90)
    ensures ParseAppointmentType(name) == Some(Twist) ==> r == (300, 240)
    ensures ParseAppointmentType(name) == Some(Entrelace) ==> r == (400, 240)
    ensures ParseAppointmentType(name) == Some(Penteado) ==> r == (120, 60)
    ensures ParseAppointmentType(name).None? ==> r == (s.defaultPrice, s.defaultDuration)
  {
    (LookupOr(PriceTable(name), s.defaultPrice), LookupOr(DurationTable(name), s.defaultDuration))
  }

  /** `handleTypeChange(type)`: pick a technique and pre-fill its price and duration. */
  function HandleTypeChange(form: AppointmentForm, t: AppointmentType, s: GlobalSettings): (r: AppointmentForm)
    ensures r.service == t
    ensures r.price == Num(TechniqueDefaults(AppointmentTypeName(t), s).0)
    ensures r.duration == Num(TechniqueDefaults(AppointmentTypeName(t), s).1)
    ensures r.clientId == form.clientId && r.date == form.date && r.time == form.time
  {
    var (price, duration) := TechniqueDefaults(AppointmentTypeName(t), s);
    form.(service := t, price := Num(price), duration := Num(duration))
  }

  /** Every listed technique has its own non-zero table entry, so the settings never show through. */
  lemma TechniqueNeverFallsBack(t: AppointmentType, s: GlobalSettings)
    ensures TechniqueDefaults(AppointmentTypeName(t), s).0 > 0
    ensures TechniqueDefaults(AppointmentTypeName(t), s).1 > 0
  {
    AppointmentTypeNames(t, AppointmentTypeName(t));
  }

  // ---------------------------------------------------------------------------
  // Listing order
  // ---------------------------------------------------------------------------

  /**
   The agenda comparator `a.date.localeCompare(b.date) || a.time.localeCompare(b.time)`
   read as "a may be listed before b": an earlier date, or the same date and a
   time no later.
   */
  predicate DateTimeLe(a: Appointment, b: Appointment) {
    (LexLe(a.date, b.date) && a.date != b.date) || (a.date == b.date && LexLe(a.time, b.time))
  }

  lemma DateTimeLeTotal()
    ensures Total(DateTimeLe)
  {
    forall a: Appointment, b: Appointment ensures DateTimeLe(a, b) || DateTimeLe(b, a) {
      LexLeTotal(a.date, b.date);
      LexLeTotal(a.time, b.time);
    }
  }

  lemma DateTimeLeTransitive()
    ensures Transitive(DateTimeLe)
  {
    forall a: Appointment, b: Appointment, c: Appointment | DateTimeLe(a, b) && DateTimeLe(b, c)
      ensures DateTimeLe(a, c)
    {
      if a.date == b.date && b.date == c.date {
        LexLeTransitive(a.time, b.time, c.time);
      } else {
        LexLeReflexive(a.date);
        LexLeReflexive(b.date);
        LexLeTransitive(a.date, b.date, c.date);
        if a.date == c.date {
          LexLeAntisymmetric(a.date, b.date);
        }
      }
    }
  }

  /** The agenda as listed: by date, then by time, ties kept in stored order. */
  function ListingOrder(apps: seq<Appointment>): (r: seq<Appointment>)
    ensures multiset(r) == multiset(apps)
    ensures forall i, j :: 0 <= i < j < |r| ==>
      LexLe(r[i].date, r[j].date) && (r[i].date == r[j].date ==> LexLe(r[i].time, r[j].time))
  {
    DateTimeLeTotal();
    DateTimeLeTransitive();
    var r := Sort(apps, DateTimeLe);
    SortedPairwise(r, DateTimeLe);
    assert forall i, j :: 0 <= i < j < |r| ==> DateTimeLe(r[i], r[j]);
    forall i, j | 0 <= i < j < |r|
      ensures LexLe(r[i].date, r[j].date) && (r[i].date == r[j].date ==> LexLe(r[i].time, r[j].time))
    {
      assert DateTimeLe(r[i], r[j]);
      if r[i].date == r[j].date {
        LexLeReflexive(r[i].date);
      }
    }
    r
  }
}
