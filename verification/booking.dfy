/**
 The online booking transaction of the application state container: find the
 client by e-mail (ignoring case) or create a pending one, then append one
 appointment priced from the global settings and one matching income record.
 The timestamp the source reads with `Date.now()` is the parameter `now`.
 */
module Booking {
  import opened Types
  import opened Text
  import Availability

  /** Contact details typed into the public booking form. */
  datatype ClientData = ClientData(name: string, email: string, phone: string)

  /** The date and time picked on the public booking form. */
  datatype AppointmentData = AppointmentData(date: string, time: string)

  /** The state after the booking, and the appointment handed back to the page. */
  datatype Booked = Booked(store: Store, appointment: Appointment)

  /** Address recorded for a client first seen through an online booking ("to be arranged"). */
  const PendingAddress: string := "A combinar"

  /** Category of the income records created alongside appointments ("Service"). */
  const ServiceCategory: string := "Servi\U{00E7}o"

  /** Client `j` is the first one whose e-mail equals `email` ignoring case. */
  predicate FirstEmailMatch(clients: seq<Client>, email: string, j: int) {
    && 0 <= j < |clients|
    && EqualsIgnoreCase(clients[j].email, email)
    && forall k :: 0 <= k < j ==> !EqualsIgnoreCase(clients[k].email, email)
  }

  predicate NoEmailMatch(clients: seq<Client>, email: string) {
    forall k :: 0 <= k < |clients| ==> !EqualsIgnoreCase(clients[k].email, email)
  }

  /** `clients.find(c => c.email.toLowerCase() === email.toLowerCase())`, as the index found. */
  function FindByEmail(clients: seq<Client>, email: string): (r: Option<nat>)
    ensures r.Some? ==> FirstEmailMatch(clients, email, r.value)
    ensures r.None? <==> NoEmailMatch(clients, email)
  {
    if |clients| == 0 then None
    else if EqualsIgnoreCase(clients[0].email, email) then Some(0)
    else
      match FindByEmail(clients[1..], email)
      case None => None
      case Some(i) => Some(i + 1)
  }

  /** The client record created for an e-mail never seen before. */
  function NewOnlineClient(id: string, data: ClientData): Client {
    Client(id, data.name, PendingAddress, data.phone, data.email, Pending, None, FirstContact)
  }

  /** `registerNewBooking(clientData, appointmentData)` */
  function RegisterNewBooking(st: Store, data: ClientData, slot: AppointmentData, now: nat): (r: Booked)
    // the client: reused when the e-mail is known, created otherwise
    ensures forall j :: FirstEmailMatch(st.clients, data.email, j) ==>
      r.store.clients == st.clients && r.appointment.clientId == st.clients[j].id
    ensures NoEmailMatch(st.clients, data.email) ==>
      && |r.store.clients| == |st.clients| + 1
      && r.store.clients[..|st.clients|] == st.clients
      && var c := r.store.clients[|st.clients|];
        && c.id == r.appointment.clientId
        && c.name == data.name && c.email == data.email && c.phone == data.phone
        && c.address == PendingAddress && c.status == Pending && c.treatmentStage == FirstContact
        && c.lastSessionDate == None
    ensures exists j :: 0 <= j < |r.store.clients| && r.store.clients[j].id == r.appointment.clientId
    // the appointment: one more, at the end, on the requested slot, at the default price
    ensures r.store.appointments == st.appointments + [r.appointment]
    ensures r.appointment.date == slot.date && r.appointment.time == slot.time
    ensures r.appointment.service == BoxBraids && r.appointment.status == Scheduled
    ensures r.appointment.price == st.settings.defaultPrice
    ensures r.appointment.duration == st.settings.defaultDuration
    // the income record: one more, at the end, for the appointment's price and date
    ensures |r.store.finances| == |st.finances| + 1
    ensures r.store.finances[..|st.finances|] == st.finances
    ensures var f := r.store.finances[|st.finances|];
      && f.kind == Income && f.category == ServiceCategory
      && f.amount == r.appointment.price && f.date == r.appointment.date
    // nothing else changes
    ensures r.store.settings == st.settings
    ensures r.store.sessionReports == st.sessionReports
    ensures r.store.kanbanTasks == st.kanbanTasks
  {
    var stamp := Decimal(now);
    var found := FindByEmail(st.clients, data.email);
    var clients := if found.Some? then st.clients else st.clients + [NewOnlineClient(stamp, data)];
    var clientId := if found.Some? then st.clients[found.value].id else stamp;
    assert found.Some? ==> clients[found.value].id == clientId;
    assert found.None? ==> clients[|st.clients|].id == clientId;
    assert forall j :: FirstEmailMatch(st.clients, data.email, j) ==> found == Some(j);
    var price := st.settings.defaultPrice;
    var duration := st.settings.defaultDuration;
    var appointment := Appointment("app-" + stamp, clientId, slot.date, slot.time,
                                   BoxBraids, Scheduled, None, price, duration);
    var record := FinancialRecord("f-" + stamp, "Agendamento Online - " + data.name,
                                  price, Income, slot.date, ServiceCategory);
    Booked(st.(clients := clients,
               appointments := st.appointments + [appointment],
               finances := st.finances + [record]),
           appointment)
  }

  // ---------------------------------------------------------------------------
  // Properties relating several bookings or other components
  // ---------------------------------------------------------------------------

  /** Booking keeps every appointment pointing at an existing client. */
  lemma {:induction false} BookingPreservesClientRefs(st: Store, data: ClientData, slot: AppointmentData, now: nat)
    requires ClientRefsValid(st)
    ensures ClientRefsValid(RegisterNewBooking(st, data, slot, now).store)
  {
    var r := RegisterNewBooking(st, data, slot, now);
    forall i | 0 <= i < |r.store.appointments|
      ensures exists j :: 0 <= j < |r.store.clients| && r.store.clients[j].id == r.store.appointments[i].clientId
    {
      if i < |st.appointments| {
        var j :| 0 <= j < |st.clients| && st.clients[j].id == st.appointments[i].clientId;
        assert r.store.clients[j] == st.clients[j] by {
          if NoEmailMatch(st.clients, data.email) {
            assert r.store.clients[..|st.clients|][j] == st.clients[j];
          } else {
            var k :| 0 <= k < |st.clients| && EqualsIgnoreCase(st.clients[k].email, data.email);
            var f := FindByEmail(st.clients, data.email);
            assert FirstEmailMatch(st.clients, data.email, f.value);
          }
        }
        assert r.store.appointments[i] == st.appointments[i];
      } else {
        assert r.store.appointments[i] == r.appointment;
      }
    }
  }

  /**
   Two bookings whose e-mails differ only in case, for a client not known
   before, create exactly one client (with the first booking's name) and two
   appointments that both refer to it.
   */
  lemma {:induction false} RebookingSameEmail(st: Store, first: ClientData, second: ClientData,
                                              slot1: AppointmentData, slot2: AppointmentData, now1: nat, now2: nat)
    requires NoEmailMatch(st.clients, first.email)
    requires EqualsIgnoreCase(first.email, second.email)
    ensures var r1 := RegisterNewBooking(st, first, slot1, now1);
      var r2 := RegisterNewBooking(r1.store, second, slot2, now2);
      && |r2.store.clients| == |st.clients| + 1
      && r2.store.clients[|st.clients|].name == first.name
      && r2.store.clients[|st.clients|].id == r1.appointment.clientId == r2.appointment.clientId
      && r2.store.appointments == st.appointments + [r1.appointment, r2.appointment]
  {
    var r1 := RegisterNewBooking(st, first, slot1, now1);
    var n := |st.clients|;
    assert FirstEmailMatch(r1.store.clients, second.email, n) by {
      forall k | 0 <= k < n ensures !EqualsIgnoreCase(r1.store.clients[k].email, second.email) {
        assert r1.store.clients[k] == r1.store.clients[..n][k] == st.clients[k];
      }
    }
    var r2 := RegisterNewBooking(r1.store, second, slot2, now2);
    assert r2.store.appointments == st.appointments + [r1.appointment] + [r2.appointment];
  }

  /**
   The transaction does not look at availability: booking a slot that an
   active appointment already holds still succeeds and leaves two active
   appointments on that slot, and the slot is no longer offered afterwards.
   */
  lemma {:induction false} BookingSkipsAvailabilityCheck(st: Store, data: ClientData, slot: AppointmentData, now: nat)
    requires Availability.Occupied(st.appointments, slot.date, slot.time)
    ensures var r := RegisterNewBooking(st, data, slot, now);
      exists i, j :: 0 <= i < j < |r.store.appointments|
        && Availability.Holds(r.store.appointments[i], slot.date, slot.time)
        && Availability.Holds(r.store.appointments[j], slot.date, slot.time)
  {
    var r := RegisterNewBooking(st, data, slot, now);
    var i :| 0 <= i < |st.appointments| && Availability.Holds(st.appointments[i], slot.date, slot.time);
    var j := |st.appointments|;
    assert r.store.appointments[i] == st.appointments[i];
    assert r.store.appointments[j] == r.appointment;
  }

  /** Once booked, a slot is no longer offered for that date. */
  lemma {:induction false} BookedSlotNoLongerOffered(st: Store, data: ClientData, slot: AppointmentData, now: nat,
                                                     today: string, clock: Availability.Clock)
    ensures var r := RegisterNewBooking(st, data, slot, now);
      slot.time !in Availability.AvailableTimeSlots(slot.date, today, clock, r.store.appointments)
  {
    var r := RegisterNewBooking(st, data, slot, now);
    Availability.NoHeldSlotOffered(slot.date, today, clock, r.store.appointments, |st.appointments|);
  }
}
