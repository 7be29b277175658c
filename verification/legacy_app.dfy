/**
 The older single-file application shell keeps its own copy of the booking
 transaction. It is modelled here the way that copy is written, with the
 client lookup returning the client record itself as `Array.prototype.find`
 does, and shown to agree with the state container's transaction.
 */
module LegacyApp {
  import opened Types
  import opened Text
  import Booking

  /** `clients.find(c => c.email.toLowerCase() === email.toLowerCase())` */
  function FindClient(clients: seq<Client>, email: string): Option<Client> {
    if |clients| == 0 then None
    else if Lower(clients[0].email) == Lower(email) then Some(clients[0])
    else FindClient(clients[1..], email)
  }

  /** The record `find` returns is the one at the index the state container's lookup reports. */
  lemma {:induction false} FindClientAgrees(clients: seq<Client>, email: string)
    ensures FindClient(clients, email) ==
      match Booking.FindByEmail(clients, email)
      case None => None
      case Some(i) => Some(clients[i])
  {
    if |clients| > 0 && Lower(clients[0].email) != Lower(email) {
      FindClientAgrees(clients[1..], email);
    }
  }

  /** `registerNewBooking(clientData, appointmentData)` as written in the legacy shell. */
  function RegisterNewBooking(st: Store, data: Booking.ClientData, slot: Booking.AppointmentData, now: nat): (r: Booking.Booked)
    ensures r == Booking.RegisterNewBooking(st, data, slot, now)
    ensures forall j :: Booking.FirstEmailMatch(st.clients, data.email, j) ==>
      r.store.clients == st.clients && r.appointment.clientId == st.clients[j].id
    ensures Booking.NoEmailMatch(st.clients, data.email) ==>
      && r.store.clients[..|st.clients|] == st.clients
      && r.store.clients[|st.clients|].status == Pending
      && r.store.clients[|st.clients|].treatmentStage == FirstContact
      && r.store.clients[|st.clients|].address == Booking.PendingAddress
    ensures r.store.appointments == st.appointments + [r.appointment]
    ensures r.appointment.service == BoxBraids && r.appointment.status == Scheduled
    ensures r.appointment.price == st.settings.defaultPrice
    ensures r.appointment.duration == st.settings.defaultDuration
    ensures r.store.finances[..|st.finances|] == st.finances
    ensures r.store.finances[|st.finances|].amount == r.appointment.price
    ensures r.store.finances[|st.finances|].date == r.appointment.date
  {
    var existingClient := FindClient(st.clients, data.email);
    FindClientAgrees(st.clients, data.email);
    var clientId := if existingClient.None? then Decimal(now) else existingClient.value.id;
    var clients := if existingClient.None? then
      st.clients + [Client(clientId, data.name, "A combinar", data.phone, data.email, Pending, None, FirstContact)]
    else st.clients;
    var price := st.settings.defaultPrice;
    var duration := st.settings.defaultDuration;
    var newAppointment := Appointment("app-" + Decimal(now), clientId, slot.date, slot.time,
                                      BoxBraids, Scheduled, None, price, duration);
    var newFinancialRecord := FinancialRecord("f-" + Decimal(now), "Agendamento Online - " + data.name,
                                              price, Income, slot.date, "Servi\U{00E7}o");
    Booking.Booked(
      st.(clients := clients,
          appointments := st.appointments + [newAppointment],
          finances := st.finances + [newFinancialRecord]),
      newAppointment)
  }
}
