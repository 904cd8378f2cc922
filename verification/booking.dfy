/** The booking tool: check the patient, check the doctor (by name), refuse a
    slot some appointment already holds, and only then append the new row.
    The confirmation e-mail and SMS are sent after the commit; their outcomes
    are reported but never undo the booking. */
module Booking {
  import opened Wrappers
  import opened Models
  import opened Slots
  import Availability

  /** The outcome of one outbound notification, as the external service reports it. */
  datatype Notice = Sent | NotConfigured | Failed(reason: string)

  /** The SMS number used for every patient: `User` has no phone column, so the
      attribute lookup always falls back to this literal. */
  const FallbackPhone: string := "+1234567890"

  datatype BookingReply =
    | PatientNotFound
    | DoctorNotFound(name: string)
    | SlotTaken(timeSlot: string, date: string, doctorName: string)
    | Booked(appointment: Appointment, emailTo: string, email: Notice, smsTo: string, sms: Notice)

  /** The store after the call, and the reply. */
  datatype Booking = Booking(store: Store, reply: BookingReply)

  /** Some appointment of doctor `doctorId` holds `timeSlot` on `date`, whatever its status. */
  predicate SlotHeld(appts: seq<Appointment>, doctorId: nat, date: string, timeSlot: string) {
    exists i :: 0 <= i < |appts| &&
      appts[i].doctorId == doctorId && appts[i].date == date && appts[i].timeSlot == timeSlot
  }

  /** `booking_tool(user_id, time_slot, date, doctor_name, symptoms)`. The e-mail
      and SMS outcomes are parameters: they come from outside services. */
  function Book(store: Store, userId: nat, timeSlot: string, date: string, doctorName: string,
                symptoms: Option<string>, now: int, email: Notice, sms: Notice): (b: Booking)
    ensures !b.reply.Booked? ==> b.store == store
    ensures b.reply.PatientNotFound? <==> UserWithId(store, userId).None?
    ensures b.reply.DoctorNotFound? <==>
              UserWithId(store, userId).Some? && DoctorNamed(store, doctorName).None?
    ensures b.reply.SlotTaken? <==>
              && UserWithId(store, userId).Some? && DoctorNamed(store, doctorName).Some?
              && SlotHeld(store.appointments, DoctorNamed(store, doctorName).value.id, date, timeSlot)
    ensures b.reply.Booked? ==>
              && b.store == store.(appointments := store.appointments + [b.reply.appointment])
              && b.reply.appointment.patientId == userId
              && b.reply.appointment.doctorId == DoctorNamed(store, doctorName).value.id
              && b.reply.appointment.date == date
              && b.reply.appointment.timeSlot == timeSlot
              && b.reply.appointment.symptoms == symptoms
              && b.reply.appointment.status == "scheduled"
    ensures b.reply.Booked? ==>
              && b.reply.emailTo == UserWithId(store, userId).value.email && b.reply.email == email
              && b.reply.smsTo == FallbackPhone && b.reply.sms == sms
    ensures WellFormed(store) ==> WellFormed(b.store)
  {
    match UserWithId(store, userId)
    case None => Booking(store, PatientNotFound)
    case Some(patient) =>
      match DoctorNamed(store, doctorName)
      case None => Booking(store, DoctorNotFound(doctorName))
      case Some(doctor) =>
        if SlotHeld(store.appointments, doctor.id, date, timeSlot) then
          Booking(store, SlotTaken(timeSlot, date, doctorName))
        else
          match InsertAppointment(store, userId, doctor.id, date, timeSlot, symptoms, now)
          case Refused(_) => assert false; Booking(store, PatientNotFound)
          case Committed(s', row) =>
            Booking(s', Booked(row, patient.email, email, FallbackPhone, sms))
  }

  /** Notifications happen after the commit: whatever the e-mail and SMS
      services answer, the booking and the resulting store are the same. */
  lemma NotificationsCannotUndo(store: Store, userId: nat, timeSlot: string, date: string,
                                doctorName: string, symptoms: Option<string>, now: int,
                                e1: Notice, s1: Notice, e2: Notice, s2: Notice)
    ensures Book(store, userId, timeSlot, date, doctorName, symptoms, now, e1, s1).store
         == Book(store, userId, timeSlot, date, doctorName, symptoms, now, e2, s2).store
    ensures Book(store, userId, timeSlot, date, doctorName, symptoms, now, e1, s1).reply.Booked?
        <== Book(store, userId, timeSlot, date, doctorName, symptoms, now, e2, s2).reply.Booked?
  {
  }

  /** A slot the availability tool offers can be booked by any existing user. */
  lemma OfferedSlotCanBeBooked(store: Store, userId: nat, timeSlot: string, date: string,
                               doctorName: string, calendar: seq<string>,
                               symptoms: Option<string>, now: int, email: Notice, sms: Notice)
    requires UserWithId(store, userId).Some?
    requires Availability.Query(store, doctorName, date, calendar).Open?
    requires timeSlot in Availability.Query(store, doctorName, date, calendar).slots
    ensures Book(store, userId, timeSlot, date, doctorName, symptoms, now, email, sms).reply.Booked?
  {
    var d := DoctorNamed(store, doctorName).value;
    assert timeSlot !in Availability.LocalBooked(store.appointments, d.id, date);
    forall i | 0 <= i < |store.appointments| && store.appointments[i].doctorId == d.id
                 && store.appointments[i].date == date
      ensures store.appointments[i].timeSlot != timeSlot
    {
      assert store.appointments[i] in store.appointments;
    }
  }

  /** After a successful booking the slot is no longer offered, and booking the
      same (doctor, date, slot) again is refused and changes nothing. */
  lemma BookedSlotIsTaken(store: Store, userId: nat, timeSlot: string, date: string,
                          doctorName: string, symptoms: Option<string>, now: int,
                          email: Notice, sms: Notice,
                          calendar: seq<string>, otherUser: nat, now': int)
    requires Book(store, userId, timeSlot, date, doctorName, symptoms, now, email, sms).reply.Booked?
    requires UserWithId(store, otherUser).Some?
    ensures var s' := Book(store, userId, timeSlot, date, doctorName, symptoms, now, email, sms).store;
      && Availability.Query(s', doctorName, date, calendar).Open?
      && timeSlot !in Availability.Query(s', doctorName, date, calendar).slots
      && Book(s', otherUser, timeSlot, date, doctorName, None, now', email, sms).reply.SlotTaken?
      && Book(s', otherUser, timeSlot, date, doctorName, None, now', email, sms).store == s'
  {
    var b := Book(store, userId, timeSlot, date, doctorName, symptoms, now, email, sms);
    var s' := b.store;
    var row := b.reply.appointment;
    assert s'.users == store.users && s'.doctors == store.doctors;
    assert UserWithId(s', otherUser) == UserWithId(store, otherUser);
    assert s'.appointments[|store.appointments|] == row;
    assert row in s'.appointments;
  }

  /** The booking tool does not check the grid: an unheld slot such as 17:00,
      which availability never offers, is accepted. */
  lemma OffGridSlotAccepted(store: Store, userId: nat, date: string, doctorName: string,
                            now: int, email: Notice, sms: Notice)
    requires UserWithId(store, userId).Some? && DoctorNamed(store, doctorName).Some?
    requires !SlotHeld(store.appointments, DoctorNamed(store, doctorName).value.id, date, "17:00")
    ensures "17:00" !in Grid()
    ensures Book(store, userId, "17:00", date, doctorName, None, now, email, sms).reply.Booked?
  {
    GridAscending();
  }

  /** No two appointments share doctor, date and slot. */
  predicate NoDoubleBooking(appts: seq<Appointment>) {
    forall i, j :: 0 <= i < j < |appts| ==>
      appts[i].doctorId != appts[j].doctorId || appts[i].date != appts[j].date
      || appts[i].timeSlot != appts[j].timeSlot
  }

  /** Taken one call at a time, booking keeps every (doctor, date, slot) held by at
      most one appointment. Concurrent calls are outside this model. */
  lemma BookingKeepsSlotsUnique(store: Store, userId: nat, timeSlot: string, date: string,
                                doctorName: string, symptoms: Option<string>, now: int,
                                email: Notice, sms: Notice)
    requires NoDoubleBooking(store.appointments)
    ensures NoDoubleBooking(Book(store, userId, timeSlot, date, doctorName, symptoms, now,
                                 email, sms).store.appointments)
  {
    var b := Book(store, userId, timeSlot, date, doctorName, symptoms, now, email, sms);
    if b.reply.Booked? {
      var appts := b.store.appointments;
      var n := |store.appointments|;
      forall i, j | 0 <= i < j < |appts|
        ensures appts[i].doctorId != appts[j].doctorId || appts[i].date != appts[j].date
                || appts[i].timeSlot != appts[j].timeSlot
      {
        if j == n {
          assert appts[i] == store.appointments[i];
        } else {
          assert appts[i] == store.appointments[i] && appts[j] == store.appointments[j];
        }
      }
    }
  }
}
