/** The availability tool: the free 30-minute slots of a doctor, found by name,
    on one date. A slot is taken when any local appointment of that doctor on
    that date holds it, whatever the appointment's status, or when the external
    calendar reports it. */
module Availability {
  import opened Wrappers
  import opened Models
  import opened Slots

  /** The time slots held on `date` by appointments of doctor `doctorId`.
      The query does not look at `status`: a cancelled appointment still holds its slot. */
  function LocalBooked(appts: seq<Appointment>, doctorId: nat, date: string): set<string> {
    set a | a in appts && a.doctorId == doctorId && a.date == date :: a.timeSlot
  }

  /** Local bookings together with the slots the external calendar reports
      (an empty sequence when the calendar is unconfigured or fails). */
  function Booked(store: Store, doctorId: nat, date: string, calendar: seq<string>): set<string> {
    LocalBooked(store.appointments, doctorId, date) + (set c | c in calendar)
  }

  /** What the tool answers: the doctor is unknown, or these slots are free. */
  datatype AvailabilityReply = DoctorNotFound(name: string) | Open(slots: seq<string>)

  /** `availability_tool(doctor_name, date)` with the calendar's answer as a parameter. */
  function Query(store: Store, doctorName: string, date: string, calendar: seq<string>)
    : (r: AvailabilityReply)
    ensures r.DoctorNotFound? <==> DoctorNamed(store, doctorName).None?
    ensures r.DoctorNotFound? ==> r.name == doctorName
    ensures r.Open? ==>
              var d := DoctorNamed(store, doctorName).value;
              forall s :: s in r.slots <==>
                s in Grid() && s !in LocalBooked(store.appointments, d.id, date) && s !in calendar
    ensures r.Open? ==> Ascending(r.slots) && "17:00" !in r.slots && |r.slots| <= 16
  {
    match DoctorNamed(store, doctorName)
    case None => DoctorNotFound(doctorName)
    case Some(d) =>
      var booked := Booked(store, d.id, date, calendar);
      GridAscending();
      FreeSlotsAscending(Grid(), booked);
      FreeSlotsMembers(Grid(), booked);
      Open(FreeSlots(Grid(), booked))
  }

  /** A doctor with nothing booked locally or in the calendar on `date` is
      offered the whole grid: sixteen slots from 09:00 to 16:30. */
  lemma EmptyDayOffersWholeGrid(store: Store, doctorName: string, date: string)
    requires DoctorNamed(store, doctorName).Some?
    requires forall a :: a in store.appointments ==>
               a.doctorId != DoctorNamed(store, doctorName).value.id || a.date != date
    ensures Query(store, doctorName, date, []) == Open(Grid())
    ensures |Grid()| == 16 && Grid()[0] == "09:00" && Grid()[15] == "16:30"
  {
    var d := DoctorNamed(store, doctorName).value;
    assert Booked(store, d.id, date, []) == {};
    FreeSlotsNoneBooked(Grid());
    GridEnds();
  }

  /** Any appointment holds its slot, cancelled or not: the slot is not offered. */
  lemma AnyStatusBlocks(store: Store, doctorName: string, date: string, calendar: seq<string>,
                        a: Appointment)
    requires DoctorNamed(store, doctorName).Some?
    requires a in store.appointments
    requires a.doctorId == DoctorNamed(store, doctorName).value.id && a.date == date
    ensures a.timeSlot !in Query(store, doctorName, date, calendar).slots
  {
  }
}
