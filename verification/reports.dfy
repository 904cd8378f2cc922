/** The doctor reports tool: four report types over one doctor's appointments,
    each a query the database answers with all matching rows. The clock
    reading `today` is a parameter. */
module Reports {
  import opened Wrappers
  import opened Text
  import opened Models
  import opened Dates
  import Booking

  /** The report types the tool accepts. */
  const ReportTypes: set<string> :=
    {"daily_summary", "yesterday_visits", "today_tomorrow_appointments", "symptom_analysis"}

  /** `symptoms ILIKE '%filter%'`: the column is set and contains the filter,
      ignoring case. */
  predicate SymptomMatch(a: Appointment, filter: string) {
    a.symptoms.Some? && Contains(Lower(a.symptoms.value), Lower(filter))
  }

  /** The condition of the symptom query: doctor `doctorId`'s appointment whose
      symptoms mention `filter`. */
  function SymptomQuery(doctorId: nat, filter: string): Appointment -> bool {
    (a: Appointment) => a.doctorId == doctorId && SymptomMatch(a, filter)
  }

  /** The appointments of doctor `doctorId` on `date`, in table order. */
  function OnDay(appts: seq<Appointment>, doctorId: nat, date: string): (r: seq<Appointment>)
    ensures forall a :: a in r <==> a in appts && a.doctorId == doctorId && a.date == date
    ensures Selects(r, appts, (a: Appointment) => a.doctorId == doctorId && a.date == date)
  {
    var rows := Filter(appts, (a: Appointment) => a.doctorId == doctorId && a.date == date);
    FilterMultiset(appts, (a: Appointment) => a.doctorId == doctorId && a.date == date);
    assert forall a :: a in rows ==> exists i :: 0 <= i < |rows| && rows[i] == a;
    assert forall a :: a in appts ==> exists i :: 0 <= i < |appts| && appts[i] == a;
    rows
  }

  /** The rows among `rows` whose status is `status`. */
  function WithStatus(rows: seq<Appointment>, status: string): seq<Appointment> {
    Filter(rows, (a: Appointment) => a.status == status)
  }

  datatype ReportReply =
    | DoctorNotFound
    | DailySummary(doctorName: string, date: string, rows: seq<Appointment>,
                   completed: nat, scheduled: nat)
    | YesterdayVisits(doctorName: string, date: string, rows: seq<Appointment>)
    | TodayTomorrow(doctorName: string, today: string, todayRows: seq<Appointment>,
                    tomorrow: string, tomorrowRows: seq<Appointment>)
    | SymptomCases(doctorName: string, filter: string, rows: seq<Appointment>)
    | InvalidReportType

  /** The daily summary: every appointment of the doctor on the requested day
      (today when no date is given), and how many are completed and scheduled. */
  function DailySummaryOf(appts: seq<Appointment>, doctorId: nat, doctorName: string,
                          dateFilter: Option<string>, today: Today): (r: ReportReply)
    ensures r.DailySummary? && r.doctorName == doctorName
    ensures r.date == OrElse(dateFilter, IsoDate(today))
    ensures forall a :: a in r.rows <==> a in appts && a.doctorId == doctorId && a.date == r.date
    ensures Selects(r.rows, appts, (a: Appointment) => a.doctorId == doctorId && a.date == r.date)
    ensures r.completed == |WithStatus(r.rows, "completed")|
    ensures r.scheduled == |WithStatus(r.rows, "scheduled")|
    ensures r.completed + r.scheduled <= |r.rows|
  {
    var target := OrElse(dateFilter, IsoDate(today));
    var rows := OnDay(appts, doctorId, target);
    FilterDisjointCounts(rows, (a: Appointment) => a.status == "completed",
                         (a: Appointment) => a.status == "scheduled");
    DailySummary(doctorName, target, rows,
                 |WithStatus(rows, "completed")|, |WithStatus(rows, "scheduled")|)
  }

  /** The completed appointments of doctor `doctorId` on `date`, in table order. */
  function CompletedOnDay(appts: seq<Appointment>, doctorId: nat, date: string)
    : (r: seq<Appointment>)
    ensures forall a :: a in r <==>
              a in appts && a.doctorId == doctorId && a.date == date && a.status == "completed"
    ensures Selects(r, appts, (a: Appointment) =>
              a.doctorId == doctorId && a.date == date && a.status == "completed")
  {
    var p := (a: Appointment) => a.doctorId == doctorId && a.date == date;
    var q := (a: Appointment) => a.status == "completed";
    var day := OnDay(appts, doctorId, date);
    var rows := WithStatus(day, "completed");
    FilterMultiset(day, q);
    SelectsTwice(rows, day, appts, p, q);
    forall a
      ensures multiset(rows)[a] == if p(a) && q(a) then multiset(appts)[a] else 0
      ensures a in rows <==> a in appts && p(a) && q(a)
    {
    }
    rows
  }

  /** Yesterday's completed visits of the doctor. */
  function YesterdayOf(appts: seq<Appointment>, doctorId: nat, doctorName: string, today: Today)
    : (r: ReportReply)
    ensures r.YesterdayVisits? && r.doctorName == doctorName
    ensures r.date == IsoDate(today - 1) && r.date != IsoDate(today)
    ensures forall a :: a in r.rows <==>
              a in appts && a.doctorId == doctorId && a.date == r.date && a.status == "completed"
    ensures Selects(r.rows, appts, (a: Appointment) =>
              a.doctorId == doctorId && a.date == r.date && a.status == "completed")
  {
    var date := IsoDate(today - 1);
    IsoDateInjective(today - 1, today);
    YesterdayVisits(doctorName, date, CompletedOnDay(appts, doctorId, date))
  }

  /** The doctor's appointments today and tomorrow, two distinct days. */
  function TodayTomorrowOf(appts: seq<Appointment>, doctorId: nat, doctorName: string,
                           today: Today): (r: ReportReply)
    ensures r.TodayTomorrow? && r.doctorName == doctorName
    ensures r.today == IsoDate(today) && r.tomorrow == IsoDate(today + 1)
    ensures r.today != r.tomorrow
    ensures forall a :: a in r.todayRows <==> a in appts && a.doctorId == doctorId && a.date == r.today
    ensures forall a :: a in r.tomorrowRows <==>
              a in appts && a.doctorId == doctorId && a.date == r.tomorrow
    ensures Selects(r.todayRows, appts, (a: Appointment) => a.doctorId == doctorId && a.date == r.today)
    ensures Selects(r.tomorrowRows, appts,
                    (a: Appointment) => a.doctorId == doctorId && a.date == r.tomorrow)
  {
    IsoDateInjective(today, today + 1);
    TodayTomorrow(doctorName, IsoDate(today), OnDay(appts, doctorId, IsoDate(today)),
                  IsoDate(today + 1), OnDay(appts, doctorId, IsoDate(today + 1)))
  }

  /** The doctor's appointments whose symptoms mention the filter (`fever` by default). */
  function SymptomCasesOf(appts: seq<Appointment>, doctorId: nat, doctorName: string,
                          dateFilter: Option<string>): (r: ReportReply)
    ensures r.SymptomCases? && r.doctorName == doctorName
    ensures r.filter == OrElse(dateFilter, "fever") && r.filter != ""
    ensures forall a :: a in r.rows <==> a in appts && a.doctorId == doctorId && SymptomMatch(a, r.filter)
    ensures Selects(r.rows, appts, SymptomQuery(doctorId, r.filter))
  {
    var filter := OrElse(dateFilter, "fever");
    var rows := Filter(appts, SymptomQuery(doctorId, filter));
    FilterMultiset(appts, SymptomQuery(doctorId, filter));
    assert forall a :: a in rows ==> exists i :: 0 <= i < |rows| && rows[i] == a;
    assert forall a :: a in appts ==> exists i :: 0 <= i < |appts| && appts[i] == a;
    SymptomCases(doctorName, filter, rows)
  }

  /** `doctor_reports_tool(doctor_id, report_type, date_filter)`: the doctor
      check comes first, then the report type. The SMS the daily summary sends
      to the doctor does not affect the reply. */
  function Report(store: Store, doctorId: nat, reportType: string, dateFilter: Option<string>,
                  today: Today): (r: ReportReply)
    ensures r.DoctorNotFound? <==> DoctorWithId(store, doctorId).None?
    ensures r.InvalidReportType? <==>
              DoctorWithId(store, doctorId).Some? && reportType !in ReportTypes
    ensures r.DailySummary? <==>
              DoctorWithId(store, doctorId).Some? && reportType == "daily_summary"
    ensures r.YesterdayVisits? <==>
              DoctorWithId(store, doctorId).Some? && reportType == "yesterday_visits"
    ensures r.TodayTomorrow? <==>
              DoctorWithId(store, doctorId).Some? && reportType == "today_tomorrow_appointments"
    ensures r.SymptomCases? <==>
              DoctorWithId(store, doctorId).Some? && reportType == "symptom_analysis"
    ensures !r.DoctorNotFound? && !r.InvalidReportType? ==>
              r.doctorName == DoctorWithId(store, doctorId).value.name
    ensures r.DailySummary? ==> r == DailySummaryOf(store.appointments, doctorId, r.doctorName,
                                                    dateFilter, today)
    ensures r.YesterdayVisits? ==> r == YesterdayOf(store.appointments, doctorId, r.doctorName, today)
    ensures r.TodayTomorrow? ==>
              r == TodayTomorrowOf(store.appointments, doctorId, r.doctorName, today)
    ensures r.SymptomCases? ==>
              r == SymptomCasesOf(store.appointments, doctorId, r.doctorName, dateFilter)
  {
    match DoctorWithId(store, doctorId)
    case None => DoctorNotFound
    case Some(doctor) =>
      if reportType == "daily_summary" then
        DailySummaryOf(store.appointments, doctorId, doctor.name, dateFilter, today)
      else if reportType == "yesterday_visits" then
        YesterdayOf(store.appointments, doctorId, doctor.name, today)
      else if reportType == "today_tomorrow_appointments" then
        TodayTomorrowOf(store.appointments, doctorId, doctor.name, today)
      else if reportType == "symptom_analysis" then
        SymptomCasesOf(store.appointments, doctorId, doctor.name, dateFilter)
      else
        InvalidReportType
  }

  /** Appending a scheduled row for the doctor on the summarised day adds one
      row and one scheduled appointment to the summary. */
  lemma DailySummaryGrows(appts: seq<Appointment>, row: Appointment, doctorId: nat,
                          doctorName: string, date: string, today: Today)
    requires row.doctorId == doctorId && row.date == date && row.status == "scheduled"
    requires date != ""
    ensures var before := DailySummaryOf(appts, doctorId, doctorName, Some(date), today);
      var after := DailySummaryOf(appts + [row], doctorId, doctorName, Some(date), today);
      && |after.rows| == |before.rows| + 1
      && after.scheduled == before.scheduled + 1
      && after.completed == before.completed
  {
    var p := (a: Appointment) => a.doctorId == doctorId && a.date == date;
    assert DailySummaryOf(appts, doctorId, doctorName, Some(date), today).date == date;
    FilterAppend(appts, row, p);
    var rows := OnDay(appts, doctorId, date);
    assert OnDay(appts + [row], doctorId, date) == rows + [row];
    FilterAppend(rows, row, (a: Appointment) => a.status == "completed");
    FilterAppend(rows, row, (a: Appointment) => a.status == "scheduled");
  }

  /** A successful booking shows up in that day's summary for the doctor:
      one more row, one more scheduled, as many completed as before. */
  lemma BookingCountsInDailySummary(store: Store, userId: nat, timeSlot: string, date: string,
                                    doctorName: string, symptoms: Option<string>, now: int,
                                    email: Booking.Notice, sms: Booking.Notice, today: Today)
    requires date != ""
    requires Booking.Book(store, userId, timeSlot, date, doctorName, symptoms, now,
                          email, sms).reply.Booked?
    ensures var id := DoctorNamed(store, doctorName).value.id;
      var s' := Booking.Book(store, userId, timeSlot, date, doctorName, symptoms, now,
                             email, sms).store;
      var before := Report(store, id, "daily_summary", Some(date), today);
      var after := Report(s', id, "daily_summary", Some(date), today);
      && before.DailySummary? && after.DailySummary?
      && |after.rows| == |before.rows| + 1
      && after.scheduled == before.scheduled + 1
      && after.completed == before.completed
  {
    var d := DoctorNamed(store, doctorName).value;
    var b := Booking.Book(store, userId, timeSlot, date, doctorName, symptoms, now, email, sms);
    assert d in store.doctors;
    assert DoctorWithId(store, d.id).Some?;
    assert b.store.doctors == store.doctors;
    DailySummaryGrows(store.appointments, b.reply.appointment, d.id,
                      DoctorWithId(store, d.id).value.name, date, today);
  }

  /** The symptom filter ignores case: a filter and its lower-cased form
      select the same appointments. */
  lemma SymptomFilterIgnoresCase(store: Store, doctorId: nat, filter: string, today: Today)
    requires filter != ""
    requires DoctorWithId(store, doctorId).Some?
    ensures Report(store, doctorId, "symptom_analysis", Some(filter), today).rows
         == Report(store, doctorId, "symptom_analysis", Some(Lower(filter)), today).rows
  {
    var name := DoctorWithId(store, doctorId).value.name;
    assert Report(store, doctorId, "symptom_analysis", Some(filter), today)
        == SymptomCasesOf(store.appointments, doctorId, name, Some(filter));
    assert Report(store, doctorId, "symptom_analysis", Some(Lower(filter)), today)
        == SymptomCasesOf(store.appointments, doctorId, name, Some(Lower(filter)));
    LowerIdempotent(filter);
    FilterSame(store.appointments, SymptomQuery(doctorId, filter),
               SymptomQuery(doctorId, Lower(filter)));
  }

  /** One day later, the completed rows among today's appointments are exactly
      what the yesterday report lists. */
  lemma YesterdayIsPreviousToday(store: Store, doctorId: nat, t: Today)
    requires t + 1 < MaxOrdinal
    requires DoctorWithId(store, doctorId).Some?
    ensures Report(store, doctorId, "yesterday_visits", None, t + 1).rows
         == WithStatus(Report(store, doctorId, "today_tomorrow_appointments", None, t).todayRows,
                       "completed")
  {
  }
}
