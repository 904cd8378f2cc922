/** The chat service: keyword routing of a message to one tool call, the
    conversation context kept between turns (last message, last response and
    the ten most recent exchanges), and one whole turn from loading the
    session to saving it. The language model's text, the clock, the calendar
    and the notification services are parameters; the JSON encoding of the
    context is a pair of functions the caller supplies. */
module Chat {
  import opened Wrappers
  import opened Text
  import opened Models
  import opened Dates
  import opened Extraction
  import Availability
  import Booking
  import Reports
  import Sessions

  // ---- Routing -----------------------------------------------------------------

  /** The words that make a message an availability request. */
  const AvailabilityWords: seq<string> := ["availability", "available", "check", "free"]

  /** The words that make a doctor's message a report request. */
  const ReportWords: seq<string> := ["report", "patients", "appointments", "summary"]

  /** `any(word in lower for word in words)`. */
  function MentionsAny(lower: string, words: seq<string>): (b: bool)
    ensures b <==> exists k :: 0 <= k < |words| && Contains(lower, words[k])
  {
    FirstMentioned(lower, words).Some?
  }

  /** What a tool call answered, before it is rendered as text. */
  datatype ToolReply =
    | AvailabilityAnswer(doctorName: string, date: string, answer: Availability.AvailabilityReply)
    | BookingAnswer(outcome: Booking.BookingReply)
    /** A booking request that lacks the doctor, the date or the time. */
    | AskForBookingDetails
    | ReportAnswer(report: Reports.ReportReply)
    /** A doctor's account with no doctor profile linked to it. */
    | DoctorProfileMissing

  datatype ToolOutcome = ToolOutcome(store: Store, reply: Option<ToolReply>)

  /** The symptoms text the chat passes to the booking tool: the extracted
      note, or the empty text when there is none. */
  function SymptomsArgument(details: map<string, string>): (s: string)
    ensures "symptoms" in details ==> s == details["symptoms"]
    ensures "symptoms" !in details ==> s == ""
  {
    if "symptoms" in details then details["symptoms"] else ""
  }

  predicate AvailabilityRoute(message: string) {
    MentionsAny(Lower(message), AvailabilityWords)
  }

  predicate BookingRoute(user: User, message: string) {
    !AvailabilityRoute(message) && Contains(Lower(message), "book") && user.role == PatientRole
  }

  predicate ReportRoute(user: User, message: string) {
    && !AvailabilityRoute(message)
    && !(Contains(Lower(message), "book") && user.role == PatientRole)
    && MentionsAny(Lower(message), ReportWords) && user.role == DoctorRole
  }

  /** The availability call for the doctor and date read from the message. */
  function AvailabilityCall(store: Store, req: VisitRequest, calendar: seq<string>): (t: ToolReply)
    ensures t.AvailabilityAnswer? && t.doctorName == req.doctorName && t.date == req.date
    ensures t.answer.DoctorNotFound? <==> DoctorNamed(store, req.doctorName).None?
    ensures t.answer == Availability.Query(store, req.doctorName, req.date, calendar)
  {
    AvailabilityAnswer(req.doctorName, req.date,
                       Availability.Query(store, req.doctorName, req.date, calendar))
  }

  /** The booking call: the booking tool with the extracted details when the
      doctor, date and time are all there, else a request for them. */
  function BookingCall(store: Store, user: User, details: map<string, string>, now: int,
                       email: Booking.Notice, sms: Booking.Notice): (r: ToolOutcome)
    ensures r.reply.Some?
    ensures r.reply.value.AskForBookingDetails? || r.reply.value.BookingAnswer?
    ensures r.reply.value.AskForBookingDetails? <==> !HasCompleteBookingInfo(details)
    ensures r.reply.value.AskForBookingDetails? ==> r.store == store
    ensures r.store.users == store.users && r.store.doctors == store.doctors
    ensures r.store.sessions == store.sessions
    ensures WellFormed(store) ==> WellFormed(r.store)
    ensures r.reply.value.BookingAnswer? ==>
              && HasCompleteBookingInfo(details)
              && var b := Booking.Book(store, user.id, details["time_slot"], details["date"],
                                       details["doctor_name"], Some(SymptomsArgument(details)),
                                       now, email, sms);
                 r.reply.value.outcome == b.reply && r.store == b.store
  {
    if HasCompleteBookingInfo(details) then
      var b := Booking.Book(store, user.id, details["time_slot"], details["date"],
                            details["doctor_name"], Some(SymptomsArgument(details)),
                            now, email, sms);
      ToolOutcome(b.store, Some(BookingAnswer(b.reply)))
    else
      ToolOutcome(store, Some(AskForBookingDetails))
  }

  /** The report call: the doctor profile linked to the account, asked for
      the given report type and date filter. */
  function ReportCall(store: Store, user: User, reportType: string, dateFilter: Option<string>,
                      today: Today): (t: ToolReply)
    ensures t.DoctorProfileMissing? <==> DoctorOfUser(store, user.id).None?
    ensures t.DoctorProfileMissing? || t.ReportAnswer?
    ensures t.ReportAnswer? ==>
              t.report == Reports.Report(store, DoctorOfUser(store, user.id).value.id,
                                         reportType, dateFilter, today)
  {
    match DoctorOfUser(store, user.id)
    case None => DoctorProfileMissing
    case Some(doctor) => ReportAnswer(Reports.Report(store, doctor.id, reportType, dateFilter, today))
  }

  /** `_process_tool_calls(user_id, user, message, ai_response)`: availability
      words win, then `book` from a patient, then report words from a doctor;
      anything else calls no tool. */
  function ProcessToolCalls(store: Store, user: User, message: string, today: Today,
                            calendar: seq<string>, now: int,
                            email: Booking.Notice, sms: Booking.Notice): (r: ToolOutcome)
    ensures AvailabilityRoute(message) ==>
              && r.reply == Some(AvailabilityCall(store, AvailabilityRequest(message, today), calendar))
              && r.store == store
    ensures BookingRoute(user, message) ==>
              r == BookingCall(store, user, BookingDetails(message, today), now, email, sms)
    ensures ReportRoute(user, message) ==>
              && r.reply == Some(ReportCall(store, user, ReportType(message),
                                            DateFilter(message, today), today))
              && r.store == store
    ensures (!AvailabilityRoute(message) && !BookingRoute(user, message)
             && !ReportRoute(user, message)) ==> r.reply.None? && r.store == store
    ensures r.store.users == store.users && r.store.doctors == store.doctors
    ensures r.store.sessions == store.sessions
    ensures WellFormed(store) ==> WellFormed(r.store)
  {
    var lower := Lower(message);
    if MentionsAny(lower, AvailabilityWords) then
      ToolOutcome(store, Some(AvailabilityCall(store, AvailabilityRequest(message, today), calendar)))
    else if Contains(lower, "book") && user.role == PatientRole then
      BookingCall(store, user, BookingDetails(message, today), now, email, sms)
    else if MentionsAny(lower, ReportWords) && user.role == DoctorRole then
      ToolOutcome(store, Some(ReportCall(store, user, ReportType(message),
                                         DateFilter(message, today), today)))
    else
      ToolOutcome(store, None)
  }

  /** A profile found by account is a row of the table, so the reports tool
      finds it by id. */
  lemma ProfileFoundById(store: Store, userId: nat)
    requires DoctorOfUser(store, userId).Some?
    ensures DoctorWithId(store, DoctorOfUser(store, userId).value.id).Some?
  {
    var d := DoctorOfUser(store, userId).value;
    assert d in store.doctors;
    var i :| 0 <= i < |store.doctors| && store.doctors[i] == d;
    assert store.doctors[i].id == d.id;
  }

  /** Every report the chat asks for is refused as an invalid type: the chat
      names its report types differently from the reports tool. */
  lemma ChatReportsAlwaysInvalid(store: Store, user: User, message: string, today: Today,
                                 calendar: seq<string>, now: int,
                                 email: Booking.Notice, sms: Booking.Notice)
    requires ProcessToolCalls(store, user, message, today, calendar, now, email, sms).reply.Some?
    requires ProcessToolCalls(store, user, message, today, calendar, now, email, sms)
               .reply.value.ReportAnswer?
    ensures ProcessToolCalls(store, user, message, today, calendar, now, email, sms)
              .reply.value.report == Reports.InvalidReportType
  {
    assert ReportRoute(user, message);
    ReportCallRefused(store, user, ReportType(message), DateFilter(message, today), today);
  }

  /** A report type the reports tool does not know is refused once the
      doctor's profile is found. */
  lemma ReportCallRefused(store: Store, user: User, reportType: string,
                          dateFilter: Option<string>, today: Today)
    requires reportType !in Reports.ReportTypes
    requires ReportCall(store, user, reportType, dateFilter, today).ReportAnswer?
    ensures ReportCall(store, user, reportType, dateFilter, today).report
            == Reports.InvalidReportType
  {
    ProfileFoundById(store, user.id);
  }

  /** A doctor's message never changes the store, and neither does any
      message that mentions an availability word. */
  lemma OnlyPatientBookingsWrite(store: Store, user: User, message: string, today: Today,
                                 calendar: seq<string>, now: int,
                                 email: Booking.Notice, sms: Booking.Notice)
    requires user.role == DoctorRole || AvailabilityRoute(message)
    ensures ProcessToolCalls(store, user, message, today, calendar, now, email, sms).store == store
  {
  }

  /** What a booking made through the chat records: the converted time, the
      mentioned day, and the symptom note or the empty text. */
  lemma ChatBookingRecordsMessage(store: Store, user: User, message: string, today: Today,
                                  calendar: seq<string>, now: int,
                                  email: Booking.Notice, sms: Booking.Notice)
    requires ProcessToolCalls(store, user, message, today, calendar, now, email, sms).reply.Some?
    requires ProcessToolCalls(store, user, message, today, calendar, now, email, sms)
               .reply.value.BookingAnswer?
    requires ProcessToolCalls(store, user, message, today, calendar, now, email, sms)
               .reply.value.outcome.Booked?
    ensures var a := ProcessToolCalls(store, user, message, today, calendar, now, email, sms)
                       .reply.value.outcome.appointment;
      && a.patientId == user.id
      && a.timeSlot == MentionedSlot(Lower(message)).value
      && a.date == MentionedDay(message, today).value
      && a.symptoms == Some(MentionedSymptoms(Lower(message)).GetOr(""))
      && a.status == "scheduled"
  {
  }

  // ---- Conversation context ------------------------------------------------------

  /** How many exchanges the context keeps. */
  const MaxHistory: nat := 10

  /** What the service answered: a tool's reply, or the model's own text. */
  datatype Response = ToolText(reply: ToolReply) | ModelText(text: string)

  /** One entry of `conversation_history`. The `timestamp` field holds a
      rendering of the context as it stood, not a time. */
  datatype Exchange = Exchange(user: string, assistant: Response, timestamp: string)

  /** The keys the service maintains in the stored context. */
  datatype ChatContext = ChatContext(lastMessage: Option<string>, lastResponse: Option<Response>,
                                     history: seq<Exchange>)

  /** `history[-10:]` when there are more than ten entries, else `history`. */
  function LastExchanges<T>(h: seq<T>): (r: seq<T>)
    ensures |r| == if |h| > MaxHistory then MaxHistory else |h|
    ensures forall i :: 0 <= i < |r| ==> r[i] == h[|h| - |r| + i]
  {
    if |h| > MaxHistory then h[|h| - MaxHistory..] else h
  }

  /** Truncating early and then appending keeps the same last ten as
      appending everything and truncating once. */
  lemma LastExchangesAbsorb<T>(x: seq<T>, y: seq<T>)
    ensures LastExchanges(LastExchanges(x) + y) == LastExchanges(x + y)
  {
    var lx := LastExchanges(x);
    var a := LastExchanges(lx + y);
    var b := LastExchanges(x + y);
    assert |a| == |b|;
    forall i | 0 <= i < |a|
      ensures a[i] == b[i]
    {
      var k := |lx + y| - |a| + i;
      var m := |x + y| - |b| + i;
      if k < |lx| {
        assert a[i] == lx[k] == x[|x| - |lx| + k];
        assert m == |x| - |lx| + k;
      } else {
        assert a[i] == y[k - |lx|];
        assert m - |x| == k - |lx|;
      }
    }
  }

  /** Appending exchanges one at a time, truncating after each. */
  function Replay<T>(h: seq<T>, es: seq<T>): (r: seq<T>)
    ensures |r| <= if |es| == 0 then |h| else MaxHistory
    decreases |es|
  {
    if |es| == 0 then h else Replay(LastExchanges(h + [es[0]]), es[1..])
  }

  /** Turn after turn, the history holds the ten most recent exchanges of
      everything ever recorded. */
  lemma {:induction false} ReplayKeepsLastTen<T>(h: seq<T>, es: seq<T>)
    requires |h| <= MaxHistory
    ensures Replay(h, es) == LastExchanges(h + es)
    decreases |es|
  {
    if |es| == 0 {
      assert h + es == h;
    } else {
      var x := h + [es[0]];
      assert x + es[1..] == h + es;
      calc {
        Replay(h, es);
        Replay(LastExchanges(x), es[1..]);
        { ReplayKeepsLastTen(LastExchanges(x), es[1..]); }
        LastExchanges(LastExchanges(x) + es[1..]);
        { LastExchangesAbsorb(x, es[1..]); }
        LastExchanges(x + es[1..]);
      }
    }
  }

  /** After appending one entry to a non-empty history and truncating, the
      old last entry is second to last and the new one is last. */
  lemma LastTwoAfterAppend<T>(h: seq<T>, e: T)
    requires |h| >= 1
    ensures var r := LastExchanges(h + [e]);
      |r| >= 2 && r[|r| - 2] == h[|h| - 1] && r[|r| - 1] == e
  {
    var r := LastExchanges(h + [e]);
    assert r[|r| - 2] == (h + [e])[|h| - 1];
  }

  /** Updating the context after a turn: the message and response become the
      last ones, and the exchange joins the history, of which the ten most
      recent entries are kept. `show` renders the context for the
      exchange's `timestamp` field. */
  function RecordExchange(c: ChatContext, message: string, response: Response,
                          show: ChatContext -> string): (r: ChatContext)
    ensures r.lastMessage == Some(message) && r.lastResponse == Some(response)
    ensures |r.history| >= 1
    ensures r.history[|r.history| - 1].user == message
    ensures r.history[|r.history| - 1].assistant == response
    ensures r.history[|r.history| - 1].timestamp ==
              show(c.(lastMessage := Some(message), lastResponse := Some(response)))
    ensures r.history == LastExchanges(c.history + [r.history[|r.history| - 1]])
  {
    var updated := c.(lastMessage := Some(message), lastResponse := Some(response));
    var e := Exchange(message, response, show(updated));
    var h := LastExchanges(c.history + [e]);
    assert h[|h| - 1] == e;
    updated.(history := h)
  }

  // ---- One turn ----------------------------------------------------------------

  datatype TurnReply =
    | UserNotFound
    | Answered(response: Response, context: ChatContext)

  datatype TurnResult = TurnResult(store: Store, reply: TurnReply)

  /** The response of a turn: the tool's reply when a tool was called, else
      the model's text. */
  function ResponseOf(tools: Option<ToolReply>, modelText: string): (r: Response)
    ensures tools.Some? <==> r.ToolText?
    ensures tools.Some? ==> r.reply == tools.value
    ensures tools.None? ==> r.text == modelText
  {
    match tools
    case Some(t) => ToolText(t)
    case None => ModelText(modelText)
  }

  /** The blobs depend on the sessions table alone. */
  lemma BlobsFollowSessions(s: Store, t: Store)
    requires s.sessions == t.sessions
    ensures forall u :: Sessions.Blob(s, u) == Sessions.Blob(t, u)
  {
  }

  /** The end of a turn: record the exchange in the loaded context and save
      the context for the user with `update`. */
  function Conclude(store: Store, userId: nat, loaded: ChatContext, message: string,
                    response: Response, now: int, encode: ChatContext -> string,
                    show: ChatContext -> string): (r: TurnResult)
    requires HasUser(store, userId)
    ensures r.reply == Answered(response, RecordExchange(loaded, message, response, show))
    ensures Sessions.Blob(r.store, userId) == Sessions.StoredBlob(Some(encode(r.reply.context)))
    ensures forall u :: u != userId ==> Sessions.Blob(r.store, u) == Sessions.Blob(store, u)
    ensures r.store.users == store.users && r.store.doctors == store.doctors
    ensures r.store.appointments == store.appointments
    ensures WellFormed(store) ==> WellFormed(r.store)
  {
    var context := RecordExchange(loaded, message, response, show);
    var saved := Sessions.Manage(store, userId, "update", Some(encode(context)), now);
    TurnResult(saved.store, Answered(response, context))
  }

  /** `process_chat_message(user_id, message)`: look the user up, load the
      stored context, route the message, record the exchange and save the
      context with `update`. */
  function ChatTurn(store: Store, userId: nat, message: string, modelText: string, today: Today,
                    calendar: seq<string>, now: int, email: Booking.Notice, sms: Booking.Notice,
                    decode: string -> ChatContext, encode: ChatContext -> string,
                    show: ChatContext -> string): (r: TurnResult)
    ensures r.reply.UserNotFound? <==> UserWithId(store, userId).None?
    ensures r.reply.UserNotFound? ==> r.store == store
    ensures r.reply.Answered? ==>
              var tools := ProcessToolCalls(store, UserWithId(store, userId).value, message, today,
                                            calendar, now, email, sms);
              && r.reply.response == ResponseOf(tools.reply, modelText)
              && r.reply.context
                 == RecordExchange(decode(Sessions.Blob(store, userId)), message,
                                   r.reply.response, show)
              && Sessions.Blob(r.store, userId) == Sessions.StoredBlob(Some(encode(r.reply.context)))
              && r.store.users == store.users && r.store.doctors == store.doctors
              && r.store.appointments == tools.store.appointments
    ensures forall u :: u != userId ==> Sessions.Blob(r.store, u) == Sessions.Blob(store, u)
    ensures WellFormed(store) ==> WellFormed(r.store)
  {
    match UserWithId(store, userId)
    case None => TurnResult(store, UserNotFound)
    case Some(user) =>
      var tools := ProcessToolCalls(store, user, message, today, calendar, now, email, sms);
      assert HasUser(tools.store, userId) by {
        var i :| 0 <= i < |store.users| && store.users[i] == user;
        assert tools.store.users[i] == user;
      }
      BlobsFollowSessions(store, tools.store);
      Conclude(tools.store, userId, decode(Sessions.Blob(store, userId)), message,
               ResponseOf(tools.reply, modelText), now, encode, show)
  }

  /** What a turn saves is what the next turn loads, when the encoding of
      the context decodes back to it. */
  lemma SavedContextIsLoaded(store: Store, userId: nat, loaded: ChatContext, message: string,
                             response: Response, now: int, decode: string -> ChatContext,
                             encode: ChatContext -> string, show: ChatContext -> string)
    requires HasUser(store, userId)
    requires var c := RecordExchange(loaded, message, response, show);
      encode(c) != "" && decode(encode(c)) == c
    ensures var r := Conclude(store, userId, loaded, message, response, now, encode, show);
      && HasUser(r.store, userId)
      && decode(Sessions.Blob(r.store, userId)) == r.reply.context
  {
    var r := Conclude(store, userId, loaded, message, response, now, encode, show);
    assert r.store.users == store.users;
  }

  /** Two turns in a row: the second turn's history ends with the first
      turn's exchange followed by its own. */
  lemma NextTurnRemembers(c: ChatContext, message: string, response: Response,
                          message': string, response': Response, show: ChatContext -> string)
    ensures var c1 := RecordExchange(c, message, response, show);
      var h := RecordExchange(c1, message', response', show).history;
      && |h| >= 2
      && h[|h| - 2] == c1.history[|c1.history| - 1]
      && h[|h| - 2].user == message && h[|h| - 2].assistant == response
      && h[|h| - 1].user == message' && h[|h| - 1].assistant == response'
  {
    var c1 := RecordExchange(c, message, response, show);
    var h := RecordExchange(c1, message', response', show).history;
    LastTwoAfterAppend(c1.history, h[|h| - 1]);
  }
}
