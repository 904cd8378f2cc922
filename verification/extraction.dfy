/** What the chat service reads out of a message before it calls a tool: the
    doctor's name, the date, the time slot (converted from a 12-hour clock),
    the first symptom keyword, the report type and the report's date filter.
    Keyword tests run on the lower-cased message. */
module Extraction {
  import opened Wrappers
  import opened Text
  import opened Dates
  import opened Patterns
  import Slots
  import Reports

  // ---- Names -------------------------------------------------------------------

  predicate IsLetter(c: char) {
    ('a' <= c <= 'z') || ('A' <= c <= 'Z')
  }

  predicate IsUpper(c: char) {
    'A' <= c <= 'Z'
  }

  function UpperChar(c: char): char {
    if 'a' <= c <= 'z' then (c as int - 32) as char else c
  }

  /** `str.title()` on ASCII text: a letter that starts the text or follows a
      non-letter is upper-cased, every other letter lower-cased. */
  function Title(s: string): (r: string)
    ensures |r| == |s|
    ensures forall i :: 0 <= i < |s| && !IsLetter(s[i]) ==> r[i] == s[i]
    ensures forall i :: 0 <= i < |s| ==> LowerChar(r[i]) == LowerChar(s[i])
    ensures forall i :: 0 <= i < |s| ==> (IsLetter(r[i]) <==> IsLetter(s[i]))
    ensures forall i :: 0 <= i < |r| && IsLetter(r[i]) ==>
              (IsUpper(r[i]) <==> i == 0 || !IsLetter(r[i - 1]))
  {
    var r := seq(|s|, i requires 0 <= i < |s| =>
      if !IsLetter(s[i]) then s[i]
      else if i == 0 || !IsLetter(s[i - 1]) then UpperChar(s[i])
      else LowerChar(s[i]));
    forall i | 0 <= i < |s|
      ensures IsLetter(r[i]) <==> IsLetter(s[i])
      ensures IsLetter(r[i]) ==> (IsUpper(r[i]) <==> i == 0 || !IsLetter(s[i - 1]))
    {
    }
    r
  }

  /** The name used when a message names no doctor. */
  const DefaultDoctor: string := "Dr. Smith"

  /** `f"Dr. {word.title()}"`. */
  function DoctorTitle(word: string): (name: string)
    ensures |name| == 4 + |word| && name[..4] == "Dr. "
    ensures Lower(name[4..]) == Lower(word)
    ensures forall i :: 4 <= i < |name| && IsLetter(name[i]) ==>
              (IsUpper(name[i]) <==> !IsLetter(name[i - 1]))
  {
    var t := Title(word);
    var name := "Dr. " + t;
    assert name[4..] == t;
    forall i | 4 <= i < |name| && IsLetter(name[i])
      ensures IsUpper(name[i]) <==> !IsLetter(name[i - 1])
    {
      assert name[i] == t[i - 4];
      if i > 4 {
        assert name[i - 1] == t[i - 5];
      }
    }
    name
  }

  /** The doctor named in a message, if any: the word after `dr`, title-cased. */
  function MentionedDoctor(message: string): (name: Option<string>)
    ensures name.Some? <==> exists i: nat, w :: DoctorMatch(Lower(message), i, w)
    ensures name.Some? ==> name.value == DoctorTitle(FindDoctor(Lower(message)).value.1)
  {
    match FindDoctor(Lower(message))
    case None => None
    case Some((_, w)) => Some(DoctorTitle(w))
  }

  // ---- Dates -------------------------------------------------------------------

  /** Every day the clock can render reads as `YYYY-MM-DD`. */
  lemma ClockDateShape(n: int)
    requires 1 <= n <= MaxOrdinal
    ensures IsoShape(IsoDate(n))
  {
    var c := FromOrdinal(n);
    FourDigitYears(n);
    var y, m, d := Pad4(c.year), Pad2(c.month), Pad2(c.day);
    var s := y + "-" + m + "-" + d;
    IsoFields(y, m, d);
    assert |s| == 10;
    assert s[..4] == y && s[5..7] == m && s[8..] == d;
    assert s[4] == '-' && s[7] == '-';
  }

  /** The first `YYYY-MM-DD` in a message, if any. */
  function DateInText(message: string): (d: Option<string>)
    ensures d.Some? <==> FindIsoDate(message).Some?
    ensures d.Some? ==> d.value == FindIsoDate(message).value.1 && IsoShape(d.value)
  {
    match FindIsoDate(message)
    case None => None
    case Some((_, text)) => Some(text)
  }

  /** The day `offset` days from today, as the clock renders it. */
  function DayFrom(today: Today, offset: int): (d: string)
    requires -1 <= offset <= 1
    ensures IsoShape(d)
  {
    var n := today + offset;
    ClockDateShape(n);
    IsoDate(n)
  }

  /** The relative day words of a visit request, as an offset from today:
      `tomorrow` before `today`. */
  function VisitDayOffset(lower: string): (o: Option<int>)
    ensures Contains(lower, "tomorrow") ==> o == Some(1)
    ensures !Contains(lower, "tomorrow") && Contains(lower, "today") ==> o == Some(0)
    ensures o.None? <==> !Contains(lower, "tomorrow") && !Contains(lower, "today")
    ensures o.Some? ==> 0 <= o.value <= 1
  {
    if Contains(lower, "tomorrow") then Some(1)
    else if Contains(lower, "today") then Some(0)
    else None
  }

  /** The day a message refers to: the day a relative word names, else the
      first `YYYY-MM-DD` in the text. */
  function MentionedDay(message: string, today: Today): (d: Option<string>)
    ensures VisitDayOffset(Lower(message)).Some? ==>
              d == Some(DayFrom(today, VisitDayOffset(Lower(message)).value))
    ensures VisitDayOffset(Lower(message)).None? ==> (d.Some? <==> FindIsoDate(message).Some?)
    ensures VisitDayOffset(Lower(message)).None? ==> d == DateInText(message)
    ensures d.Some? ==> IsoShape(d.value)
  {
    match VisitDayOffset(Lower(message))
    case Some(offset) => Some(DayFrom(today, offset))
    case None => DateInText(message)
  }

  /** The date of an availability request: the mentioned day, else today. */
  function VisitDate(message: string, today: Today): (d: string)
    ensures IsoShape(d)
    ensures MentionedDay(message, today).Some? ==> d == MentionedDay(message, today).value
    ensures MentionedDay(message, today).None? ==> d == DayFrom(today, 0)
  {
    MentionedDay(message, today).GetOr(DayFrom(today, 0))
  }

  /** What an availability request asks: the doctor's name (a default one
      when none is named) and the date. */
  datatype VisitRequest = VisitRequest(doctorName: string, date: string)

  function AvailabilityRequest(message: string, today: Today): (r: VisitRequest)
    ensures r.doctorName == MentionedDoctor(message).GetOr(DefaultDoctor)
    ensures r.date == VisitDate(message, today)
    ensures r.doctorName != "" && IsoShape(r.date)
  {
    VisitRequest(MentionedDoctor(message).GetOr(DefaultDoctor), VisitDate(message, today))
  }

  // ---- Times -------------------------------------------------------------------

  /** The 24-hour hour of a 12-hour clock reading: `pm` adds twelve except at
      12 pm, and 12 am is hour 0. Other hours pass through unchanged. */
  function Hour24(hour: nat, period: Period): (h: nat)
    ensures 1 <= hour <= 12 ==> h < 24
    ensures 1 <= hour <= 12 ==> (period == Am <==> h < 12)
    ensures h % 12 == hour % 12
    ensures h == hour + 12 <==> period == Pm && hour != 12
    ensures h < hour <==> period == Am && hour == 12
    ensures !(period == Pm && hour != 12) && !(period == Am && hour == 12) ==> h == hour
  {
    match period
    case Pm => if hour != 12 then hour + 12 else hour
    case Am => if hour == 12 then 0 else hour
  }

  /** The 12-hour reading of a 24-hour hour. */
  function Hour12(h: nat): (hp: (nat, Period))
    requires h < 24
    ensures 1 <= hp.0 <= 12
  {
    if h == 0 then (12, Am)
    else if h < 12 then (h, Am)
    else if h == 12 then (12, Pm)
    else (h - 12, Pm)
  }

  /** On the readings a 12-hour clock shows, the conversion is a bijection
      onto the hours of the day. */
  lemma ClockHoursBijective(hour: nat, period: Period, h: nat)
    requires 1 <= hour <= 12 && h < 24
    ensures Hour12(Hour24(hour, period)) == (hour, period)
    ensures Hour24(Hour12(h).0, Hour12(h).1) == h
  {
  }

  /** `f"{hour:02d}:{minute}"` with the minute group or `"00"`. */
  function SlotText(t: TimeCapture): (slot: string)
    requires AllDigits(t.hour)
    requires t.minute.Some? ==> |t.minute.value| == 2
    ensures |slot| == 5 <==> Hour24(DecimalValue(t.hour), t.period) < 100
  {
    Pad2(Hour24(DecimalValue(t.hour), t.period)) + ":" + t.minute.GetOr("00")
  }

  /** A reading that names a time of day is written exactly as the grid
      writes that minute of the day: the chat's slot text and the grid's
      agree character for character. */
  lemma SlotTextIsClockText(t: TimeCapture)
    requires AllDigits(t.hour)
    requires t.minute.Some? ==> |t.minute.value| == 2 && AllDigits(t.minute.value)
    requires Hour24(DecimalValue(t.hour), t.period) < 24
    requires t.minute.Some? ==> DecimalValue(t.minute.value) < 60
    ensures var minute := if t.minute.Some? then DecimalValue(t.minute.value) else 0;
      SlotText(t) == Slots.FormatSlot(Hour24(DecimalValue(t.hour), t.period) * 60 + minute)
  {
    var h := Hour24(DecimalValue(t.hour), t.period);
    var minute := if t.minute.Some? then DecimalValue(t.minute.value) else 0;
    var m := h * 60 + minute;
    Slots.ClockSplit(h, minute);
    assert Slots.FormatSlot(m) == Pad2(h) + ":" + Pad2(minute);
    if t.minute.Some? {
      Pad2OfTwoDigits(t.minute.value);
    } else {
      Pad2Digits(0);
    }
    assert Pad2(minute) == t.minute.GetOr("00");
  }

  /** A converted reading denotes its minute of the day when it stays below 100 hours. */
  lemma SlotTextReadsBack(t: TimeCapture)
    requires AllDigits(t.hour)
    requires t.minute.Some? ==> |t.minute.value| == 2 && AllDigits(t.minute.value)
    requires Hour24(DecimalValue(t.hour), t.period) < 100
    ensures var minute := if t.minute.Some? then DecimalValue(t.minute.value) else 0;
      Slots.ParseSlot(SlotText(t)) == Some(Hour24(DecimalValue(t.hour), t.period) * 60 + minute)
  {
    var h := Pad2(Hour24(DecimalValue(t.hour), t.period));
    var m := t.minute.GetOr("00");
    var s := h + ":" + m;
    assert s[..2] == h && s[3..] == m;
    assert DecimalValue("00") == 0 by {
      assert "00"[..1] == "0";
    }
  }

  /** An afternoon reading past twelve (`13pm` and up) converts to hour 25 or
      later, which the availability grid never offers. */
  lemma LateAfternoonOffGrid(t: TimeCapture)
    requires AllDigits(t.hour) && t.period == Pm && DecimalValue(t.hour) > 12
    requires t.minute.Some? ==> |t.minute.value| == 2 && AllDigits(t.minute.value)
    ensures Hour24(DecimalValue(t.hour), t.period) >= 25
    ensures SlotText(t) !in Slots.Grid()
  {
    var h := Hour24(DecimalValue(t.hour), t.period);
    if SlotText(t) in Slots.Grid() {
      var i :| 0 <= i < 16 && Slots.Grid()[i] == SlotText(t);
      Slots.GridSlotMinute(i);
      if h < 100 {
        SlotTextReadsBack(t);
      }
    }
  }

  // ---- Booking details ---------------------------------------------------------

  /** The symptom keywords, in the order they are tried. */
  const SymptomWords: seq<string> := ["symptoms", "problem", "issue", "pain", "fever", "headache"]

  /** The first of `words`, in list order, that occurs in `lower`. */
  function FirstMentioned(lower: string, words: seq<string>): (r: Option<string>)
    ensures r.None? <==> forall k :: 0 <= k < |words| ==> !Contains(lower, words[k])
    ensures r.Some? ==>
              exists k :: && 0 <= k < |words| && words[k] == r.value && Contains(lower, r.value)
                          && forall j :: 0 <= j < k ==> !Contains(lower, words[j])
  {
    match FirstIndex(words, (w: string) => Contains(lower, w))
    case None => None
    case Some(k) => Some(words[k])
  }

  /** The text recorded as symptoms when the message mentions `keyword`. */
  function SymptomNote(keyword: string): string {
    "Patient mentioned: " + keyword
  }

  /** The map `m` with `key` set to the value of `v`, when there is one. */
  function Put(m: map<string, string>, key: string, v: Option<string>): (r: map<string, string>)
    ensures forall k :: k in r <==> k in m || (k == key && v.Some?)
    ensures v.Some? ==> r[key] == v.value
    ensures forall k :: k in m && k != key ==> r[k] == m[k]
  {
    match v
    case None => m
    case Some(x) => m[key := x]
  }

  /** The time slot of a message: its first 12-hour reading, converted. */
  function MentionedSlot(lower: string): (slot: Option<string>)
    ensures slot.Some? <==> FindTime(lower).Some?
    ensures slot.Some? ==> slot.value == SlotText(FindTime(lower).value.1)
  {
    match FindTime(lower)
    case None => None
    case Some((_, t)) => Some(SlotText(t))
  }

  /** The symptoms text of a message: a note naming its first symptom keyword. */
  function MentionedSymptoms(lower: string): (note: Option<string>)
    ensures note.Some? <==> FirstMentioned(lower, SymptomWords).Some?
    ensures note.Some? ==> note.value == SymptomNote(FirstMentioned(lower, SymptomWords).value)
  {
    match FirstMentioned(lower, SymptomWords)
    case None => None
    case Some(keyword) => Some(SymptomNote(keyword))
  }

  /** The details map built from what was found: one entry per detail present. */
  function Details(doctor: Option<string>, slot: Option<string>, day: Option<string>,
                   symptoms: Option<string>): (d: map<string, string>)
    ensures d.Keys <= {"doctor_name", "time_slot", "date", "symptoms"}
    ensures "doctor_name" in d <==> doctor.Some?
    ensures "doctor_name" in d ==> d["doctor_name"] == doctor.value
    ensures "time_slot" in d <==> slot.Some?
    ensures "time_slot" in d ==> d["time_slot"] == slot.value
    ensures "date" in d <==> day.Some?
    ensures "date" in d ==> d["date"] == day.value
    ensures "symptoms" in d <==> symptoms.Some?
    ensures "symptoms" in d ==> d["symptoms"] == symptoms.value
  {
    Put(Put(Put(Put(map[], "doctor_name", doctor), "time_slot", slot), "date", day),
        "symptoms", symptoms)
  }

  /** `_extract_booking_details(message)`: one entry per detail found. */
  function BookingDetails(message: string, today: Today): (d: map<string, string>)
    ensures d.Keys <= {"doctor_name", "time_slot", "date", "symptoms"}
    ensures "doctor_name" in d <==> MentionedDoctor(message).Some?
    ensures "doctor_name" in d ==> d["doctor_name"] == MentionedDoctor(message).value
    ensures "time_slot" in d <==> MentionedSlot(Lower(message)).Some?
    ensures "time_slot" in d ==> d["time_slot"] == MentionedSlot(Lower(message)).value
    ensures "date" in d <==> MentionedDay(message, today).Some?
    ensures "date" in d ==> d["date"] == MentionedDay(message, today).value && IsoShape(d["date"])
    ensures "symptoms" in d <==> MentionedSymptoms(Lower(message)).Some?
    ensures "symptoms" in d ==> d["symptoms"] == MentionedSymptoms(Lower(message)).value
  {
    var lower := Lower(message);
    Details(MentionedDoctor(message), MentionedSlot(lower), MentionedDay(message, today),
            MentionedSymptoms(lower))
  }

  /** The keys a booking needs. */
  const RequiredKeys: seq<string> := ["doctor_name", "date", "time_slot"]

  /** `all(key in details for key in keys)`. */
  function AllKeys(details: map<string, string>, keys: seq<string>): (b: bool)
    ensures b <==> forall k :: 0 <= k < |keys| ==> keys[k] in details
    decreases |keys|
  {
    |keys| == 0 || (keys[0] in details && AllKeys(details, keys[1..]))
  }

  /** `_has_complete_booking_info(details)`. */
  function HasCompleteBookingInfo(details: map<string, string>): (b: bool)
    ensures b <==> "doctor_name" in details && "date" in details && "time_slot" in details
  {
    AllKeys(details, RequiredKeys)
  }

  /** A message carries a complete booking exactly when it names a doctor, a
      time with `am`/`pm`, and a day; symptoms are optional. */
  lemma CompleteBookingMessage(message: string, today: Today)
    ensures HasCompleteBookingInfo(BookingDetails(message, today)) <==>
              && MentionedDoctor(message).Some?
              && MentionedSlot(Lower(message)).Some?
              && MentionedDay(message, today).Some?
  {
  }

  // ---- Reports -----------------------------------------------------------------

  /** The report types the chat service asks for. */
  const ChatReportTypes: set<string> :=
    {"yesterday_patients", "today_appointments", "tomorrow_appointments",
     "fever_patients", "general_summary"}

  /** `_extract_report_type(message)`: `yesterday` before `today` before
      `tomorrow` before `fever`, else the general summary. None of these names
      is one the reports tool accepts. */
  function ReportType(message: string): (t: string)
    ensures t in ChatReportTypes
    ensures t !in Reports.ReportTypes
    ensures t == "yesterday_patients" <==> Contains(Lower(message), "yesterday")
    ensures t == "general_summary" <==>
              && !Contains(Lower(message), "yesterday") && !Contains(Lower(message), "today")
              && !Contains(Lower(message), "tomorrow") && !Contains(Lower(message), "fever")
    ensures (!Contains(Lower(message), "yesterday") && Contains(Lower(message), "today"))
              ==> t == "today_appointments"
    ensures (&& !Contains(Lower(message), "yesterday") && !Contains(Lower(message), "today")
             && Contains(Lower(message), "tomorrow")) ==> t == "tomorrow_appointments"
    ensures (&& !Contains(Lower(message), "yesterday") && !Contains(Lower(message), "today")
             && !Contains(Lower(message), "tomorrow") && Contains(Lower(message), "fever"))
              ==> t == "fever_patients"
  {
    var lower := Lower(message);
    if Contains(lower, "yesterday") then "yesterday_patients"
    else if Contains(lower, "today") then "today_appointments"
    else if Contains(lower, "tomorrow") then "tomorrow_appointments"
    else if Contains(lower, "fever") then "fever_patients"
    else "general_summary"
  }

  /** The relative day words of a report request, as an offset from today:
      `yesterday` before `today` before `tomorrow`. */
  function ReportDayOffset(lower: string): (o: Option<int>)
    ensures Contains(lower, "yesterday") ==> o == Some(-1)
    ensures !Contains(lower, "yesterday") && Contains(lower, "today") ==> o == Some(0)
    ensures (&& !Contains(lower, "yesterday") && !Contains(lower, "today")
             && Contains(lower, "tomorrow")) ==> o == Some(1)
    ensures o.None? <==>
              !Contains(lower, "yesterday") && !Contains(lower, "today") && !Contains(lower, "tomorrow")
    ensures o.Some? ==> -1 <= o.value <= 1
  {
    if Contains(lower, "yesterday") then Some(-1)
    else if Contains(lower, "today") then Some(0)
    else if Contains(lower, "tomorrow") then Some(1)
    else None
  }

  /** `_extract_date_filter(message)`: the day a relative word names, else the
      first `YYYY-MM-DD` in the text, else nothing. */
  function DateFilter(message: string, today: Today): (f: Option<string>)
    ensures ReportDayOffset(Lower(message)).Some? ==>
              f == Some(DayFrom(today, ReportDayOffset(Lower(message)).value))
    ensures ReportDayOffset(Lower(message)).None? ==> (f.Some? <==> FindIsoDate(message).Some?)
    ensures ReportDayOffset(Lower(message)).None? ==> f == DateInText(message)
    ensures f.Some? ==> IsoShape(f.value)
  {
    match ReportDayOffset(Lower(message))
    case Some(offset) => Some(DayFrom(today, offset))
    case None => DateInText(message)
  }
}
