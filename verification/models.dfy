/** The four tables of the appointment system (`User`, `Doctor`, `Appointment`,
    `ChatSession`), the store that holds them, the lookups the tools issue, and
    the constraints the relational schema enforces on every insert. */
module Models {
  import opened Wrappers

  /** The two roles an account can have; the enum's values are `"patient"` and `"doctor"`. */
  datatype UserRole = PatientRole | DoctorRole {
    function Value(): string {
      match this
      case PatientRole => "patient"
      case DoctorRole => "doctor"
    }
  }

  /** `UserRole(s)`: the role whose value is `s`, or `None` where Python raises `ValueError`. */
  function ParseRole(s: string): (r: Option<UserRole>)
    ensures r.Some? ==> r.value.Value() == s
    ensures r.None? ==> forall role: UserRole :: role.Value() != s
  {
    if s == "patient" then Some(PatientRole)
    else if s == "doctor" then Some(DoctorRole)
    else None
  }

  /** An account. `email` is unique across users. The password is kept as given. */
  datatype User = User(id: nat, email: string, name: string, role: UserRole,
                       passwordHash: string, createdAt: int)

  /** A doctor profile. `email` is unique across doctors; `userId` optionally
      links the profile to the account it was registered with. */
  datatype Doctor = Doctor(id: nat, name: string, specialization: string,
                           email: string, userId: Option<nat>)

  /** A booking of one 30-minute slot. `date` is `YYYY-MM-DD`, `timeSlot` is
      `HH:MM`; `status` is free text ("scheduled", "completed", "cancelled"). */
  datatype Appointment = Appointment(id: nat, patientId: nat, doctorId: nat,
                                     date: string, timeSlot: string, status: string,
                                     symptoms: Option<string>, notes: Option<string>,
                                     createdAt: int)

  /** The persisted conversation state of one user: an opaque JSON text. */
  datatype ChatSession = ChatSession(id: nat, userId: nat, sessionData: string,
                                     createdAt: int, updatedAt: int)

  /** The status a new appointment row receives when none is given. */
  const DefaultStatus: string := "scheduled"

  /** `Appointment(patient_id=…, doctor_id=…, date=…, time_slot=…, symptoms=…)`:
      a fresh row with the column defaults filled in. */
  function NewAppointment(id: nat, patientId: nat, doctorId: nat, date: string,
                          timeSlot: string, symptoms: Option<string>, now: int): (a: Appointment)
    ensures a.status == DefaultStatus && a.notes.None?
    ensures a.patientId == patientId && a.doctorId == doctorId
    ensures a.date == date && a.timeSlot == timeSlot && a.symptoms == symptoms
  {
    Appointment(id, patientId, doctorId, date, timeSlot, DefaultStatus, symptoms, None, now)
  }

  /** All tables, each in insertion order. */
  datatype Store = Store(users: seq<User>, doctors: seq<Doctor>,
                         appointments: seq<Appointment>, sessions: seq<ChatSession>)

  // ---- Lookups: `select(...).where(...).first()` -------------------------

  function UserWithId(s: Store, id: nat): Option<User> {
    First(s.users, (u: User) => u.id == id)
  }

  function UserWithEmail(s: Store, email: string): Option<User> {
    First(s.users, (u: User) => u.email == email)
  }

  function DoctorWithId(s: Store, id: nat): Option<Doctor> {
    First(s.doctors, (d: Doctor) => d.id == id)
  }

  function DoctorNamed(s: Store, name: string): Option<Doctor> {
    First(s.doctors, (d: Doctor) => d.name == name)
  }

  function DoctorOfUser(s: Store, userId: nat): Option<Doctor> {
    First(s.doctors, (d: Doctor) => d.userId == Some(userId))
  }

  function DoctorWithEmail(s: Store, email: string): Option<Doctor> {
    First(s.doctors, (d: Doctor) => d.email == email)
  }

  function SessionIndex(s: Store, userId: nat): Option<nat> {
    FirstIndex(s.sessions, (c: ChatSession) => c.userId == userId)
  }

  predicate HasUser(s: Store, id: nat) {
    exists i :: 0 <= i < |s.users| && s.users[i].id == id
  }

  predicate HasDoctor(s: Store, id: nat) {
    exists i :: 0 <= i < |s.doctors| && s.doctors[i].id == id
  }

  // ---- Schema constraints -------------------------------------------------

  /** Primary keys and e-mails of accounts are unique. */
  predicate UniqueUsers(users: seq<User>) {
    && (forall i, j :: 0 <= i < j < |users| ==> users[i].id != users[j].id)
    && (forall i, j :: 0 <= i < j < |users| ==> users[i].email != users[j].email)
  }

  /** Primary keys and e-mails of doctor profiles are unique. */
  predicate UniqueDoctors(doctors: seq<Doctor>) {
    && (forall i, j :: 0 <= i < j < |doctors| ==> doctors[i].id != doctors[j].id)
    && (forall i, j :: 0 <= i < j < |doctors| ==> doctors[i].email != doctors[j].email)
  }

  predicate UniqueAppointmentIds(appts: seq<Appointment>) {
    forall i, j :: 0 <= i < j < |appts| ==> appts[i].id != appts[j].id
  }

  predicate UniqueSessionIds(sessions: seq<ChatSession>) {
    forall i, j :: 0 <= i < j < |sessions| ==> sessions[i].id != sessions[j].id
  }

  /** A doctor profile's account, when it has one, exists. */
  predicate DoctorLinks(s: Store) {
    forall i :: 0 <= i < |s.doctors| && s.doctors[i].userId.Some? ==>
      HasUser(s, s.doctors[i].userId.value)
  }

  /** An appointment's patient and doctor exist. */
  predicate AppointmentLinks(s: Store) {
    forall i :: 0 <= i < |s.appointments| ==>
      HasUser(s, s.appointments[i].patientId) && HasDoctor(s, s.appointments[i].doctorId)
  }

  /** A session's user exists. */
  predicate SessionLinks(s: Store) {
    forall i :: 0 <= i < |s.sessions| ==> HasUser(s, s.sessions[i].userId)
  }

  /** What the schema guarantees of every committed state: primary keys are
      unique, `User.email` and `Doctor.email` are unique, and every foreign key
      names an existing row. */
  predicate WellFormed(s: Store) {
    && UniqueUsers(s.users) && UniqueDoctors(s.doctors)
    && UniqueAppointmentIds(s.appointments) && UniqueSessionIds(s.sessions)
    && DoctorLinks(s) && AppointmentLinks(s) && SessionLinks(s)
  }

  /** Why the database refused a commit. */
  datatype Violation = DuplicateEmail | MissingReference

  /** The outcome of one committed insert: the new store, or the refusal that
      rolls the transaction back. */
  datatype Commit<T> = Committed(store: Store, row: T) | Refused(violation: Violation)

  function NextUserId(s: Store): nat {
    FreshId(s.users, (u: User) => u.id)
  }

  function NextDoctorId(s: Store): nat {
    FreshId(s.doctors, (d: Doctor) => d.id)
  }

  function NextAppointmentId(s: Store): nat {
    FreshId(s.appointments, (a: Appointment) => a.id)
  }

  function NextSessionId(s: Store): nat {
    FreshId(s.sessions, (c: ChatSession) => c.id)
  }

  /** `session.add(User(...)); session.commit()`. */
  function InsertUser(s: Store, email: string, name: string, role: UserRole,
                      password: string, now: int): (c: Commit<User>)
    ensures c.Refused? <==> UserWithEmail(s, email).Some?
    ensures c.Committed? ==> c.store == s.(users := s.users + [c.row])
    ensures c.Committed? ==>
              && c.row.email == email && c.row.name == name && c.row.role == role
              && c.row.passwordHash == password && !HasUser(s, c.row.id)
    ensures c.Committed? && WellFormed(s) ==> WellFormed(c.store)
  {
    if UserWithEmail(s, email).Some? then Refused(DuplicateEmail)
    else
      var u := User(NextUserId(s), email, name, role, password, now);
      UserAppended(s, u);
      Committed(s.(users := s.users + [u]), u)
  }

  /** A user with an unused id and e-mail keeps the store well formed, and
      every user id in use stays in use. */
  lemma UserAppended(s: Store, u: User)
    requires u.id == NextUserId(s) && UserWithEmail(s, u.email).None?
    ensures var s' := s.(users := s.users + [u]);
      && !HasUser(s, u.id) && HasUser(s', u.id)
      && (forall id :: HasUser(s, id) ==> HasUser(s', id))
      && (WellFormed(s) ==> WellFormed(s'))
  {
    var s' := s.(users := s.users + [u]);
    assert s'.users[|s.users|] == u;
    assert forall i :: 0 <= i < |s.users| ==> s'.users[i] == s.users[i];
    assert forall id :: HasUser(s, id) ==> HasUser(s', id);
    if WellFormed(s) {
      assert UniqueUsers(s'.users);
      assert DoctorLinks(s');
      assert AppointmentLinks(s');
      assert SessionLinks(s');
    }
  }

  /** `session.add(Doctor(...)); session.commit()`. */
  function InsertDoctor(s: Store, name: string, specialization: string, email: string,
                        userId: Option<nat>): (c: Commit<Doctor>)
    ensures c.Refused? <==>
      DoctorWithEmail(s, email).Some? || (userId.Some? && !HasUser(s, userId.value))
    ensures c.Committed? ==> c.store == s.(doctors := s.doctors + [c.row])
    ensures c.Committed? ==>
              && c.row.name == name && c.row.specialization == specialization
              && c.row.email == email && c.row.userId == userId && !HasDoctor(s, c.row.id)
    ensures c.Committed? && WellFormed(s) ==> WellFormed(c.store)
  {
    if DoctorWithEmail(s, email).Some? then Refused(DuplicateEmail)
    else if userId.Some? && !HasUser(s, userId.value) then Refused(MissingReference)
    else
      var d := Doctor(NextDoctorId(s), name, specialization, email, userId);
      DoctorAppended(s, d);
      Committed(s.(doctors := s.doctors + [d]), d)
  }

  /** A doctor with an unused id and e-mail, linked to an existing account if
      to any, keeps the store well formed. */
  lemma DoctorAppended(s: Store, d: Doctor)
    requires d.id == NextDoctorId(s) && DoctorWithEmail(s, d.email).None?
    requires d.userId.Some? ==> HasUser(s, d.userId.value)
    ensures !HasDoctor(s, d.id)
    ensures WellFormed(s) ==> WellFormed(s.(doctors := s.doctors + [d]))
  {
    var s' := s.(doctors := s.doctors + [d]);
    assert s'.doctors[|s.doctors|] == d;
    assert forall i :: 0 <= i < |s.doctors| ==> s'.doctors[i] == s.doctors[i];
    assert forall id :: HasDoctor(s, id) ==> HasDoctor(s', id);
    assert forall id :: HasUser(s, id) ==> HasUser(s', id);
    if WellFormed(s) {
      assert UniqueDoctors(s'.doctors);
      assert DoctorLinks(s');
      assert AppointmentLinks(s');
      assert SessionLinks(s');
    }
  }

  /** `session.add(Appointment(...)); session.commit()`. */
  function InsertAppointment(s: Store, patientId: nat, doctorId: nat, date: string,
                             timeSlot: string, symptoms: Option<string>, now: int)
    : (c: Commit<Appointment>)
    ensures c.Refused? <==> !HasUser(s, patientId) || !HasDoctor(s, doctorId)
    ensures c.Committed? ==> c.store == s.(appointments := s.appointments + [c.row])
    ensures c.Committed? ==>
              && c.row.patientId == patientId && c.row.doctorId == doctorId
              && c.row.date == date && c.row.timeSlot == timeSlot && c.row.symptoms == symptoms
              && c.row.status == DefaultStatus && c.row.notes.None?
    ensures c.Committed? && WellFormed(s) ==> WellFormed(c.store)
  {
    if !HasUser(s, patientId) || !HasDoctor(s, doctorId) then Refused(MissingReference)
    else
      var a := NewAppointment(NextAppointmentId(s), patientId, doctorId, date, timeSlot,
                              symptoms, now);
      AppointmentAppended(s, a);
      Committed(s.(appointments := s.appointments + [a]), a)
  }

  /** An appointment with an unused id whose patient and doctor exist keeps
      the store well formed. */
  lemma AppointmentAppended(s: Store, a: Appointment)
    requires a.id == NextAppointmentId(s) && HasUser(s, a.patientId) && HasDoctor(s, a.doctorId)
    ensures WellFormed(s) ==> WellFormed(s.(appointments := s.appointments + [a]))
  {
    var s' := s.(appointments := s.appointments + [a]);
    assert s'.appointments[|s.appointments|] == a;
    assert forall i :: 0 <= i < |s.appointments| ==> s'.appointments[i] == s.appointments[i];
  }

  /** `session.add(ChatSession(...)); session.commit()`. */
  function InsertSession(s: Store, userId: nat, data: string, now: int): (c: Commit<ChatSession>)
    ensures c.Refused? <==> !HasUser(s, userId)
    ensures c.Committed? ==> c.store == s.(sessions := s.sessions + [c.row])
    ensures c.Committed? ==> c.row.userId == userId && c.row.sessionData == data
    ensures c.Committed? && WellFormed(s) ==> WellFormed(c.store)
  {
    if !HasUser(s, userId) then Refused(MissingReference)
    else
      var row := ChatSession(NextSessionId(s), userId, data, now, now);
      SessionAppended(s, row);
      Committed(s.(sessions := s.sessions + [row]), row)
  }

  /** A session with an unused id whose user exists keeps the store well formed. */
  lemma SessionAppended(s: Store, row: ChatSession)
    requires row.id == NextSessionId(s) && HasUser(s, row.userId)
    ensures WellFormed(s) ==> WellFormed(s.(sessions := s.sessions + [row]))
  {
    var s' := s.(sessions := s.sessions + [row]);
    assert s'.sessions[|s.sessions|] == row;
    assert forall i :: 0 <= i < |s.sessions| ==> s'.sessions[i] == s.sessions[i];
  }

  /** `UserRole` has exactly the two values `"patient"` and `"doctor"`, and
      reading a role's value back gives the role. */
  lemma RoleValues(r: UserRole, s: string)
    ensures ParseRole(r.Value()) == Some(r)
    ensures ParseRole(s).Some? <==> s == "patient" || s == "doctor"
  {
  }
}
