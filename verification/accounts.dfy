/** Account tools: registering a user (with a doctor profile for doctors who
    give a specialization), checking credentials, and adding a doctor by name. */
module Accounts {
  import opened Wrappers
  import opened Text
  import opened Models
  import Availability
  import Slots

  datatype RegisterReply =
    | EmailTaken(email: string)
    /** `UserRole(role.lower())` raised: the role is neither patient nor doctor. */
    | InvalidRole(role: string)
    /** The account was committed; `profile` is the doctor row committed with it, if any. */
    | Registered(user: User, profile: Option<Doctor>)
    /** The account was committed, but the doctor profile's insert was refused
        because another doctor row already has this e-mail. */
    | ProfileRefused(user: User)

  datatype RegisterResult = RegisterResult(store: Store, reply: RegisterReply)

  /** A doctor profile is created for role `doctor` with a non-empty specialization. */
  predicate WantsProfile(role: string, specialization: Option<string>) {
    Lower(role) == "doctor" && specialization.Some? && specialization.value != ""
  }

  /** `register_user(email, name, password, role, specialization)`. */
  function Register(store: Store, email: string, name: string, password: string, role: string,
                    specialization: Option<string>, now: int): (r: RegisterResult)
    ensures r.reply.EmailTaken? <==> UserWithEmail(store, email).Some?
    ensures r.reply.InvalidRole? <==>
              UserWithEmail(store, email).None? && ParseRole(Lower(role)).None?
    ensures r.reply.EmailTaken? || r.reply.InvalidRole? ==> r.store == store
    ensures r.reply.Registered? || r.reply.ProfileRefused? ==>
              && r.reply.user.email == email && r.reply.user.name == name
              && r.reply.user.passwordHash == password
              && r.reply.user.role.Value() == Lower(role)
              && !HasUser(store, r.reply.user.id)
              && r.store.users == store.users + [r.reply.user]
              && r.store.appointments == store.appointments && r.store.sessions == store.sessions
    ensures r.reply.ProfileRefused? <==>
              && UserWithEmail(store, email).None? && ParseRole(Lower(role)).Some?
              && WantsProfile(role, specialization) && DoctorWithEmail(store, email).Some?
    ensures r.reply.ProfileRefused? ==> r.store.doctors == store.doctors
    ensures r.reply.Registered? ==>
              (r.reply.profile.Some? <==> WantsProfile(role, specialization))
    ensures r.reply.Registered? && r.reply.profile.Some? ==>
              && r.reply.profile.value.name == name
              && r.reply.profile.value.specialization == specialization.value
              && r.reply.profile.value.email == email
              && r.reply.profile.value.userId == Some(r.reply.user.id)
              && r.store.doctors == store.doctors + [r.reply.profile.value]
    ensures r.reply.Registered? && r.reply.profile.None? ==> r.store.doctors == store.doctors
    ensures WellFormed(store) ==> WellFormed(r.store)
  {
    if UserWithEmail(store, email).Some? then RegisterResult(store, EmailTaken(email))
    else
      match ParseRole(Lower(role))
      case None => RegisterResult(store, InvalidRole(role))
      case Some(parsed) =>
        match InsertUser(store, email, name, parsed, password, now)
        case Refused(_) => assert false; RegisterResult(store, EmailTaken(email))
        case Committed(s1, user) =>
          assert HasUser(s1, user.id) by {
            assert s1.users[|store.users|] == user;
          }
          if WantsProfile(role, specialization) then
            match InsertDoctor(s1, name, specialization.value, email, Some(user.id))
            case Refused(_) => RegisterResult(s1, ProfileRefused(user))
            case Committed(s2, doctor) => RegisterResult(s2, Registered(user, Some(doctor)))
          else
            RegisterResult(s1, Registered(user, None))
  }

  datatype AuthReply =
    | InvalidCredentials
    /** The JSON object `{"id", "name", "email", "role"}` the tool returns. */
    | Authenticated(id: nat, name: string, email: string, role: string)

  /** `authenticate_user(email, password)`: the stored password is compared as given. */
  function Authenticate(store: Store, email: string, password: string): (r: AuthReply)
    ensures r.Authenticated? <==>
              UserWithEmail(store, email).Some? && UserWithEmail(store, email).value.passwordHash == password
    ensures r.Authenticated? ==>
              var u := UserWithEmail(store, email).value;
              r == Authenticated(u.id, u.name, u.email, u.role.Value()) && r.email == email
  {
    match UserWithEmail(store, email)
    case None => InvalidCredentials
    case Some(u) =>
      if u.passwordHash != password then InvalidCredentials
      else Authenticated(u.id, u.name, u.email, u.role.Value())
  }

  datatype AddDoctorReply =
    | NameTaken(name: string)
    /** The insert reached the database and the unique e-mail column refused it. */
    | EmailRefused(email: string)
    | Added(doctor: Doctor)

  datatype AddDoctorResult = AddDoctorResult(store: Store, reply: AddDoctorReply)

  /** `add_doctor(name, specialization, email)`: only the name is checked
      before the insert; the profile is linked to no account. */
  function AddDoctor(store: Store, name: string, specialization: string, email: string)
    : (r: AddDoctorResult)
    ensures r.reply.NameTaken? <==> DoctorNamed(store, name).Some?
    ensures r.reply.EmailRefused? <==>
              DoctorNamed(store, name).None? && DoctorWithEmail(store, email).Some?
    ensures !r.reply.Added? ==> r.store == store
    ensures r.reply.Added? ==>
              && r.store == store.(doctors := store.doctors + [r.reply.doctor])
              && r.reply.doctor.name == name && r.reply.doctor.specialization == specialization
              && r.reply.doctor.email == email && r.reply.doctor.userId.None?
    ensures WellFormed(store) ==> WellFormed(r.store)
  {
    if DoctorNamed(store, name).Some? then AddDoctorResult(store, NameTaken(name))
    else
      match InsertDoctor(store, name, specialization, email, None)
      case Refused(_) => AddDoctorResult(store, EmailRefused(email))
      case Committed(s', d) => AddDoctorResult(s', Added(d))
  }

  /** A freshly registered account authenticates with its password, under
      its role, and a second registration with the same e-mail is refused. */
  lemma RegisterThenAuthenticate(store: Store, email: string, name: string, password: string,
                                 role: string, specialization: Option<string>, now: int,
                                 name': string, password': string, role': string,
                                 specialization': Option<string>, now': int)
    requires Register(store, email, name, password, role, specialization, now).reply.Registered?
    ensures var r := Register(store, email, name, password, role, specialization, now);
      && Authenticate(r.store, email, password)
         == Authenticated(r.reply.user.id, name, email, Lower(role))
      && Register(r.store, email, name', password', role', specialization', now').reply
         == EmailTaken(email)
  {
    var r := Register(store, email, name, password, role, specialization, now);
    FirstOfAppended(store.users, r.reply.user, (u: User) => u.email == email);
  }

  /** A wrong password is refused whatever the account. */
  lemma WrongPasswordRefused(store: Store, email: string, password: string)
    requires UserWithEmail(store, email).Some?
    requires UserWithEmail(store, email).value.passwordHash != password
    ensures Authenticate(store, email, password) == InvalidCredentials
  {
  }

  /** Registering a doctor with a specialization links the profile to the new
      account: the reports lookup by account finds it. */
  lemma RegisteredDoctorHasProfile(store: Store, email: string, name: string, password: string,
                                   specialization: string, now: int)
    requires WellFormed(store)
    requires specialization != ""
    requires Register(store, email, name, password, "doctor", Some(specialization), now).reply.Registered?
    ensures var r := Register(store, email, name, password, "doctor", Some(specialization), now);
      && r.reply.profile.Some?
      && DoctorOfUser(r.store, r.reply.user.id) == r.reply.profile
  {
    var r := Register(store, email, name, password, "doctor", Some(specialization), now);
    var id := r.reply.user.id;
    assert Lower("doctor") == "doctor";
    forall i | 0 <= i < |store.doctors|
      ensures store.doctors[i].userId != Some(id)
    {
      assert store.doctors[i].userId.Some? ==> HasUser(store, store.doctors[i].userId.value);
    }
    FirstOfAppended(store.doctors, r.reply.profile.value, (d: Doctor) => d.userId == Some(id));
  }

  /** Adding a doctor checks the name only: a new name with an e-mail some
      doctor already has gets past the check and is refused by the database. */
  lemma DuplicateEmailReachesDatabase(store: Store, name: string, specialization: string,
                                      other: Doctor)
    requires DoctorNamed(store, name).None?
    requires other in store.doctors
    ensures AddDoctor(store, name, specialization, other.email).reply == EmailRefused(other.email)
  {
  }

  /** A doctor just added has no appointments yet: every slot of the grid is
      offered on any date, unless the external calendar takes it. */
  lemma AddedDoctorOffersWholeGrid(store: Store, name: string, specialization: string,
                                   email: string, date: string)
    requires WellFormed(store)
    requires AddDoctor(store, name, specialization, email).reply.Added?
    ensures Availability.Query(AddDoctor(store, name, specialization, email).store, name, date, [])
              == Availability.Open(Slots.Grid())
  {
    var r := AddDoctor(store, name, specialization, email);
    var d := r.reply.doctor;
    var s' := r.store;
    FirstOfAppended(store.doctors, d, (x: Doctor) => x.name == name);
    assert DoctorNamed(s', name) == Some(d);
    assert !HasDoctor(store, d.id);
    forall a | a in s'.appointments
      ensures a.doctorId != d.id
    {
      var i :| 0 <= i < |store.appointments| && store.appointments[i] == a;
      assert HasDoctor(store, a.doctorId);
    }
    Availability.EmptyDayOffersWholeGrid(s', name, date);
  }
}
