/** The administrator session: no administrator, or the one who logged in or
    signed up last. */
module AuthContext {
  import opened Wrappers
  import opened Types
  import Text
  import MockData

  /** The credentials `login` accepts: a non-empty email and a password of at
      least six characters. */
  predicate LoginAccepted(email: string, password: string) {
    |email| > 0 && |password| >= 6
  }

  /** The details `signup` accepts: those `login` accepts and a non-empty
      name. */
  predicate SignupAccepted(email: string, password: string, name: string) {
    LoginAccepted(email, password) && |name| > 0
  }

  /** `admin-${Date.now()}`: the id of an administrator who signs up at `now`. */
  function AdminId(now: Time): (r: string)
    ensures |r| > 6 && r[..6] == "admin-" && r[6..] == Text.IntToString(now)
  {
    "admin-" + Text.IntToString(now)
  }

  /** Two sign-ups at different times get different ids. */
  lemma AdminIdsDistinct(a: Time, b: Time)
    requires a != b
    ensures AdminId(a) != AdminId(b)
  {
    if AdminId(a) == AdminId(b) {
      assert AdminId(a)[6..] == AdminId(b)[6..];
      Text.IntToStringInjective(a, b);
    }
  }

  /** The administrator a successful `signup` creates: the given email, name
      and role, no avatar or phone, and all three counters zero. */
  function NewAdmin(email: string, name: string, role: AdminRole, now: Time): (r: Admin)
    ensures r.id == AdminId(now) && r.email == email && r.name == name && r.role == role
    ensures r.avatar == None && r.phone == None
    ensures r.issuesHandled == 0 && r.averageResponseTime == 0 && r.resolutionRate == 0
  {
    Admin(AdminId(now), email, name, role, None, None, 0, 0, 0)
  }

  /** The seed administrator every successful `login` yields: the id
      "admin-1", a non-empty email, a phone but no avatar, management, with
      the counters 147, 12 and 94. */
  lemma MockAdminProfile()
    ensures MockData.MockAdmin.id == "admin-1" && MockData.MockAdmin.email != []
    ensures MockData.MockAdmin.avatar == None && MockData.MockAdmin.phone.Some?
    ensures MockData.MockAdmin.role == Management
    ensures MockData.MockAdmin.issuesHandled == 147
    ensures MockData.MockAdmin.averageResponseTime == 12
    ensures MockData.MockAdmin.resolutionRate == 94
  {
  }

  /** Every set of details `signup` accepts also passes the `login` guard. */
  lemma SignupGuardStricter(email: string, password: string, name: string)
    ensures SignupAccepted(email, password, name) ==> LoginAccepted(email, password)
    ensures LoginAccepted(email, password) && name == [] ==> !SignupAccepted(email, password, name)
  {
  }

  /** The state of `AuthProvider`. */
  class AuthProvider {
    var admin: Option<Admin>

    /** The session starts without an administrator. */
    constructor ()
      ensures admin == None && !IsAuthenticated()
    {
      admin := None;
    }

    /** `isAuthenticated`: an administrator is present. */
    predicate IsAuthenticated()
      reads this
    {
      admin.Some?
    }

    /** `login`: accepted credentials replace the session with the seed
        administrator; rejected ones leave any existing session alone. */
    method Login(email: string, password: string) returns (ok: bool)
      modifies this
      ensures ok <==> LoginAccepted(email, password)
      ensures ok ==> admin == Some(MockData.MockAdmin) && IsAuthenticated()
      ensures !ok ==> admin == old(admin)
    {
      if |email| > 0 && |password| >= 6 {
        admin := Some(MockData.MockAdmin);
        ok := true;
      } else {
        ok := false;
      }
    }

    /** `signup` at time `now`: accepted details replace the session with a
        new administrator; rejected ones leave the session alone. */
    method Signup(email: string, password: string, name: string, role: AdminRole, now: Time)
      returns (ok: bool)
      modifies this
      ensures ok <==> SignupAccepted(email, password, name)
      ensures ok ==> admin == Some(NewAdmin(email, name, role, now)) && IsAuthenticated()
      ensures !ok ==> admin == old(admin)
    {
      if |email| > 0 && |password| >= 6 && |name| > 0 {
        admin := Some(NewAdmin(email, name, role, now));
        ok := true;
      } else {
        ok := false;
      }
    }

    /** `logout`: the session ends, whatever it was; a second logout
        therefore changes nothing. */
    method Logout()
      modifies this
      ensures admin == None && !IsAuthenticated()
    {
      admin := None;
    }
  }
}
