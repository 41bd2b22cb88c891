/** The authentication context: the signed-in user (none when signed out), the capability
    check by role, and the dummy login, registration, logout and profile update. */
module AuthContext {

  import opened Wrappers

  /** The roles 'guest', 'user' and 'admin'; a stored session may carry any other string,
      which the capability check treats like a guest. `OtherRole` only ever holds a name other
      than the three known ones: `RoleNamed` is how a role string becomes a `Role`. */
  datatype Role = GuestRole | UserRole | AdminRole | OtherRole(name: string)

  /** The `Role` of a role string as the source compares it: the three known names map to their
      own constructors, and every other string to `OtherRole`. */
  function RoleNamed(name: string): (r: Role)
    ensures r == AdminRole <==> name == "admin"
    ensures r == UserRole <==> name == "user"
    ensures r == GuestRole <==> name == "guest"
    ensures r.OtherRole? <==> name != "admin" && name != "user" && name != "guest"
    ensures r.OtherRole? ==> r.name == name
  {
    if name == "admin" then AdminRole
    else if name == "user" then UserRole
    else if name == "guest" then GuestRole
    else OtherRole(name)
  }

  datatype User = User(id: string, username: string, email: string, role: Role, avatar: Option<string>)

  /** The signed-in user, or None when signed out. */
  type Session = Option<User>

  /** The actions a signed-in 'user' may take. */
  const UserActions: seq<string> := ["view", "post", "vote", "comment", "edit-own"]

  /** The six built-in accounts; the first one, the admin, is also the fallback of `login`. */
  const DummyUsers: seq<User> := [
    User("1", "Admin User", "admin@admin.com", AdminRole, None),
    User("2", "Regular User", "user@user.com", UserRole, None),
    User("3", "Developer123", "dev@example.com", UserRole, None),
    User("4", "TSLearner", "ts@example.com", UserRole, None),
    User("5", "CSSNewbie", "css@example.com", UserRole, None),
    User("6", "PythonDev", "python@example.com", UserRole, None)
  ]

  /** The privilege level of a session: 0 for no user, a guest or an unknown role, 1 for a
      user, 2 for an admin. */
  function Privilege(s: Session): (level: nat)
    ensures level <= 2
  {
    match s
    case None => 0
    case Some(u) =>
      match u.role
      case AdminRole => 2
      case UserRole => 1
      case _ => 0
  }

  /** `hasPermission(action)`: viewing is open to everyone, the user actions need at least
      the user level, and the admin may do anything. */
  function HasPermission(s: Session, action: string): (ok: bool)
    ensures ok <==> action == "view" || (Privilege(s) >= 1 && action in UserActions) || Privilege(s) == 2
  {
    match s
    case None => action == "view"
    case Some(u) =>
      match u.role
      case AdminRole => true
      case UserRole => action in UserActions
      case GuestRole => action == "view"
      case OtherRole(_) => action == "view"
  }

  /** Permissions only grow with the privilege level: nobody, a guest, a user, an admin. */
  lemma PermissionMonotone(s: Session, s': Session, action: string)
    requires Privilege(s) <= Privilege(s')
    ensures HasPermission(s, action) ==> HasPermission(s', action)
  {
  }

  /** An action outside the user actions, such as 'moderate', is the admin's alone. */
  lemma OnlyAdminBeyondUserActions(s: Session, action: string)
    requires action !in UserActions
    ensures HasPermission(s, action) <==> Privilege(s) == 2
  {
  }

  /** The account `login` picks for an email: the first dummy user with that email, else the
      first dummy user. */
  function FindByEmail(users: seq<User>, email: string): (r: Option<User>)
    ensures r.Some? <==> exists i :: 0 <= i < |users| && users[i].email == email
    ensures r.Some? ==> r.value in users && r.value.email == email
    ensures r.Some? ==> exists i :: 0 <= i < |users| && users[i] == r.value && FirstWithEmail(users, email, i)
    decreases |users|
  {
    if |users| == 0 then None
    else if users[0].email == email then Some(users[0])
    else
      var r := FindByEmail(users[1..], email);
      assert forall i :: 0 < i < |users| ==> users[i] == users[1..][i - 1];
      assert r.Some? ==> exists i :: 0 < i < |users| && users[i] == r.value && FirstWithEmail(users, email, i) by {
        if r.Some? {
          var i :| 0 <= i < |users| - 1 && users[1..][i] == r.value && FirstWithEmail(users[1..], email, i);
          assert FirstWithEmail(users, email, i + 1);
        }
      }
      r
  }

  /** No user before index `i` has the email. */
  ghost predicate FirstWithEmail(users: seq<User>, email: string, i: int)
    requires 0 <= i <= |users|
  {
    forall j :: 0 <= j < i ==> users[j].email != email
  }

  /** `login(email, password)`: any password succeeds; a known email signs in its account and
      an unknown one signs in the admin. */
  function Login(email: string, password: string): (r: (Session, bool))
    ensures r.1
    ensures r.0.Some? && r.0.value in DummyUsers
    ensures (exists i :: 0 <= i < |DummyUsers| && DummyUsers[i].email == email) ==> r.0.value.email == email
    ensures (forall i :: 0 <= i < |DummyUsers| ==> DummyUsers[i].email != email) ==>
      r.0 == Some(DummyUsers[0]) && Privilege(r.0) == 2
  {
    (Some(FindByEmail(DummyUsers, email).GetOr(DummyUsers[0])), true)
  }

  /** `register(username, email, password)`: signs in a new 'user' account with the given name
      and email under the id `id` (the source's timestamp). */
  function Register(username: string, email: string, password: string, id: string): (r: (Session, bool))
    ensures r.1
    ensures r.0.Some? && r.0.value.role == UserRole && Privilege(r.0) == 1
    ensures r.0.value.username == username && r.0.value.email == email && r.0.value.id == id
    ensures r.0.value.avatar == None
  {
    (Some(User(id, username, email, UserRole, None)), true)
  }

  /** `logout`: signed out, so only viewing is permitted. */
  function Logout(s: Session): (r: Session)
    ensures r == None
    ensures forall action :: HasPermission(r, action) <==> action == "view"
  {
    None
  }

  /** A partial user: the fields `updateUser` overwrites, None for the fields left alone. */
  datatype Patch = Patch(
    id: Option<string>,
    username: Option<string>,
    email: Option<string>,
    role: Option<Role>,
    avatar: Option<string>)

  const NoChange := Patch(None, None, None, None, None)

  /** `updateUser(patch)`: without a user nothing happens; otherwise every field the patch
      supplies replaces the user's and the rest stay. */
  function UpdateUser(s: Session, p: Patch): (r: Session)
    ensures s.None? ==> r.None?
    ensures s.Some? ==> r.Some?
    ensures s.Some? ==> r.value.id == p.id.GetOr(s.value.id)
    ensures s.Some? ==> r.value.username == p.username.GetOr(s.value.username)
    ensures s.Some? ==> r.value.email == p.email.GetOr(s.value.email)
    ensures s.Some? ==> r.value.role == p.role.GetOr(s.value.role)
    ensures s.Some? ==> r.value.avatar == (if p.avatar.Some? then p.avatar else s.value.avatar)
  {
    match s
    case None => None
    case Some(u) =>
      Some(User(
        p.id.GetOr(u.id),
        p.username.GetOr(u.username),
        p.email.GetOr(u.email),
        p.role.GetOr(u.role),
        if p.avatar.Some? then p.avatar else u.avatar))
  }

  /** An empty patch changes nothing, and applying the same patch twice is applying it once. */
  lemma UpdateUserIdempotent(s: Session, p: Patch)
    ensures UpdateUser(s, NoChange) == s
    ensures UpdateUser(UpdateUser(s, p), p) == UpdateUser(s, p)
  {
  }
}
