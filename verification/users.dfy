/** Staff accounts: a map from id to user in which no two users share an
    email; passwords are stored hashed and never returned. */
module Users {
  import opened Wrappers
  import opened Text
  import Store

  /** `role` is the name of the account's role in the database enum. */
  datatype User = User(
    id: int,
    email: string,
    passwordHash: string,
    fullName: string,
    role: string,
    branchId: Option<int>,
    isActive: bool,
    createdAt: int)

  /** A user as the service returns it: every field except the password. */
  datatype PublicUser = PublicUser(
    id: int,
    email: string,
    fullName: string,
    role: string,
    branchId: Option<int>,
    isActive: bool,
    createdAt: int)

  /** The users table and the next autoincrement key. */
  datatype UserStore = UserStore(users: map<int, User>, nextId: int)

  /** The values the schema fills in when the form leaves them out. */
  datatype UserDefaults = UserDefaults(role: string, isActive: bool)

  /** The account form; the password is at least six characters long by validation. */
  datatype NewUser = NewUser(
    email: string,
    password: string,
    fullName: string,
    role: Option<string>,
    branchId: Option<int>,
    isActive: Option<bool>)

  /** A partial update: the account form with every field optional; absent
      fields are left alone. A supplied password is written as given. */
  datatype UserPatch = UserPatch(
    email: Option<string>,
    password: Option<string>,
    fullName: Option<string>,
    role: Option<string>,
    branchId: Option<int>,
    isActive: Option<bool>)

  predicate UniqueEmails(st: UserStore)
  {
    forall a, b :: a in st.users && b in st.users && st.users[a].email == st.users[b].email ==> a == b
  }

  /** Keys match the stored ids, lie below the next key, and emails are unique. */
  predicate Valid(st: UserStore)
  {
    && 1 <= st.nextId
    && (forall id :: id in st.users ==> st.users[id].id == id && 1 <= id < st.nextId)
    && UniqueEmails(st)
  }

  function View(u: User): PublicUser
  {
    PublicUser(u.id, u.email, u.fullName, u.role, u.branchId, u.isActive, u.createdAt)
  }

  /** What a user record shows does not depend on the stored password. */
  lemma ViewHidesPassword(u: User, otherHash: string)
    ensures View(u.(passwordHash := otherHash)) == View(u)
  {
  }

  predicate EmailTaken(st: UserStore, email: string)
  {
    exists id :: id in st.users && st.users[id].email == email
  }

  /** Some user other than `id` holds `email`. */
  predicate EmailHeldByOther(st: UserStore, id: int, email: string)
  {
    exists other :: other in st.users && other != id && st.users[other].email == email
  }

  /** The branch a form names, if any, is a row of a branches table with
      `branchCount` rows: the foreign key the database checks on write. */
  predicate BranchResolves(branchId: Option<int>, branchCount: nat)
  {
    branchId.None? || Store.IsId(branchId.value, branchCount)
  }

  function UserNotFound(id: int): Error
  {
    NotFound("User with ID " + IntToString(id) + " not found")
  }

  // ---------------------------------------------------------------- create

  /** Adds an account under the next key, storing the hash of the password. A
      taken email is a conflict; a branch that does not exist is refused by the
      database. `branchCount` is the number of rows of the branches table. */
  function CreateUser(st: UserStore, form: NewUser, hash: string -> string, defaults: UserDefaults,
                      branchCount: nat, now: int)
    : (r: Result<(UserStore, PublicUser)>)
    requires |form.password| >= 6
    ensures r.Err? && r.error.Conflict? <==> EmailTaken(st, form.email)
    ensures r.Err? && r.error.Conflict? ==> r.error == Conflict("Email already exists")
    ensures r == Err(StoreFailure) <==> !EmailTaken(st, form.email) && !BranchResolves(form.branchId, branchCount)
    ensures r.Ok? <==> !EmailTaken(st, form.email) && BranchResolves(form.branchId, branchCount)
    ensures r.Ok? ==>
      var (st', u) := r.value;
      && st'.nextId == st.nextId + 1
      && st'.users.Keys == st.users.Keys + {st.nextId}
      && (forall id :: id in st.users && id != st.nextId ==> st'.users[id] == st.users[id])
      && st.nextId in st'.users
      && st'.users[st.nextId].id == st.nextId
      && st'.users[st.nextId].passwordHash == hash(form.password)
      && st'.users[st.nextId].email == form.email
      && st'.users[st.nextId].fullName == form.fullName
      && st'.users[st.nextId].role == (if form.role.Some? then form.role.value else defaults.role)
      && st'.users[st.nextId].branchId == form.branchId
      && st'.users[st.nextId].isActive == (if form.isActive.Some? then form.isActive.value else defaults.isActive)
      && st'.users[st.nextId].createdAt == now
      && u == View(st'.users[st.nextId])
  {
    if EmailTaken(st, form.email) then Err(Conflict("Email already exists"))
    else if !BranchResolves(form.branchId, branchCount) then Err(StoreFailure)
    else
      var u := User(
        id := st.nextId,
        email := form.email,
        passwordHash := hash(form.password),
        fullName := form.fullName,
        role := if form.role.Some? then form.role.value else defaults.role,
        branchId := form.branchId,
        isActive := if form.isActive.Some? then form.isActive.value else defaults.isActive,
        createdAt := now);
      Ok((UserStore(st.users[st.nextId := u], st.nextId + 1), View(u)))
  }

  lemma CreateUserPreservesValid(st: UserStore, form: NewUser, hash: string -> string, defaults: UserDefaults,
                                 branchCount: nat, now: int)
    requires Valid(st)
    requires |form.password| >= 6
    ensures var r := CreateUser(st, form, hash, defaults, branchCount, now);
      r.Ok? ==> Valid(r.value.0)
  {
  }

  // ---------------------------------------------------------------- read

  function FindUser(st: UserStore, id: int): (r: Result<PublicUser>)
    ensures r.Ok? <==> id in st.users
    ensures r.Err? ==> r.error == UserNotFound(id)
    ensures r.Ok? ==> r.value == View(st.users[id])
  {
    if id in st.users then Ok(View(st.users[id])) else Err(UserNotFound(id))
  }

  /** A created account is found under its new key, as the creation returned it. */
  lemma FindCreatedUser(st: UserStore, form: NewUser, hash: string -> string, defaults: UserDefaults,
                        branchCount: nat, now: int)
    requires |form.password| >= 6
    requires CreateUser(st, form, hash, defaults, branchCount, now).Ok?
    ensures var (st', u) := CreateUser(st, form, hash, defaults, branchCount, now).value;
      FindUser(st', st.nextId) == Ok(u)
  {
  }

  // ---------------------------------------------------------------- update

  function Patched(u: User, patch: UserPatch): User
  {
    u.(email := if patch.email.Some? then patch.email.value else u.email,
       passwordHash := if patch.password.Some? then patch.password.value else u.passwordHash,
       fullName := if patch.fullName.Some? then patch.fullName.value else u.fullName,
       role := if patch.role.Some? then patch.role.value else u.role,
       branchId := if patch.branchId.Some? then patch.branchId else u.branchId,
       isActive := if patch.isActive.Some? then patch.isActive.value else u.isActive)
  }

  /** Writes the supplied fields. A non-empty new email held by another user is
      a conflict; an empty one skips that check and is refused by the unique
      index of the table if another user holds it. A branch that does not
      exist is refused by the database. A supplied password is stored as
      given, without hashing. */
  function UpdateUser(st: UserStore, id: int, patch: UserPatch, branchCount: nat)
    : (r: Result<(UserStore, PublicUser)>)
    ensures id !in st.users ==> r == Err(UserNotFound(id))
    ensures r.Err? && r.error.Conflict? <==>
      (id in st.users && patch.email.Some? && patch.email.value != "" && EmailHeldByOther(st, id, patch.email.value))
    ensures r == Err(StoreFailure) <==>
      (&& id in st.users
       && !(patch.email.Some? && patch.email.value != "" && EmailHeldByOther(st, id, patch.email.value))
       && ((patch.email.Some? && EmailHeldByOther(st, id, patch.email.value))
           || !BranchResolves(patch.branchId, branchCount)))
    ensures r.Ok? <==> (&& id in st.users
                        && !(patch.email.Some? && EmailHeldByOther(st, id, patch.email.value))
                        && BranchResolves(patch.branchId, branchCount))
    ensures r.Ok? ==>
      var (st', u) := r.value;
      && st'.nextId == st.nextId
      && st'.users.Keys == st.users.Keys
      && (forall other :: other in st.users && other != id ==> st'.users[other] == st.users[other])
      && st'.users[id].id == st.users[id].id
      && (patch.email.Some? ==> st'.users[id].email == patch.email.value)
      && (patch.email.None? ==> st'.users[id].email == st.users[id].email)
      && (patch.password.Some? ==> st'.users[id].passwordHash == patch.password.value)
      && (patch.password.None? ==> st'.users[id].passwordHash == st.users[id].passwordHash)
      && (patch.isActive.Some? ==> st'.users[id].isActive == patch.isActive.value)
      && (patch.isActive.None? ==> st'.users[id].isActive == st.users[id].isActive)
      && (patch.fullName.Some? ==> st'.users[id].fullName == patch.fullName.value)
      && (patch.fullName.None? ==> st'.users[id].fullName == st.users[id].fullName)
      && (patch.role.Some? ==> st'.users[id].role == patch.role.value)
      && (patch.role.None? ==> st'.users[id].role == st.users[id].role)
      && (patch.branchId.Some? ==> st'.users[id].branchId == patch.branchId)
      && (patch.branchId.None? ==> st'.users[id].branchId == st.users[id].branchId)
      && st'.users[id].createdAt == st.users[id].createdAt
      && u == View(st'.users[id])
  {
    if id !in st.users then Err(UserNotFound(id))
    else if patch.email.Some? && patch.email.value != "" && EmailHeldByOther(st, id, patch.email.value) then
      Err(Conflict("Email already exists"))
    else if patch.email.Some? && EmailHeldByOther(st, id, patch.email.value) then
      Err(StoreFailure)
    else if !BranchResolves(patch.branchId, branchCount) then
      Err(StoreFailure)
    else
      var u := Patched(st.users[id], patch);
      Ok((st.(users := st.users[id := u]), View(u)))
  }

  /** A password sent through the general update is stored without hashing:
      it differs from what the password change stores for the same text
      whenever the hash changes the text. */
  lemma UpdateStoresPasswordUnhashed(st: UserStore, id: int, patch: UserPatch, branchCount: nat,
                                     hash: string -> string)
    requires UpdateUser(st, id, patch, branchCount).Ok?
    requires patch.password.Some?
    requires hash(patch.password.value) != patch.password.value
    ensures UpdateUser(st, id, patch, branchCount).value.0.users[id].passwordHash
         != UpdatePassword(st, id, patch.password.value, hash).value.0.users[id].passwordHash
  {
  }

  /** Re-submitting one's own email is not a conflict. */
  lemma UpdateWithOwnEmail(st: UserStore, id: int, patch: UserPatch, branchCount: nat)
    requires Valid(st)
    requires id in st.users
    requires patch.email == Some(st.users[id].email)
    requires BranchResolves(patch.branchId, branchCount)
    ensures UpdateUser(st, id, patch, branchCount).Ok?
  {
  }

  lemma UpdateUserPreservesValid(st: UserStore, id: int, patch: UserPatch, branchCount: nat)
    requires Valid(st)
    ensures var r := UpdateUser(st, id, patch, branchCount);
      r.Ok? ==> Valid(r.value.0)
  {
    var r := UpdateUser(st, id, patch, branchCount);
    if r.Ok? {
      var st' := r.value.0;
      forall a, b | a in st'.users && b in st'.users && st'.users[a].email == st'.users[b].email
        ensures a == b
      {
        if a != b && (a == id || b == id) {
          var other := if a == id then b else a;
          if patch.email.Some? {
            assert st.users[other].email == patch.email.value;
            assert EmailHeldByOther(st, id, patch.email.value);
          }
        }
      }
    }
  }

  /** Stores the hash of a new password. */
  function UpdatePassword(st: UserStore, id: int, newPassword: string, hash: string -> string)
    : (r: Result<(UserStore, string)>)
    ensures r.Ok? <==> id in st.users
    ensures r.Err? ==> r.error == UserNotFound(id)
    ensures r.Ok? ==>
      var (st', message) := r.value;
      && message == "Password updated successfully"
      && st'.users.Keys == st.users.Keys
      && st'.users[id] == st.users[id].(passwordHash := hash(newPassword))
      && (forall other :: other in st.users && other != id ==> st'.users[other] == st.users[other])
      && View(st'.users[id]) == View(st.users[id])
  {
    if id !in st.users then Err(UserNotFound(id))
    else
      Ok((st.(users := st.users[id := st.users[id].(passwordHash := hash(newPassword))]),
          "Password updated successfully"))
  }

  /** Flips whether an account is active and changes nothing else. */
  function ToggleStatus(st: UserStore, id: int): (r: Result<(UserStore, PublicUser)>)
    ensures r.Ok? <==> id in st.users
    ensures r.Err? ==> r.error == UserNotFound(id)
    ensures r.Ok? ==>
      var (st', u) := r.value;
      && st'.nextId == st.nextId
      && st'.users.Keys == st.users.Keys
      && st'.users[id].isActive == !st.users[id].isActive
      && st'.users[id] == st.users[id].(isActive := st'.users[id].isActive)
      && (forall other :: other in st.users && other != id ==> st'.users[other] == st.users[other])
      && u == View(st'.users[id])
  {
    if id !in st.users then Err(UserNotFound(id))
    else
      var u := st.users[id].(isActive := !st.users[id].isActive);
      Ok((st.(users := st.users[id := u]), View(u)))
  }

  /** Toggling twice restores the store. */
  lemma ToggleTwice(st: UserStore, id: int)
    requires id in st.users
    ensures ToggleStatus(ToggleStatus(st, id).value.0, id).value.0 == st
  {
    var st1 := ToggleStatus(st, id).value.0;
    var st2 := ToggleStatus(st1, id).value.0;
    assert st2.users == st.users;
  }

  /** Deletes exactly that account. */
  function RemoveUser(st: UserStore, id: int): (r: Result<(UserStore, string)>)
    ensures r.Ok? <==> id in st.users
    ensures r.Err? ==> r.error == UserNotFound(id)
    ensures r.Ok? ==>
      var (st', message) := r.value;
      && message == "User deleted successfully"
      && st'.users.Keys == st.users.Keys - {id}
      && (forall other :: other in st'.users ==> st'.users[other] == st.users[other])
      && st'.nextId == st.nextId
  {
    if id !in st.users then Err(UserNotFound(id))
    else Ok((st.(users := st.users - {id}), "User deleted successfully"))
  }

  /** Changing a password, toggling and removing keep the store valid. */
  lemma MaintenancePreservesValid(st: UserStore, id: int, newPassword: string, hash: string -> string)
    requires Valid(st)
    ensures UpdatePassword(st, id, newPassword, hash).Ok? ==> Valid(UpdatePassword(st, id, newPassword, hash).value.0)
    ensures ToggleStatus(st, id).Ok? ==> Valid(ToggleStatus(st, id).value.0)
    ensures RemoveUser(st, id).Ok? ==> Valid(RemoveUser(st, id).value.0)
  {
  }
}
