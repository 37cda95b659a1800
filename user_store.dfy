/**
 * The user table and `UserService`, the service that reads and writes it. The table is a
 * sequence of records in the database's own order; every query of the service is one of the
 * WHERE clauses below, run by the pure functions that follow, and the class's methods make the
 * changes the service makes.
 */
module UserStore {
  import opened Wrappers
  import opened Bcrypt
  import opened Http
  import opened Entities
  import opened UserDto

  /** The WHERE clauses the service's queries use. */
  datatype Where =
    | ByEmail(email: string)       // { email }
    | ByPhone(phone: string)       // { phone }
    | ById(id: nat)                // update(id, …) and delete(id)
    | ActiveById(id: nat)          // { id, is_active: true }
    | FirstNameLike(name: string)  // first_name LIKE '%name%'

  predicate OccursAt(s: string, sub: string, i: nat) {
    i + |sub| <= |s| && s[i..i + |sub|] == sub
  }

  /** `sub` is a substring of `s`; the model's reading of `LIKE '%sub%'`. */
  predicate Contains(s: string, sub: string) {
    exists i: nat :: i <= |s| && OccursAt(s, sub, i)
  }

  predicate Selects(w: Where, u: User) {
    match w
    case ByEmail(e) => u.email == e
    case ByPhone(p) => u.phone == p
    case ById(id) => u.id == id
    case ActiveById(id) => u.id == id && u.isActive
    case FirstNameLike(name) => Contains(u.firstName, name)
  }

  /** `findOne`: the first record in table order that the clause selects. */
  function FindFirst(users: seq<User>, w: Where): (r: Option<User>)
    ensures r.None? <==> forall i :: 0 <= i < |users| ==> !Selects(w, users[i])
    ensures r.Some? ==> exists i :: 0 <= i < |users| && users[i] == r.value && Selects(w, users[i])
                                  && forall j :: 0 <= j < i ==> !Selects(w, users[j])
  {
    if users == [] then None
    else if Selects(w, users[0]) then Some(users[0])
    else
      var r := FindFirst(users[1..], w);
      assert forall j :: 1 <= j < |users| ==> users[j] == users[1..][j - 1];
      r
  }

  /** The records, in table order, for which the clause holds (`keep`) or fails (`!keep`). */
  function Filter(users: seq<User>, w: Where, keep: bool): (r: seq<User>)
    ensures |r| <= |users|
    ensures forall u :: u in r <==> u in users && Selects(w, u) == keep
  {
    if users == [] then []
    else (if Selects(w, users[0]) == keep then [users[0]] else []) + Filter(users[1..], w, keep)
  }

  /** The SET part of an UPDATE. */
  datatype Change =
    | SetReset(token: string, expiry: int)  // reset_password_token and its expiry, together
    | ClearReset                            // both reset fields back to null
    | SetPassword(digest: Digest)           // password
    | SetProfile(dto: UpdateUserDto)        // first_name, last_name, phone, is_active

  /** One record after a change: no change touches the id, the email or the role. */
  function Apply(c: Change, u: User): (r: User)
    ensures r.id == u.id && r.email == u.email && r.role == u.role
    ensures c.SetReset? ==> r.resetToken == Some(c.token) && r.resetExpiry == Some(c.expiry)
    ensures c.ClearReset? ==> r.resetToken.None? && r.resetExpiry.None?
    ensures !c.SetReset? && !c.ClearReset? ==> r.resetToken == u.resetToken && r.resetExpiry == u.resetExpiry
    ensures !c.SetPassword? ==> r.password == u.password
    ensures c.SetPassword? ==> r.password == c.digest
    ensures !c.SetProfile? ==> ProfileOf(r) == ProfileOf(u) && r.isActive == u.isActive
    ensures c.SetProfile? ==>
      && r.firstName == c.dto.firstName.GetOr(u.firstName)
      && r.lastName == c.dto.lastName.GetOr(u.lastName)
      && r.phone == c.dto.phone.GetOr(u.phone)
      && r.isActive == c.dto.isActive.GetOr(u.isActive)
  {
    match c
    case SetReset(token, expiry) => u.(resetToken := Some(token), resetExpiry := Some(expiry))
    case ClearReset => u.(resetToken := None, resetExpiry := None)
    case SetPassword(d) => u.(password := d)
    case SetProfile(dto) =>
      u.(firstName := dto.firstName.GetOr(u.firstName),
         lastName := dto.lastName.GetOr(u.lastName),
         phone := dto.phone.GetOr(u.phone),
         isActive := dto.isActive.GetOr(u.isActive))
  }

  /** `UPDATE user SET … WHERE …`: the selected records change, the others stay. */
  function UpdateWhere(users: seq<User>, w: Where, c: Change): (r: seq<User>)
    ensures |r| == |users|
    ensures forall i :: 0 <= i < |users| ==>
      r[i] == if Selects(w, users[i]) then Apply(c, users[i]) else users[i]
  {
    if users == [] then []
    else [if Selects(w, users[0]) then Apply(c, users[0]) else users[0]] + UpdateWhere(users[1..], w, c)
  }

  /** The reset fields are both null or both set. */
  predicate ResetFieldsPaired(u: User) {
    u.resetToken.Some? <==> u.resetExpiry.Some?
  }

  /**
   * What every operation keeps: ids below the next id to assign, ids and emails unique, reset
   * fields paired.
   */
  predicate TableInvariant(users: seq<User>, nextId: nat) {
    && (forall i :: 0 <= i < |users| ==> users[i].id < nextId && ResetFieldsPaired(users[i]))
    && (forall i, j :: 0 <= i < j < |users| ==> users[i].id != users[j].id && users[i].email != users[j].email)
  }

  /** One record after an UPDATE: same id and email, reset fields still paired. */
  lemma UpdatedRecord(users: seq<User>, w: Where, c: Change, i: nat)
    requires i < |users| && ResetFieldsPaired(users[i])
    ensures i < |UpdateWhere(users, w, c)|
    ensures UpdateWhere(users, w, c)[i].id == users[i].id
    ensures UpdateWhere(users, w, c)[i].email == users[i].email
    ensures ResetFieldsPaired(UpdateWhere(users, w, c)[i])
  {
    var v := UpdateWhere(users, w, c)[i];
    if Selects(w, users[i]) {
      assert v == Apply(c, users[i]);
    } else {
      assert v == users[i];
    }
  }

  lemma UpdateKeepsInvariant(users: seq<User>, nextId: nat, w: Where, c: Change)
    requires TableInvariant(users, nextId)
    ensures TableInvariant(UpdateWhere(users, w, c), nextId)
  {
    var r := UpdateWhere(users, w, c);
    forall i | 0 <= i < |r| ensures r[i].id == users[i].id && r[i].email == users[i].email && ResetFieldsPaired(r[i]) {
      UpdatedRecord(users, w, c, i);
    }
    forall i, j | 0 <= i < j < |r| ensures r[i].id != r[j].id && r[i].email != r[j].email {
      assert r[i].id == users[i].id && r[j].id == users[j].id;
    }
  }

  lemma TailKeepsInvariant(users: seq<User>, nextId: nat)
    requires users != [] && TableInvariant(users, nextId)
    ensures TableInvariant(users[1..], nextId)
    ensures forall v :: v in users[1..] ==> v.id != users[0].id && v.email != users[0].email
  {
    var tail := users[1..];
    forall i, j | 0 <= i < j < |tail| ensures tail[i].id != tail[j].id && tail[i].email != tail[j].email {
      assert tail[i] == users[i + 1] && tail[j] == users[j + 1];
    }
    forall v | v in tail ensures v.id != users[0].id && v.email != users[0].email {
      var k :| 0 <= k < |tail| && tail[k] == v;
      assert v == users[k + 1];
    }
  }

  lemma ConsKeepsInvariant(u: User, rest: seq<User>, nextId: nat)
    requires TableInvariant(rest, nextId) && u.id < nextId && ResetFieldsPaired(u)
    requires forall v :: v in rest ==> v.id != u.id && v.email != u.email
    ensures TableInvariant([u] + rest, nextId)
  {
    var r := [u] + rest;
    forall i, j | 0 <= i < j < |r| ensures r[i].id != r[j].id && r[i].email != r[j].email {
      assert r[j] == rest[j - 1];
      if i > 0 {
        assert r[i] == rest[i - 1];
      } else {
        assert r[j] in rest;
      }
    }
    forall i | 0 <= i < |r| ensures r[i].id < nextId && ResetFieldsPaired(r[i]) {
      if i > 0 {
        assert r[i] == rest[i - 1];
      }
    }
  }

  lemma {:induction false} FilterKeepsInvariant(users: seq<User>, nextId: nat, w: Where, keep: bool)
    requires TableInvariant(users, nextId)
    ensures TableInvariant(Filter(users, w, keep), nextId)
    decreases |users|
  {
    if users != [] {
      TailKeepsInvariant(users, nextId);
      FilterKeepsInvariant(users[1..], nextId, w, keep);
      if Selects(w, users[0]) == keep {
        ConsKeepsInvariant(users[0], Filter(users[1..], w, keep), nextId);
      }
    }
  }

  /**
   * Deleting by a unique id removes exactly the one record with that id and keeps every other
   * record.
   */
  lemma {:induction false} DeleteRemovesOne(users: seq<User>, nextId: nat, id: nat)
    requires TableInvariant(users, nextId)
    requires exists i :: 0 <= i < |users| && users[i].id == id
    ensures |Filter(users, ById(id), false)| == |users| - 1
    decreases |users|
  {
    var tail := users[1..];
    TailKeepsInvariant(users, nextId);
    if users[0].id == id {
      NoneSelected(tail, ById(id));
    } else {
      var i :| 0 <= i < |users| && users[i].id == id;
      assert tail[i - 1].id == id;
      DeleteRemovesOne(tail, nextId, id);
    }
  }

  lemma {:induction false} NoneSelected(users: seq<User>, w: Where)
    requires forall i :: 0 <= i < |users| ==> !Selects(w, users[i])
    ensures Filter(users, w, false) == users
    decreases |users|
  {
    if users != [] {
      NoneSelected(users[1..], w);
    }
  }

  /**
   * A change that keeps emails does not change which record an email lookup finds: after
   * `UPDATE … WHERE email = e`, looking `e` up finds the changed version of the same record.
   */
  lemma {:induction false} FindAfterUpdateByEmail(users: seq<User>, email: string, c: Change)
    ensures FindFirst(UpdateWhere(users, ByEmail(email), c), ByEmail(email)) ==
      match FindFirst(users, ByEmail(email))
      case None => None
      case Some(u) => Some(Apply(c, u))
    decreases |users|
  {
    if users != [] {
      var r := UpdateWhere(users, ByEmail(email), c);
      assert r[1..] == UpdateWhere(users[1..], ByEmail(email), c);
      FindAfterUpdateByEmail(users[1..], email, c);
    }
  }

  /**
   * The record `createUser` saves: role SUB whatever the body declares, the table's default
   * active flag whatever `is_active` the body sends, and only a digest of the password.
   */
  function NewRecord(id: nat, dto: CreateUserDto, salt: Salt, isActive: bool): (u: User)
    ensures u.id == id && u.role == SUB
    ensures Matches(dto.password, u.password)
    ensures u.resetToken.None? && u.resetExpiry.None?
    ensures u.email == dto.email && u.phone == dto.phone
    ensures u.firstName == dto.firstName && u.lastName == dto.lastName
    ensures u.isActive == isActive
  {
    User(id, dto.firstName, dto.lastName, dto.phone, dto.email, Hash(dto.password, salt), isActive, SUB, None, None)
  }

  /**
   * Registration ignores the role a body declares, and the role it would default to: every new
   * record is a SUB user, although a body without a role declares SUPER.
   */
  lemma RegistrationIgnoresDeclaredRole(id: nat, dto: CreateUserDto, salt: Salt, isActive: bool)
    ensures NewRecord(id, dto, salt, isActive).role == SUB
    ensures dto.role.None? ==> DeclaredRole(dto) == SUPER
  {
  }

  /** `page || 1` for a page number that is absent or zero. */
  function PageOrDefault(page: nat): nat {
    if page == 0 then 1 else page
  }

  /** `limit || 5` for a limit that is absent or zero. */
  function LimitOrDefault(limit: nat): nat {
    if limit == 0 then 5 else limit
  }

  /** The rows the listing draws from: filtered on the first name only when `name` is non-empty. */
  function Rows(users: seq<User>, name: Option<string>): seq<User> {
    if name.Some? && name.value != "" then Filter(users, FirstNameLike(name.value), true) else users
  }

  /** `.skip(skip).take(take)`: at most `take` rows from offset `skip`, in order. */
  function Page(rows: seq<User>, skip: nat, take: nat): (r: seq<User>)
    ensures |r| == if skip >= |rows| then 0 else if take <= |rows| - skip then take else |rows| - skip
    ensures forall i :: 0 <= i < |r| ==> r[i] == rows[skip + i]
  {
    if skip >= |rows| then []
    else if take <= |rows| - skip then rows[skip..skip + take]
    else rows[skip..]
  }

  /** Every row of a page comes from the table and, when a name is given, contains it. */
  lemma PageRows(users: seq<User>, name: Option<string>, skip: nat, take: nat)
    ensures forall u :: u in Page(Rows(users, name), skip, take) ==>
      u in users && (name.Some? ==> Contains(u.firstName, name.value))
  {
    var rows := Rows(users, name);
    var page := Page(rows, skip, take);
    forall u | u in page ensures u in users && (name.Some? ==> Contains(u.firstName, name.value)) {
      var i :| 0 <= i < |page| && page[i] == u;
      assert u == rows[skip + i];
      assert u in rows;
      if name.Some? && name.value == "" {
        assert OccursAt(u.firstName, name.value, 0);
      }
    }
  }

  class UserService {
    var users: seq<User>
    var nextId: nat
    /** The value the database gives `is_active` when registration leaves it unset. */
    const activeByDefault: bool

    ghost predicate Valid()
      reads this
    {
      TableInvariant(users, nextId)
    }

    constructor (activeByDefault: bool)
      ensures Valid() && users == [] && this.activeByDefault == activeByDefault
    {
      users := [];
      nextId := 1;
      this.activeByDefault := activeByDefault;
    }

    /** `getUserByEmail`: the first record with the email, active or not. */
    method GetUserByEmail(email: string) returns (r: Option<User>)
      ensures r.Some? <==> exists i :: 0 <= i < |users| && users[i].email == email
      ensures r.Some? ==> r.value in users && r.value.email == email
      ensures r == FindFirst(users, ByEmail(email))
    {
      r := FindFirst(users, ByEmail(email));
    }

    /** `getUserById`: the active record with the id, or NotFound. */
    method GetUserById(id: nat) returns (r: Outcome<User>)
      ensures r.Thrown? <==> forall i :: 0 <= i < |users| ==> !(users[i].id == id && users[i].isActive)
      ensures r.Thrown? ==> r.error == HttpError(NotFound, UserNotFound, NOT_FOUND)
      ensures r.Done? ==> r.reply.status == OK && r.reply.data in users
                          && r.reply.data.id == id && r.reply.data.isActive
    {
      var user := FindFirst(users, ActiveById(id));
      if user.None? {
        return Thrown(Rethrow(NotFound, UserNotFound, true, INTERNAL_SERVER_ERROR));
      }
      r := Done(Reply(OK, None, user.value));
    }

    /** `createUser`: refuse a taken email, then a taken phone, else save a new SUB record. */
    method CreateUser(dto: CreateUserDto, salt: Salt) returns (r: Outcome<Profile>)
      requires Valid()
      modifies this
      ensures Valid()
      ensures FindFirst(old(users), ByEmail(dto.email)).Some? ==>
        && r == Thrown(HttpError(BadRequest, EmailAlreadyExists, BAD_REQUEST))
        && users == old(users) && nextId == old(nextId)
      ensures FindFirst(old(users), ByEmail(dto.email)).None? && FindFirst(old(users), ByPhone(dto.phone)).Some? ==>
        && r == Thrown(HttpError(BadRequest, PhoneAlreadyExists, BAD_REQUEST))
        && users == old(users) && nextId == old(nextId)
      ensures FindFirst(old(users), ByEmail(dto.email)).None? && FindFirst(old(users), ByPhone(dto.phone)).None? ==>
        && users == old(users) + [NewRecord(old(nextId), dto, salt, activeByDefault)]
        && nextId == old(nextId) + 1
        && r == Done(Reply(CREATED, Some(UserCreated), ProfileOf(users[|users| - 1])))
    {
      var existingUser := GetUserByEmail(dto.email);
      if existingUser.Some? {
        return Thrown(Rethrow(BadRequest, EmailAlreadyExists, true, INTERNAL_SERVER_ERROR));
      }
      var existingPhone := FindFirst(users, ByPhone(dto.phone));
      if existingPhone.Some? {
        return Thrown(Rethrow(BadRequest, PhoneAlreadyExists, true, INTERNAL_SERVER_ERROR));
      }
      var user := NewRecord(nextId, dto, salt, activeByDefault);
      users := users + [user];
      nextId := nextId + 1;
      r := Done(Reply(CREATED, Some(UserCreated), ProfileOf(user)));
    }

    /** `updateUserById`: change the profile fields of an active record. */
    method UpdateUserById(id: nat, dto: UpdateUserDto) returns (r: Outcome<()>)
      requires Valid()
      modifies this`users
      ensures Valid()
      ensures FindFirst(old(users), ActiveById(id)).None? ==>
        r == Thrown(HttpError(NotFound, UserNotFound, NOT_FOUND)) && users == old(users)
      ensures FindFirst(old(users), ActiveById(id)).Some? ==>
        && r == Done(Reply(CREATED, Some(UserUpdated), ()))
        && users == UpdateWhere(old(users), ById(id), SetProfile(dto))
    {
      var existing := FindFirst(users, ActiveById(id));
      if existing.None? {
        return Thrown(Rethrow(NotFound, UserNotFound, true, INTERNAL_SERVER_ERROR));
      }
      UpdateKeepsInvariant(users, nextId, ById(id), SetProfile(dto));
      users := UpdateWhere(users, ById(id), SetProfile(dto));
      r := Done(Reply(CREATED, Some(UserUpdated), ()));
    }

    /** `deleteUserById`: remove an active record; an inactive one is NotFound. */
    method DeleteUserById(id: nat) returns (r: Outcome<()>)
      requires Valid()
      modifies this`users
      ensures Valid()
      ensures FindFirst(old(users), ActiveById(id)).None? ==>
        r == Thrown(HttpError(NotFound, UserNotFound, NOT_FOUND)) && users == old(users)
      ensures FindFirst(old(users), ActiveById(id)).Some? ==>
        && r == Done(Reply(OK, Some(UserDeleted), ()))
        && users == Filter(old(users), ById(id), false)
        && |users| == |old(users)| - 1
    {
      var found := GetUserById(id);
      if found.Thrown? {
        return Thrown(Rethrow(found.error.kind, found.error.message, true, INTERNAL_SERVER_ERROR));
      }
      DeleteRemovesOne(users, nextId, id);
      FilterKeepsInvariant(users, nextId, ById(id), false);
      users := Filter(users, ById(id), false);
      r := Done(Reply(OK, Some(UserDeleted), ()));
    }

    /** `setTokenAndDate`: write token and expiry together, and only when both are given. */
    method SetTokenAndDate(email: string, token: Option<string>, expiry: Option<int>)
      requires Valid()
      modifies this`users
      ensures Valid()
      ensures token.Some? && expiry.Some? ==>
        users == UpdateWhere(old(users), ByEmail(email), SetReset(token.value, expiry.value))
      ensures token.None? || expiry.None? ==> users == old(users)
    {
      if token.Some? && expiry.Some? {
        UpdateKeepsInvariant(users, nextId, ByEmail(email), SetReset(token.value, expiry.value));
        users := UpdateWhere(users, ByEmail(email), SetReset(token.value, expiry.value));
      }
    }

    /** Write null into both reset fields of the records with the email. */
    method ClearTokenAndDate(email: string)
      requires Valid()
      modifies this`users
      ensures Valid()
      ensures users == UpdateWhere(old(users), ByEmail(email), ClearReset)
    {
      UpdateKeepsInvariant(users, nextId, ByEmail(email), ClearReset);
      users := UpdateWhere(users, ByEmail(email), ClearReset);
    }

    /** `userPasswordUpdate`: replace the password of the records with the email; always true. */
    method UserPasswordUpdate(email: string, password: Digest) returns (ok: bool)
      requires Valid()
      modifies this`users
      ensures Valid()
      ensures ok && users == UpdateWhere(old(users), ByEmail(email), SetPassword(password))
    {
      UpdateKeepsInvariant(users, nextId, ByEmail(email), SetPassword(password));
      users := UpdateWhere(users, ByEmail(email), SetPassword(password));
      ok := true;
    }

    /** `findAllUsers`: one page of records, optionally those whose first name contains `name`. */
    method FindAllUsers(page: nat, limit: nat, name: Option<string>) returns (r: Reply<seq<User>>)
      ensures r.status == OK && r.message == Some(UsersRetrieved)
      ensures |r.data| <= LimitOrDefault(limit)
      ensures forall u :: u in r.data ==> u in users && (name.Some? ==> Contains(u.firstName, name.value))
      ensures r.data == Page(Rows(users, name), (PageOrDefault(page) - 1) * LimitOrDefault(limit), LimitOrDefault(limit))
    {
      var p := PageOrDefault(page);
      var l := LimitOrDefault(limit);
      var skip := (p - 1) * l;
      var rows := Rows(users, name);
      r := Reply(OK, Some(UsersRetrieved), Page(rows, skip, l));
      PageRows(users, name, skip, l);
    }
  }
}
