/**
 * The user table as a sequence of rows in storage order, the three queries the
 * service runs against it, and the specification of registration and update
 * as functions of the table.
 */
module UserTable {
  import opened Wrappers
  import opened UserData

  /**
   * A `where` clause: `{ id }`, `{ email }`, and the query builder's
   * `username = :username OR email = :email`.
   */
  datatype Query =
    | ById(id: int)
    | ByEmail(email: string)
    | ByUsernameOrEmail(username: string, email: string)

  predicate Matches(q: Query, u: User) {
    match q
    case ById(id) => u.id == id
    case ByEmail(email) => u.email == email
    case ByUsernameOrEmail(username, email) => u.username == username || u.email == email
  }

  /** Row `i` is the first row that `q` selects. */
  ghost predicate IsFirst(users: seq<User>, i: int, q: Query) {
    && 0 <= i < |users|
    && Matches(q, users[i])
    && forall j :: 0 <= j < i ==> !Matches(q, users[j])
  }

  /**
   * The row a single-row query (`findOne`, `getOne`) returns: the first match
   * in storage order, or none when no row matches.
   */
  function FirstIndex(users: seq<User>, q: Query): (r: Option<nat>)
    ensures r.Some? ==> IsFirst(users, r.value, q)
    ensures r.None? <==> forall j :: 0 <= j < |users| ==> !Matches(q, users[j])
  {
    if users == [] then None
    else if Matches(q, users[0]) then Some(0)
    else
      match FirstIndex(users[1..], q)
      case None => None
      case Some(i) => Some(i + 1)
  }

  /** No two rows share a username, and no two rows share an email. */
  ghost predicate UniqueKeys(users: seq<User>) {
    forall i, j :: 0 <= i < j < |users| ==>
      users[i].username != users[j].username && users[i].email != users[j].email
  }

  /** The primary key: no two rows share an id. */
  ghost predicate DistinctIds(users: seq<User>) {
    forall i, j :: 0 <= i < j < |users| ==> users[i].id != users[j].id
  }

  /** The entity `create` assembles from the request: its fields, and an empty article list. */
  function Draft(dto: CreateUserDto): (n: NewUser)
    ensures n.username == dto.username && n.email == dto.email && n.password == dto.password
    ensures n.articles == []
  {
    NewUser(dto.username, dto.email, dto.password, [])
  }

  /** The row `save` inserts for `n` under the id the table hands out. */
  function Saved(n: NewUser, id: int): (u: User)
    ensures u.id == id
    ensures u.username == n.username && u.email == n.email && u.password == Some(n.password)
    ensures u.articles == n.articles
    ensures u.image == None && u.favorites == None
  {
    User(id, n.username, n.email, Some(n.password), None, n.articles, None)
  }

  /**
   * Registration: fail with 400 when some row has the username OR the email,
   * fail with 400 when the validator reports an error, otherwise the new row.
   */
  function Registration(users: seq<User>, dto: CreateUserDto, id: int, validate: NewUser -> seq<ValidationError>)
    : (r: Result<User, Failure>)
    ensures r == Failure(HttpException(BadRequest, NotUnique))
        <==> exists u :: u in users && (u.username == dto.username || u.email == dto.email)
    ensures r == Failure(HttpException(BadRequest, InvalidInput))
        <==> && (forall u :: u in users ==> u.username != dto.username && u.email != dto.email)
             && |validate(Draft(dto))| > 0
    ensures r.Success?
        <==> && (forall u :: u in users ==> u.username != dto.username && u.email != dto.email)
             && |validate(Draft(dto))| == 0
    ensures r.Success? ==>
      && r.value.id == id
      && r.value.username == dto.username
      && r.value.email == dto.email
      && r.value.password == Some(dto.password)
      && r.value.image == None
      && r.value.articles == []
      && r.value.favorites == None
  {
    if FirstIndex(users, ByUsernameOrEmail(dto.username, dto.email)).Some? then
      Failure(HttpException(BadRequest, NotUnique))
    else if |validate(Draft(dto))| > 0 then
      Failure(HttpException(BadRequest, InvalidInput))
    else
      Success(Saved(Draft(dto), id))
  }

  /** `delete toUpdate.password; delete toUpdate.favorites` */
  function Stripped(u: User): (s: User)
    ensures s.password == None && s.favorites == None
    ensures s.(password := u.password, favorites := u.favorites) == u
  {
    u.(password := None, favorites := None)
  }

  /** `{ ...u, ...dto }`: every property the request carries overrides the record's. */
  function Overlay(u: User, dto: UpdateUserDto): (m: User)
    ensures m.id == u.id
    ensures dto.username.Some? ==> m.username == dto.username.value
    ensures dto.username.None? ==> m.username == u.username
    ensures dto.email.Some? ==> m.email == dto.email.value
    ensures dto.email.None? ==> m.email == u.email
    ensures dto.articles.Some? ==> m.articles == dto.articles.value
    ensures dto.articles.None? ==> m.articles == u.articles
    ensures dto.password.Some? ==> m.password == dto.password
    ensures dto.password.None? ==> m.password == u.password
    ensures dto.image.Some? ==> m.image == dto.image
    ensures dto.image.None? ==> m.image == u.image
    ensures dto.favorites.Some? ==> m.favorites == dto.favorites
    ensures dto.favorites.None? ==> m.favorites == u.favorites
  {
    User(
      u.id,
      dto.username.GetOr(u.username),
      dto.email.GetOr(u.email),
      if dto.password.Some? then dto.password else u.password,
      if dto.image.Some? then dto.image else u.image,
      dto.articles.GetOr(u.articles),
      if dto.favorites.Some? then dto.favorites else u.favorites)
  }

  /**
   * What `save` leaves in an existing row when given `obj` for it: the ORM
   * writes only the properties `obj` defines, so an absent password, image or
   * favorites list keeps the stored value.
   */
  function SaveOver(stored: User, obj: User): (row: User)
    ensures row.(password := obj.password, image := obj.image, favorites := obj.favorites) == obj
    ensures obj.password.Some? ==> row.password == obj.password
    ensures obj.password.None? ==> row.password == stored.password
    ensures obj.image.Some? ==> row.image == obj.image
    ensures obj.image.None? ==> row.image == stored.image
    ensures obj.favorites.Some? ==> row.favorites == obj.favorites
    ensures obj.favorites.None? ==> row.favorites == stored.favorites
  {
    obj.(
      password := if obj.password.Some? then obj.password else stored.password,
      image := if obj.image.Some? then obj.image else stored.image,
      favorites := if obj.favorites.Some? then obj.favorites else stored.favorites)
  }

  /**
   * The row `update` leaves in the table: the request's properties over the
   * stored row. Deleting the password and favorites from the object `update`
   * hands to `save` does not erase them from the table; only a request that
   * carries them replaces them.
   */
  lemma UpdatedRow(u: User, dto: UpdateUserDto)
    ensures var row := SaveOver(u, Overlay(Stripped(u), dto));
      && row == Overlay(u, dto)
      && row.password == (if dto.password.Some? then dto.password else u.password)
      && row.favorites == (if dto.favorites.Some? then dto.favorites else u.favorites)
  {
  }

  /**
   * The record `update` hands to `save` and returns: each property present in
   * the request takes the request's value; username, email, image and articles
   * otherwise keep the stored value; the stored password and favorites are
   * never carried over.
   */
  lemma UpdatedRecord(u: User, dto: UpdateUserDto)
    ensures var m := Overlay(Stripped(u), dto);
      && m.id == u.id
      && m.username == (if dto.username.Some? then dto.username.value else u.username)
      && m.email == (if dto.email.Some? then dto.email.value else u.email)
      && m.image == (if dto.image.Some? then dto.image else u.image)
      && m.articles == (if dto.articles.Some? then dto.articles.value else u.articles)
      && m.password == dto.password
      && m.favorites == dto.favorites
  {
  }

  /** A successful registration keeps usernames and emails pairwise distinct. */
  lemma RegistrationKeepsKeysUnique(
    users: seq<User>, dto: CreateUserDto, id: int, validate: NewUser -> seq<ValidationError>)
    requires UniqueKeys(users)
    requires Registration(users, dto, id, validate).Success?
    ensures UniqueKeys(users + [Registration(users, dto, id, validate).value])
  {
  }

  /** A successful registration under a fresh id keeps the ids distinct. */
  lemma RegistrationKeepsIdsDistinct(
    users: seq<User>, dto: CreateUserDto, id: int, validate: NewUser -> seq<ValidationError>)
    requires DistinctIds(users)
    requires forall u :: u in users ==> u.id < id
    requires Registration(users, dto, id, validate).Success?
    ensures DistinctIds(users + [Registration(users, dto, id, validate).value])
  {
  }

  /**
   * After a successful registration, a lookup by the new email and a lookup by
   * the new id both select the new row.
   */
  lemma {:induction false} RegisteredRowIsFound(
    users: seq<User>, dto: CreateUserDto, id: int, validate: NewUser -> seq<ValidationError>)
    requires forall u :: u in users ==> u.id < id
    requires Registration(users, dto, id, validate).Success?
    ensures var t := users + [Registration(users, dto, id, validate).value];
      && FirstIndex(t, ByEmail(dto.email)) == Some(|users|)
      && FirstIndex(t, ById(id)) == Some(|users|)
  {
    var t := users + [Registration(users, dto, id, validate).value];
    forall j | 0 <= j < |users| ensures !Matches(ByEmail(dto.email), t[j]) && !Matches(ById(id), t[j]) {
      assert t[j] in users;
    }
    assert Matches(ByEmail(dto.email), t[|users|]) && Matches(ById(id), t[|users|]);
  }

  /**
   * Once an account is registered, a second registration that repeats its
   * username or its email fails with 400; either field alone is enough.
   */
  lemma SecondRegistrationFails(
    users: seq<User>, first: CreateUserDto, second: CreateUserDto, id1: int, id2: int,
    validate: NewUser -> seq<ValidationError>)
    requires Registration(users, first, id1, validate).Success?
    requires second.username == first.username || second.email == first.email
    ensures var t := users + [Registration(users, first, id1, validate).value];
      Registration(t, second, id2, validate) == Failure(HttpException(BadRequest, NotUnique))
  {
  }

  /**
   * Uniqueness is enforced only at registration: an update that gives one
   * account another account's email leaves the table with two rows sharing
   * that email (the row `update` stores is the request over the stored row).
   */
  lemma UpdateCanDuplicateEmail()
    ensures
      var ada := User(1, "ada", "ada@x.com", Some("s3cret"), None, [], None);
      var bob := User(2, "bob", "bob@x.com", Some("hunter2"), None, [], None);
      var dto := UpdateUserDto(None, Some("ada@x.com"), None, None, None, None);
      && UniqueKeys([ada, bob])
      && !UniqueKeys([ada, bob][1 := Overlay(bob, dto)])
  {
    var ada := User(1, "ada", "ada@x.com", Some("s3cret"), None, [], None);
    var bob := User(2, "bob", "bob@x.com", Some("hunter2"), None, [], None);
    var dto := UpdateUserDto(None, Some("ada@x.com"), None, None, None, None);
    var after := [ada, bob][1 := Overlay(bob, dto)];
    assert after[0].email == after[1].email;
  }
}
