/**
 * The account service over its user table. The table is the service's state;
 * password verification, field validation and token signing are library calls
 * the service is given as functions.
 */
module Service {
  import opened Wrappers
  import opened UserData
  import opened UserTable

  class UserService {
    /** The user table, in storage order. */
    var users: seq<User>
    /** The next id the table hands out on insert. */
    var nextId: int

    /** argon2's `verify(storedDigest, givenPassword)`. */
    const verify: (Option<string>, string) -> Verdict
    /** class-validator's `validate` on a new entity: the list of errors. */
    const validate: NewUser -> seq<ValidationError>
    /** `jwt.sign(claims, SECRET)`. */
    const sign: Claims -> Token

    /** The table's own guarantees: ids are distinct and below the next id. */
    ghost predicate Valid()
      reads this
    {
      && DistinctIds(users)
      && forall u :: u in users ==> u.id < nextId
    }

    constructor (rows: seq<User>, firstFreeId: int,
                 verify: (Option<string>, string) -> Verdict,
                 validate: NewUser -> seq<ValidationError>,
                 sign: Claims -> Token)
      requires DistinctIds(rows)
      requires forall u :: u in rows ==> u.id < firstFreeId
      ensures Valid()
      ensures users == rows && nextId == firstFreeId
      ensures this.verify == verify && this.validate == validate && this.sign == sign
    {
      users := rows;
      nextId := firstFreeId;
      this.verify := verify;
      this.validate := validate;
      this.sign := sign;
    }

    /** `findAll`: every row. */
    method FindAll() returns (r: seq<User>)
      ensures r == users
    {
      r := users;
    }

    /**
     * `findOne` (login): null when no row has the email; otherwise the first
     * such row if the password verifies, null if it does not. A digest the
     * verifier cannot parse makes it throw.
     */
    method FindOne(dto: LoginUserDto) returns (r: Result<Option<User>, Failure>)
      ensures (forall u :: u in users ==> u.email != dto.email) ==> r == Success(None)
      ensures forall i :: IsFirst(users, i, ByEmail(dto.email)) ==>
        r == (match verify(users[i].password, dto.password)
              case Match => Success(Some(users[i]))
              case Mismatch => Success(None)
              case Malformed => Failure(VerifierError))
      ensures r.Success? && r.value.Some? ==>
        && r.value.value in users
        && r.value.value.email == dto.email
        && verify(r.value.value.password, dto.password) == Match
    {
      var found := FirstIndex(users, ByEmail(dto.email));
      if found.None? {
        return Success(None);
      }
      var user := users[found.value];
      var verdict := verify(user.password, dto.password);
      if verdict == Malformed {
        return Failure(VerifierError);
      }
      if verdict == Match {
        return Success(Some(user));
      }
      return Success(None);
    }

    /** `findById`: the view of the row with the id, or a 401 when there is none. */
    method FindById(id: int, nowMs: int) returns (r: Result<UserRO, Failure>)
      ensures r.Failure? <==> forall u :: u in users ==> u.id != id
      ensures r.Failure? ==> r.error == HttpException(Unauthorized, NotFound)
      ensures forall i :: IsFirst(users, i, ById(id)) ==> r == Success(BuildUserRO(users[i], nowMs, sign))
    {
      var found := FirstIndex(users, ById(id));
      if found.None? {
        return Failure(HttpException(Unauthorized, NotFound));
      }
      return Success(BuildUserRO(users[found.value], nowMs, sign));
    }

    /** `findByEmail`: the view of the first row with the email, which must exist. */
    method FindByEmail(email: string, nowMs: int) returns (r: UserRO)
      requires exists u :: u in users && u.email == email
      ensures r.email == email
      ensures forall i :: IsFirst(users, i, ByEmail(email)) ==> r == BuildUserRO(users[i], nowMs, sign)
    {
      var found := FirstIndex(users, ByEmail(email));
      r := BuildUserRO(users[found.value], nowMs, sign);
    }

    /**
     * `update`: load the row with the id, drop its password and favorites,
     * spread the request over it, save the result over that row and return it.
     */
    method Update(id: int, dto: UpdateUserDto) returns (r: User)
      requires Valid()
      requires exists u :: u in users && u.id == id
      modifies this
      ensures Valid()
      ensures nextId == old(nextId)
      ensures r.id == id && r.password == dto.password && r.favorites == dto.favorites
      ensures forall i :: IsFirst(old(users), i, ById(id)) ==>
        && r == Overlay(Stripped(old(users)[i]), dto)
        && users == old(users)[i := Overlay(old(users)[i], dto)]
    {
      var found := FirstIndex(users, ById(id));
      var toUpdate := Stripped(users[found.value]);
      var updated := Overlay(toUpdate, dto);
      UpdatedRow(users[found.value], dto);
      users := users[found.value := SaveOver(users[found.value], updated)];
      r := updated;
    }

    /**
     * `create` (registration): 400 when a row has the username or the email,
     * 400 when the new entity fails validation, otherwise the entity is
     * saved under a fresh id and its view is returned.
     */
    method Create(dto: CreateUserDto, nowMs: int) returns (r: Result<UserRO, Failure>)
      requires Valid()
      modifies this
      ensures Valid()
      ensures match Registration(old(users), dto, old(nextId), validate)
        case Failure(e) =>
          r == Failure(e) && users == old(users) && nextId == old(nextId)
        case Success(u) =>
          && r == Success(BuildUserRO(u, nowMs, sign))
          && users == old(users) + [u]
          && nextId == old(nextId) + 1
      ensures r.Success? && UniqueKeys(old(users)) ==> UniqueKeys(users)
    {
      var clash := FirstIndex(users, ByUsernameOrEmail(dto.username, dto.email));
      if clash.Some? {
        return Failure(HttpException(BadRequest, NotUnique));
      }
      var newUser := Draft(dto);
      var errors := validate(newUser);
      if |errors| > 0 {
        return Failure(HttpException(BadRequest, InvalidInput));
      }
      if UniqueKeys(users) {
        RegistrationKeepsKeysUnique(users, dto, nextId, validate);
      }
      RegistrationKeepsIdsDistinct(users, dto, nextId, validate);
      var savedUser := Saved(newUser, nextId);
      users := users + [savedUser];
      nextId := nextId + 1;
      r := Success(BuildUserRO(savedUser, nowMs, sign));
    }
  }
}
