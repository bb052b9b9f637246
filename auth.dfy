/**
 * User registration (the register handler of src/auth.py): a cascade of
 * checks, each of which answers with an error and writes nothing, followed by
 * one insert into the user table.
 *
 * The e-mail format check and the password hash are library calls; they are
 * parameters here (isEmail, hash).
 */
module Auth {
  import opened Optional
  import opened Validators
  import opened Identifiers
  import opened Models

  const BadRequest := 400
  const Conflict := 409
  const Created := 201

  const CheckYourEmail := "check your email"
  const EmailTakenMessage := "email taken"
  const UsernameTakenMessage := "username taken"
  const UserCreated := "User created"

  /** The JSON body of a registration request. */
  datatype Request = Request(username: string, email: string, password: string)

  /** The JSON body of a response: an error, or the created user's public fields. */
  datatype Body = Error(error: string) | Success(message: string, username: string, email: string)

  datatype Response = Response(body: Body, status: int)

  /** What a registration leaves behind: the response and the user table. */
  datatype Outcome = Outcome(response: Response, users: map<string, UserRow>)

  /** The query for a user row with this e-mail finds one. */
  predicate EmailTaken(users: map<string, UserRow>, email: string) {
    exists id :: id in users && users[id].email == email
  }

  /** The query for a user row with this username finds one. */
  predicate UsernameTaken(users: map<string, UserRow>, username: string) {
    exists id :: id in users && users[id].username == username
  }

  /**
   * The user table's own invariant: each row sits under its own id, and no two
   * rows share a username or an e-mail address.
   */
  predicate UniqueUsers(users: map<string, UserRow>) {
    (forall id :: id in users ==> users[id].id == id)
    && (forall a, b :: a in users && b in users && a != b ==>
          users[a].username != users[b].username && users[a].email != users[b].email)
  }

  /**
   * The checks made before anything is written, in the handler's order: the
   * response of the first that fails, or None when the user may be inserted.
   */
  function Rejection(req: Request, users: map<string, UserRow>, isEmail: string -> bool): (e: Option<Response>)
    ensures e.None? <==>
      CheckUsername(req.username).status && CheckPassword(req.password).status
      && isEmail(req.email) && !EmailTaken(users, req.email) && !UsernameTaken(users, req.username)
    ensures e.Some? ==> e.value.body.Error?
    ensures e.Some? ==> (e.value.status == BadRequest || e.value.status == Conflict)
  {
    var usernameRes := CheckUsername(req.username);
    var passwordRes := CheckPassword(req.password);
    if !usernameRes.status then Some(Response(Error(usernameRes.message), BadRequest))
    else if !passwordRes.status then Some(Response(Error(passwordRes.message), BadRequest))
    else if !isEmail(req.email) then Some(Response(Error(CheckYourEmail), BadRequest))
    else if EmailTaken(users, req.email) then Some(Response(Error(EmailTakenMessage), Conflict))
    else if UsernameTaken(users, req.username) then Some(Response(Error(UsernameTakenMessage), Conflict))
    else None
  }

  /**
   * The whole registration as a value: the first rejection and an untouched
   * table, or a 201 response and the table with one new row whose id is the
   * first free draw and whose password is the hash of the given one.
   */
  function RegisterOutcome(req: Request, users: map<string, UserRow>, isEmail: string -> bool,
                           hash: string -> string, draws: seq<string>): (o: Outcome)
    requires Rejection(req, users, isEmail).None? ==> HasFresh(users.Keys, draws)
    ensures o.response.status == Created <==> Rejection(req, users, isEmail).None?
    ensures o.response.status != Created ==> o.response == Rejection(req, users, isEmail).value
    ensures o.response.status == Created ==> UsernameTaken(o.users, req.username) && EmailTaken(o.users, req.email)
  {
    match Rejection(req, users, isEmail)
    case Some(err) => Outcome(err, users)
    case None =>
      var id := draws[FirstFreshIndex(users.Keys, draws)];
      var added := users[id := UserRow(id, req.username, req.email, hash(req.password))];
      assert id in added && added[id].username == req.username && added[id].email == req.email;
      Outcome(Response(Success(UserCreated, req.username, req.email), Created), added)
  }

  /** The handler: runs the cascade, then builds the user and adds its row. */
  method Register(db: Database, req: Request, isEmail: string -> bool, hash: string -> string,
                  draws: seq<string>) returns (resp: Response)
    requires Rejection(req, db.users, isEmail).None? ==> HasFresh(db.users.Keys, draws)
    modifies db`users
    ensures Outcome(resp, db.users) == RegisterOutcome(req, old(db.users), isEmail, hash, draws)
    ensures old(UniqueUsers(db.users)) ==> UniqueUsers(db.users)
  {
    if UniqueUsers(db.users) {
      RegisterKeepsUsersUnique(req, db.users, isEmail, hash, draws);
    }
    var usernameRes := CheckUsername(req.username);
    if !usernameRes.status {
      return Response(Error(usernameRes.message), BadRequest);
    }
    var passwordRes := CheckPassword(req.password);
    if !passwordRes.status {
      return Response(Error(passwordRes.message), BadRequest);
    }
    if !isEmail(req.email) {
      return Response(Error(CheckYourEmail), BadRequest);
    }
    if EmailTaken(db.users, req.email) {
      return Response(Error(EmailTakenMessage), Conflict);
    }
    if UsernameTaken(db.users, req.username) {
      return Response(Error(UsernameTakenMessage), Conflict);
    }
    var pwdHash := hash(req.password);
    var user := new User(req.username, req.email, pwdHash, db, draws);
    db.users := db.users[user.id := UserRow(user.id, user.username, user.email, user.password)];
    resp := Response(Success(UserCreated, req.username, req.email), Created);
  }

  /** After a row is inserted under a new id, an e-mail is taken iff it was before or it is the new row's. */
  lemma EmailTakenAfterInsert(users: map<string, UserRow>, id: string, row: UserRow, email: string)
    requires id !in users
    ensures EmailTaken(users[id := row], email) <==> EmailTaken(users, email) || email == row.email
  {
    var added := users[id := row];
    if EmailTaken(added, email) && email != row.email {
      var other :| other in added && added[other].email == email;
      assert other != id && other in users;
    }
    if EmailTaken(users, email) {
      var other :| other in users && users[other].email == email;
      assert other in added && added[other] == users[other];
    }
    if email == row.email {
      assert id in added && added[id] == row;
    }
  }

  /** After a row is inserted under a new id, a username is taken iff it was before or it is the new row's. */
  lemma UsernameTakenAfterInsert(users: map<string, UserRow>, id: string, row: UserRow, username: string)
    requires id !in users
    ensures UsernameTaken(users[id := row], username) <==> UsernameTaken(users, username) || username == row.username
  {
    var added := users[id := row];
    if UsernameTaken(added, username) && username != row.username {
      var other :| other in added && added[other].username == username;
      assert other != id && other in users;
    }
    if UsernameTaken(users, username) {
      var other :| other in users && users[other].username == username;
      assert other in added && added[other] == users[other];
    }
    if username == row.username {
      assert id in added && added[id] == row;
    }
  }

  /**
   * With unique usernames and e-mails, the query by e-mail or by username
   * matches at most one row, so taking the first match picks the only one.
   */
  lemma QueriesMatchAtMostOneRow(users: map<string, UserRow>, a: string, b: string)
    requires UniqueUsers(users)
    requires a in users && b in users
    ensures users[a].email == users[b].email ==> a == b
    ensures users[a].username == users[b].username ==> a == b
  {
  }

  /** An invalid username is reported first, whatever the password and e-mail. */
  lemma InvalidUsernameWins(req: Request, users: map<string, UserRow>, isEmail: string -> bool)
    requires !CheckUsername(req.username).status
    ensures Rejection(req, users, isEmail) == Some(Response(Error(CheckUsername(req.username).message), BadRequest))
  {
  }

  /** With a valid username, an invalid password is reported next. */
  lemma InvalidPasswordNext(req: Request, users: map<string, UserRow>, isEmail: string -> bool)
    requires CheckUsername(req.username).status && !CheckPassword(req.password).status
    ensures Rejection(req, users, isEmail) == Some(Response(Error(CheckPassword(req.password).message), BadRequest))
  {
  }

  /**
   * With a valid username and password, an e-mail that fails the format check
   * is reported next, even when the e-mail or the username is taken.
   */
  lemma InvalidEmailNext(req: Request, users: map<string, UserRow>, isEmail: string -> bool)
    requires CheckUsername(req.username).status && CheckPassword(req.password).status
    requires !isEmail(req.email)
    ensures Rejection(req, users, isEmail) == Some(Response(Error(CheckYourEmail), BadRequest))
  {
  }

  /** A taken e-mail is reported before a taken username. */
  lemma EmailTakenBeforeUsernameTaken(req: Request, users: map<string, UserRow>, isEmail: string -> bool)
    requires CheckUsername(req.username).status && CheckPassword(req.password).status && isEmail(req.email)
    requires EmailTaken(users, req.email)
    ensures Rejection(req, users, isEmail) == Some(Response(Error(EmailTakenMessage), Conflict))
  {
  }

  /** A taken username with a fresh e-mail is a conflict on the username. */
  lemma UsernameTakenWithFreshEmail(req: Request, users: map<string, UserRow>, isEmail: string -> bool)
    requires CheckUsername(req.username).status && CheckPassword(req.password).status && isEmail(req.email)
    requires !EmailTaken(users, req.email) && UsernameTaken(users, req.username)
    ensures Rejection(req, users, isEmail) == Some(Response(Error(UsernameTakenMessage), Conflict))
  {
  }

  /** Every error leaves the user table as it was; only a 201 adds a row. */
  lemma ErrorLeavesUsersUnchanged(req: Request, users: map<string, UserRow>, isEmail: string -> bool,
                                  hash: string -> string, draws: seq<string>)
    requires Rejection(req, users, isEmail).None? ==> HasFresh(users.Keys, draws)
    ensures var o := RegisterOutcome(req, users, isEmail, hash, draws);
      o.response.status != Created ==> o.users == users
  {
  }

  /**
   * A successful registration adds exactly one row, under an id the table did
   * not hold, with the given username and e-mail and the hashed password, and
   * echoes the username and e-mail.
   */
  lemma SuccessAddsOneUser(req: Request, users: map<string, UserRow>, isEmail: string -> bool,
                           hash: string -> string, draws: seq<string>)
    requires Rejection(req, users, isEmail).None? ==> HasFresh(users.Keys, draws)
    ensures var o := RegisterOutcome(req, users, isEmail, hash, draws);
      o.response.status == Created ==>
        o.response.body == Success(UserCreated, req.username, req.email)
        && exists id :: id !in users
             && o.users == users[id := UserRow(id, req.username, req.email, hash(req.password))]
             && o.users.Keys == users.Keys + {id}
             && |o.users| == |users| + 1
  {
    var o := RegisterOutcome(req, users, isEmail, hash, draws);
    if o.response.status == Created {
      var id := draws[FirstFreshIndex(users.Keys, draws)];
      assert o.users.Keys == users.Keys + {id};
    }
  }

  /** Registration keeps usernames and e-mail addresses unique in the user table. */
  lemma RegisterKeepsUsersUnique(req: Request, users: map<string, UserRow>, isEmail: string -> bool,
                                 hash: string -> string, draws: seq<string>)
    requires Rejection(req, users, isEmail).None? ==> HasFresh(users.Keys, draws)
    requires UniqueUsers(users)
    ensures UniqueUsers(RegisterOutcome(req, users, isEmail, hash, draws).users)
  {
  }

  /**
   * Registering user1 on an empty table succeeds; registering user1 again
   * with another e-mail is a conflict on the username.
   */
  lemma RegistrationSample(isEmail: string -> bool, hash: string -> string, draws: seq<string>)
    requires isEmail("a@b.com") && isEmail("c@d.com") && |draws| > 0
    ensures var first := RegisterOutcome(Request("user1", "a@b.com", "Password1!"), map[], isEmail, hash, draws);
      first.response == Response(Success(UserCreated, "user1", "a@b.com"), Created)
      && RegisterOutcome(Request("user1", "c@d.com", "Password1!"), first.users, isEmail, hash, draws).response
         == Response(Error(UsernameTakenMessage), Conflict)
  {
    UsernameSamples();
    AcceptedPasswordSample();
  }
}
