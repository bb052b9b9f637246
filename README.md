# Credential checks, id allocation and registration of a Flask bank API

This project models the three pieces of logic in a small Flask/SQLAlchemy
banking backend that are more than wiring:

- **Credential validators** (`validators.dfy`, module `Validators`). The
  password check applies five rules in a fixed order: at least 8 characters,
  a lowercase letter, an uppercase letter, a digit, and a symbol from
  `!@#$%^&*()`. The username check applies two: at least 4 characters, then
  every character alphanumeric. In both, the first failing rule decides the
  message. Besides the if/elif chains, a table-driven reference semantics
  (`FirstFailure`, `Evaluate`) reads an ordered rule list. Lemmas prove that
  the chains agree with it.
- **Identifier allocation** (`identifiers.dfy`, module `Identifiers`;
  `models.dfy`, module `Models`). Every entity constructor draws candidates
  until one is not in its own table. The random source is a sequence of
  draws given by the caller. `AllocateId` is the loop, proved against
  `FirstFreshIndex`: it returns the first draw that does not collide, and
  every earlier draw was taken. The entity classes (`User`, `Customer`,
  `Withdraw`, `Deposit`, `Transfer`, `Account`, `AppOtp`) call it against
  their own table of a `Database` object. Passcode candidates come from
  `RandInt`, a model of Python's `randint`, which includes both ends.
- **Registration** (`auth.dfy`, module `Auth`). `Rejection` is the cascade of
  checks: username, password, e-mail format, e-mail taken, username taken.
  `RegisterOutcome` is the whole request as a value. The `Register` method
  performs it on the `Database` and is proved equal to `RegisterOutcome`.
  E-mail format checking and password hashing are library calls, so they are
  the parameters `isEmail` and `hash`.

The allocation loop has no end when every value it can draw is taken. A
terminating model cannot show a hang, so each constructor requires
`HasFresh`: some draw is free. The registration needs this only on the path
that reaches the insert.

Points where the model follows the code closely:

- `randint(100000, 1000000)` includes both ends, so 1000000 is a possible
  passcode (`Identifiers.RandInt`, `Models.OtpMax`).
- The `id` argument of the `AppOTP` constructor is never read, although its
  docstring (src/dbmodels.py:218-219) promises that a given identifier is
  used. The `id=None` argument of the `Account` constructor is overwritten
  by the loop (src/dbmodels.py:276-287). The models accept the argument as
  `requested` and ignore it. After the base constructor the passcode's id is
  unset, so one is always allocated.
- `str.isalnum` is false on the empty string. `Validators.IsAlnum` keeps
  that, although the length rule already excludes it.

## Model

| member | source | states |
|---|---|---|
| Validators.CheckPassword | src/my_validators.py:12-27 | status is true iff the password has at least 8 characters, a lowercase letter, an uppercase letter, a digit and a symbol from `!@#$%^&*()`; status is true iff the message is 'Valid Password'; the message is always one of the six fixed ones, never the 'empty' placeholder |
| Validators.CheckUsername | src/my_validators.py:38-47 | status is true iff the username has at least 4 characters and all of them are alphanumeric; status is true iff the message is 'Valid Username'; the message is one of the three fixed ones, never 'empty' |
| Validators.IsAlnum | src/my_validators.py:42 | `str.isalnum`, tested character by character, is true iff the string is non-empty and every character is an ASCII letter or digit |
| Validators.FirstFailure | src/my_validators.py:14-25 | reference semantics of an ordered rule list: None iff every rule passes, otherwise the index of a failing rule before which every rule passes |
| Validators.PasswordFollowsRuleOrder | src/my_validators.py:14-25 | the password check equals the rule table (length, lowercase, uppercase, digit, symbol) read in order, the first failure giving the message |
| Validators.UsernameFollowsRuleOrder | src/my_validators.py:40-45 | the username check equals the rule table (length, alphanumeric) read in order, the first failure giving the message |
| Validators.ShortPasswordRefused | src/my_validators.py:14-15 | any password shorter than 8 characters is refused with the length message, whatever it contains |
| Validators.ShortUsernameRefused | src/my_validators.py:40-41 | any username shorter than 4 characters is refused with the length message, even one holding symbols |
| Validators.AcceptedPasswordSample | src/my_validators.py:14-25 | "Password1!" is accepted with 'Valid Password' |
| Validators.RefusedPasswordSamples | src/my_validators.py:16-23 | "password1!", "PASSWORD1!", "Password!" and "Password1" are refused for the missing uppercase letter, lowercase letter, number and symbol |
| Validators.UsernameSamples | src/my_validators.py:40-45 | "abc" is refused for length, "ab_c" for a non-alphanumeric character, "user1" is accepted |
| Identifiers.FirstFreshIndex | src/dbmodels.py:17-22 | the index the loop settles on is at most the number of draws; the draw there is not taken; every draw before it is taken |
| Identifiers.FirstFreshIndexInRange | src/dbmodels.py:17-22 | the loop settles on a draw exactly when some draw is not taken |
| Identifiers.AllocateId | src/dbmodels.py:17-22 | the loop returns a draw that is not in the table, every earlier draw was in it, and its index is FirstFreshIndex |
| Identifiers.RandInt | src/dbmodels.py:226 | randint(lo, hi) lies between lo and hi, both ends included |
| Identifiers.RandIntCoversRange | src/dbmodels.py:226 | every value from lo to hi, both ends included, can be drawn |
| Models.OtpCandidates | src/dbmodels.py:226 | each passcode candidate satisfies 100000 <= id <= 1000000 |
| Models.User.constructor | src/dbmodels.py:15-25 | the id is the first draw not among the user ids; username, e-mail and password are stored exactly as given; the database is unchanged |
| Models.Customer.constructor | src/dbmodels.py:56-63 | the id is the first draw not in the customer table |
| Models.Withdraw.constructor | src/dbmodels.py:86-96 | the id is the first draw not in the withdrawal table |
| Models.Deposit.constructor | src/dbmodels.py:127-134 | the id is the first draw not in the deposit table |
| Models.Transfer.constructor | src/dbmodels.py:158-168 | the id is the first draw not in the transfer table |
| Models.Account.constructor | src/dbmodels.py:276-287 | the id is the first draw not in the account table; the requested id is ignored |
| Models.AppOtp.constructor | src/dbmodels.py:212-229 | the passcode gets an id that is the first candidate not in the passcode table, within 100000..1000000 |
| Models.AppOtp.AssignIdIfUnset | src/dbmodels.py:222-229 | an id already set to a truthy value is kept; an id that is unset or 0 (falsy, as `not self.id` tests) becomes the first free candidate, within 100000..1000000 |
| Models.CustomerMayShareAccountId | src/dbmodels.py:58-63 | uniqueness is checked only against the entity's own table: a new customer can take an id an account already holds |
| Auth.Rejection | src/auth.py:56-71 | no error iff the username and password are valid, the e-mail passes the format check, and neither the e-mail nor the username is taken; every error is a 400 or a 409 error body |
| Auth.EmailTakenAfterInsert | src/auth.py:67 | after a row is inserted under a new id, the query by e-mail finds a row iff it found one before or the e-mail is the new row's |
| Auth.UsernameTakenAfterInsert | src/auth.py:70 | after a row is inserted under a new id, the query by username finds a row iff it found one before or the username is the new row's |
| Auth.QueriesMatchAtMostOneRow | src/dbmodels.py:11-12 | with unique usernames and e-mails, two rows with the same e-mail or the same username are the same row, so the first match of either query is the only one |
| Auth.RegisterOutcome | src/auth.py:51-89 | the response is 201 iff no check rejects the request; otherwise it is the first rejection; after a 201 the table holds the new username and e-mail |
| Auth.Register | src/auth.py:51-89 | the response and the new user table are those of RegisterOutcome on the old table; the table keeps usernames and e-mails unique |
| Auth.InvalidUsernameWins | src/auth.py:56-58 | an invalid username gives 400 with the username check's message, whatever the password and e-mail |
| Auth.InvalidPasswordNext | src/auth.py:60-62 | with a valid username, an invalid password gives 400 with the password check's message |
| Auth.InvalidEmailNext | src/auth.py:64-65 | with a valid username and password, an e-mail failing the format check gives 400 'check your email', even when the e-mail or the username is taken |
| Auth.EmailTakenBeforeUsernameTaken | src/auth.py:67-71 | a taken e-mail gives 409 'email taken', even when the username is taken too |
| Auth.UsernameTakenWithFreshEmail | src/auth.py:70-71 | a taken username with an e-mail not in the table gives 409 'username taken' |
| Auth.ErrorLeavesUsersUnchanged | src/auth.py:56-80 | every response other than 201 leaves the user table unchanged |
| Auth.SuccessAddsOneUser | src/auth.py:74-89 | a 201 echoes username and e-mail and adds exactly one row, under an id the table did not hold, with the given username and e-mail and the hashed password |
| Auth.RegisterKeepsUsersUnique | src/auth.py:67-80 | registration keeps every row under its own id and no two rows sharing a username or an e-mail |
| Auth.RegistrationSample | src/auth.py:51-89 | registering user1 on an empty table gives 201; registering user1 again with another e-mail gives 409 'username taken' |

## Left out

- Randomness: `secrets.token_hex(16)` and `randint` are modelled as a sequence of draws given by the caller. The shape of a token (32 lowercase hex characters) is not modelled.
- Non-termination: when every draw collides, the source loops forever. The constructors instead require that some draw is free (`HasFresh`).
- Column and relationship declarations, column defaults (floats, `datetime.utcnow`), `__repr__`, `create_app` in src/__init__.py and the session calls `db.session.add`/`commit`. The insert is modelled as one update of the user table.
- Models.AppOtp: models the intended allocation loop, not code that can complete. As written, `AppOTP.__init__` raises before it assigns an id. Line src/dbmodels.py:221 passes `self` positionally to the declarative base constructor, which takes keyword arguments only. Line src/dbmodels.py:227 uses `AppOTP.objects`, a Django manager name that a Flask-SQLAlchemy model does not have; every other constructor uses `query`. The model reads line 221 as setting no field and line 227 as a lookup in the passcode table.
- Password hashing (`generate_password_hash`) and the e-mail check (`wtforms.validators.email`) are foreign library calls. They are the parameters `hash` and `isEmail`. Whether the e-mail call as written can ever be falsy is not modelled. `generate_password_hash` adds a random salt, so two users with the same password get different stored values in the source (the password column is unique, src/dbmodels.py:13). The model's `hash` is a plain function and gives them equal values. Nothing proved here depends on this.
- `str.isalnum` is Unicode-aware in Python. `Validators.IsAlnum` accepts only ASCII letters and digits, so a username with non-ASCII letters or digits is refused by the model but accepted by the source.
- Purity of the validators is not a lemma: Dafny functions are deterministic and free of side effects by construction.
- The `print` calls in src/auth.py:75-77, the stubs `user()` in src/auth.py:92-94 and `get_all` in src/bank.py, and the reading of the JSON request body. The request is the `Request` value.
- The race between the uniqueness checks and the insert under concurrent requests. The model is sequential.
