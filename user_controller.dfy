/**
 * controllers/user.controller.js: registration and login.  Password hashing
 * (`bcrypt.genSalt` and `bcrypt.hash`), the password comparison
 * (`bcrypt.compare`) and token signing (`jwt.sign`) are parameters.
 */
module UserController {
  import opened Wrappers
  import opened ObjectIds
  import opened JsErrors
  import opened UserSchema
  import opened Store

  /** The fields of a registration body; "" stands for a missing or empty field. */
  datatype RegisterRequest = RegisterRequest(
    firstName: string,
    middleName: Option<string>,
    lastName: string,
    email: string,
    password: string,
    userName: string,
    phoneNumber: string,
    role: Option<string>)

  /** firstName, lastName, email, password, userName and phoneNumber must be
      truthy; middleName and role are optional. */
  predicate FieldsPresent(req: RegisterRequest) {
    && Present(req.firstName) && Present(req.lastName) && Present(req.email)
    && Present(req.password) && Present(req.userName) && Present(req.phoneNumber)
  }

  /** The checks that precede the insert, in their order: empty fields (400),
      a taken email (409), a taken userName (409). */
  function RegisterCheck(req: RegisterRequest, accounts: map<ObjectId, Account>): (r: Option<Exn>)
    ensures r.None? <==>
      FieldsPresent(req) && !EmailTaken(accounts, req.email) && !UserNameTaken(accounts, req.userName)
    ensures r.Some? ==> r.value.statusCode == Some(if FieldsPresent(req) then 409 else 400)
  {
    if !FieldsPresent(req) then Some(Raise("Fields cannot be empty", 400))
    else if EmailTaken(accounts, req.email) then Some(Raise("User already exists", 409))
    else if UserNameTaken(accounts, req.userName) then Some(Raise("User Name already exists", 409))
    else None
  }

  /** A taken email is reported before a taken userName. */
  lemma EmailCheckedFirst(req: RegisterRequest, accounts: map<ObjectId, Account>)
    requires FieldsPresent(req) && EmailTaken(accounts, req.email)
    ensures RegisterCheck(req, accounts) == Some(Raise("User already exists", 409))
  {
  }

  /** The document `USER.create` receives: the hash of the password, never the
      password itself, and the role exactly as the request gave it. */
  function AccountFor(req: RegisterRequest, hash: string -> string): (a: Account)
    ensures a.password == hash(req.password)
    ensures a.role == req.role.GetOr(DefaultRole)
    ensures a.email == req.email && a.userName == req.userName && !a.active
  {
    NewAccount(req.firstName, req.middleName, req.lastName, req.email, hash(req.password),
               req.userName, Some(req.phoneNumber), req.role)
  }

  function UserValidationError(): Exn {
    Exn("ValidationError", "USER validation failed", None)
  }

  /** The error that ends every registration that got past the insert: the
      reply reads the undeclared name `userWithoutPassword`. */
  function ReplyError(): Exn {
    RuntimeError("ReferenceError", "userWithoutPassword is not defined")
  }

  /** `register_users`: after the checks, one insert.  A role given as "" fails
      the schema's `required`, so nothing is inserted.  The reply after the
      insert fails, so even a registration that stored its account ends in a
      re-thrown error. */
  method Register(db: Database, req: RegisterRequest, hash: string -> string) returns (o: Outcome<PublicAccount>)
    requires db.Valid()
    modifies db
    ensures db.Valid()
    ensures db.listings == old(db.listings) && db.carts == old(db.carts)
    ensures var check := RegisterCheck(req, old(db.accounts));
      && (check.Some? ==>
            db.accounts == old(db.accounts) && db.nextId == old(db.nextId) && o == Thrown(Rewrap(check.value, false)))
      && (check.None? && !Validates(AccountFor(req, hash)) ==>
            db.accounts == old(db.accounts) && db.nextId == old(db.nextId) && o == Thrown(Rewrap(UserValidationError(), false)))
      && (check.None? && Validates(AccountFor(req, hash)) ==>
            db.accounts == old(db.accounts)[old(db.nextId) := AccountFor(req, hash)] && db.nextId == old(db.nextId) + 1
            && o == Thrown(Rewrap(ReplyError(), false)))
  {
    var check := RegisterCheck(req, db.accounts);
    if check.Some? {
      return Thrown(Rewrap(check.value, false));
    }
    var account := AccountFor(req, hash);
    if !Validates(account) {
      return Thrown(Rewrap(UserValidationError(), false));
    }
    InsertKeepsKeysUnique(db.accounts, db.nextId, account);
    db.accounts := db.accounts[db.nextId := account];
    db.nextId := db.nextId + 1;
    o := Thrown(Rewrap(ReplyError(), false));
  }

  /** A successful login: the account without its password, and a signed token. */
  datatype Session = Session(account: PublicAccount, token: string)

  /** `USER.findOne({ email })`; the unique index makes the match unique. */
  function AccountWithEmail(accounts: map<ObjectId, Account>, email: string): (id: ObjectId)
    requires UniqueKeys(accounts) && EmailTaken(accounts, email)
    ensures id in accounts && accounts[id].email == email
  {
    var id :| id in accounts && accounts[id].email == email; id
  }

  /** `login_users`.  `compare` is `bcrypt.compare(password, hash)`, `sign` is
      token issuance. */
  function Login(email: string, password: string, accounts: map<ObjectId, Account>,
                 compare: (string, string) -> bool, sign: ObjectId -> string): (r: Outcome<Session>)
    requires UniqueKeys(accounts)
    ensures !Present(email) || !Present(password) ==> r == Thrown(Rewrap(Raise("Fields cannot be empty", 400), false))
    ensures r.Ok? <==>
      (Present(email) && Present(password) &&
       exists id :: id in accounts && accounts[id].email == email && compare(password, accounts[id].password))
    ensures r.Ok? ==>
      (r.status == 200 &&
       exists id :: id in accounts && accounts[id].email == email && r.value == Session(WithoutPassword(id, accounts[id]), sign(id)))
    ensures !r.Ok? && Present(email) && Present(password) ==> r == Thrown(Rewrap(Raise("Invalid credentials", 401), false))
  {
    if !Present(email) || !Present(password) then Thrown(Rewrap(Raise("Fields cannot be empty", 400), false))
    else if !EmailTaken(accounts, email) then Thrown(Rewrap(Raise("Invalid credentials", 401), false))
    else
      var id := AccountWithEmail(accounts, email);
      if compare(password, accounts[id].password) then Ok(200, Session(WithoutPassword(id, accounts[id]), sign(id)))
      else Thrown(Rewrap(Raise("Invalid credentials", 401), false))
  }

  /** An unknown email and a wrong password cannot be told apart: both give
      the same 401. */
  lemma LoginFailuresIndistinguishable(unknown: string, known: ObjectId, wrong: string, password: string,
                                       accounts: map<ObjectId, Account>,
                                       compare: (string, string) -> bool, sign: ObjectId -> string)
    requires UniqueKeys(accounts)
    requires Present(unknown) && !EmailTaken(accounts, unknown) && Present(password)
    requires known in accounts && Present(accounts[known].email) && Present(wrong)
    requires !compare(wrong, accounts[known].password)
    ensures Login(unknown, password, accounts, compare, sign) == Login(accounts[known].email, wrong, accounts, compare, sign)
    ensures Login(unknown, password, accounts, compare, sign) == Thrown(Rewrap(Raise("Invalid credentials", 401), false))
  {
    var id := AccountWithEmail(accounts, accounts[known].email);
    assert id == known;
  }
}
