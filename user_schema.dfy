/**
 * The account record of models/users/users.js: its fields, which of them
 * the schema requires, its defaults and its two unique indexes.
 */
module UserSchema {
  import opened Wrappers
  import opened ObjectIds

  /** The role an account gets when the creating request names none. */
  const DefaultRole: string := "USER"
  /** The only role the order handlers accept as an administrator. */
  const AdminRole: string := "admin"

  /** A stored account; `password` holds the password hash. */
  datatype Account = Account(
    firstName: string,
    middleName: Option<string>,
    lastName: string,
    userName: string,
    email: string,
    password: string,
    role: string,
    active: bool,
    bio: Option<string>,
    phoneNumber: Option<string>)

  /** An account as `select("-password")` returns it: its id and every field but the password. */
  datatype PublicAccount = PublicAccount(
    id: ObjectId,
    firstName: string,
    middleName: Option<string>,
    lastName: string,
    userName: string,
    email: string,
    role: string,
    active: bool,
    bio: Option<string>,
    phoneNumber: Option<string>)

  function WithoutPassword(id: ObjectId, a: Account): (p: PublicAccount)
    ensures p.id == id && p.email == a.email && p.userName == a.userName && p.role == a.role
    ensures p.firstName == a.firstName && p.lastName == a.lastName && p.active == a.active
    ensures p.middleName == a.middleName && p.bio == a.bio && p.phoneNumber == a.phoneNumber
  {
    PublicAccount(id, a.firstName, a.middleName, a.lastName, a.userName, a.email,
                  a.role, a.active, a.bio, a.phoneNumber)
  }

  /** The public view does not depend on the password: two accounts that
      differ only in their password hash look the same. */
  lemma PublicViewIgnoresPassword(id: ObjectId, a: Account, hash: string)
    ensures WithoutPassword(id, a) == WithoutPassword(id, a.(password := hash))
  {
  }

  /** A document built by `USER.create`: `role` falls back to "USER" when the
      request leaves it undefined, `active` is false, `bio` is unset. */
  function NewAccount(firstName: string, middleName: Option<string>, lastName: string,
                      email: string, password: string, userName: string,
                      phoneNumber: Option<string>, role: Option<string>): (a: Account)
    ensures role.None? ==> a.role == DefaultRole && a.role != AdminRole
    ensures role.Some? ==> a.role == role.value
    ensures !a.active && a.bio.None?
    ensures a.email == email && a.userName == userName && a.password == password
  {
    Account(firstName, middleName, lastName, userName, email, password,
            role.GetOr(DefaultRole), false, None, phoneNumber)
  }

  /** Mongoose's `required` check on a String path: set and not empty. */
  predicate Present(s: string) {
    s != ""
  }

  /** Schema validation: firstName, lastName, userName, email, password and
      role are required; middleName, bio and phoneNumber are optional. */
  predicate Validates(a: Account) {
    && Present(a.firstName) && Present(a.lastName) && Present(a.userName)
    && Present(a.email) && Present(a.password) && Present(a.role)
  }

  predicate EmailTaken(accounts: map<ObjectId, Account>, email: string) {
    exists id :: id in accounts && accounts[id].email == email
  }

  predicate UserNameTaken(accounts: map<ObjectId, Account>, userName: string) {
    exists id :: id in accounts && accounts[id].userName == userName
  }

  /** The two unique indexes: no two accounts share an email or a userName. */
  ghost predicate UniqueKeys(accounts: map<ObjectId, Account>) {
    forall a, b :: a in accounts && b in accounts && a != b ==>
      accounts[a].email != accounts[b].email && accounts[a].userName != accounts[b].userName
  }

  /** Inserting an account whose email and userName are both unused keeps the indexes unique. */
  lemma InsertKeepsKeysUnique(accounts: map<ObjectId, Account>, id: ObjectId, a: Account)
    requires UniqueKeys(accounts) && id !in accounts
    requires !EmailTaken(accounts, a.email) && !UserNameTaken(accounts, a.userName)
    ensures UniqueKeys(accounts[id := a])
  {
    var m := accounts[id := a];
    forall x, y | x in m && y in m && x != y
      ensures m[x].email != m[y].email && m[x].userName != m[y].userName
    {
      if x == id {
        assert y in accounts && m[y] == accounts[y];
      } else if y == id {
        assert x in accounts && m[x] == accounts[x];
      }
    }
  }
}
