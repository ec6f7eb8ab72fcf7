/** Registration and login over the user table. Password hashing, hash
    comparison and token generation are parameters: the model only
    relies on what it is told about them. */
module AuthController {
  import opened Common
  import Seqs

  /** A stored user; `passwordHash` is what the hash function made of
      the password. */
  datatype User = User(id: Id, name: string, email: string, passwordHash: string)

  /** The projection sent back to clients: no password hash. */
  datatype PublicUser = PublicUser(id: Id, name: string, email: string)

  /** The body of a successful register or login reply. */
  datatype Session = Session(token: string, user: PublicUser)

  function Public(u: User): PublicUser {
    PublicUser(u.id, u.name, u.email)
  }

  function EmailIs(email: string): User -> bool {
    (u: User) => u.email == email
  }

  /** `User.findOne({ email })`. */
  function FindByEmail(users: seq<User>, email: string): (r: Option<nat>)
    ensures r.Some? ==> r.value < |users| && users[r.value].email == email
    ensures r.Some? ==> forall j :: 0 <= j < r.value ==> users[j].email != email
    ensures r.None? <==> forall j :: 0 <= j < |users| ==> users[j].email != email
  {
    Seqs.IndexWhere(users, EmailIs(email))
  }

  /** No two users share an email. */
  ghost predicate EmailsUnique(users: seq<User>) {
    forall i, j :: 0 <= i < j < |users| ==> users[i].email != users[j].email
  }

  class UserTable {
    var users: seq<User>
    var next: nat

    ghost predicate Valid()
      reads this
    {
      && EmailsUnique(users)
      && (forall i, j :: 0 <= i < j < |users| ==> users[i].id < users[j].id)
      && (forall i :: 0 <= i < |users| ==> users[i].id < next)
    }

    constructor()
      ensures Valid() && users == []
    {
      users := [];
      next := 0;
    }
  }

  /** `registerUser`: refuses a known email, otherwise stores the new user
      with the hashed password and answers with a token for its id. */
  method RegisterUser(table: UserTable, name: string, email: string, password: string,
                      hash: string -> string, token: Id -> string)
    returns (reply: Reply<Session>)
    requires table.Valid()
    modifies table
    ensures table.Valid()
    ensures reply.Ok? <==> FindByEmail(old(table.users), email).None?
    ensures reply.Err? ==> reply == Err(400, "User already exists") && table.users == old(table.users)
    ensures reply.Ok? ==>
      && table.users == old(table.users) + [User(old(table.next), name, email, hash(password))]
      && reply == Ok(201, Session(token(old(table.next)), PublicUser(old(table.next), name, email)))
  {
    if FindByEmail(table.users, email).Some? {
      return Err(400, "User already exists");
    }
    var user := User(table.next, name, email, hash(password));
    table.users := table.users + [user];
    table.next := table.next + 1;
    reply := Ok(201, Session(token(user.id), Public(user)));
  }

  /** `loginUser`: the same refusal for an unknown email and for a wrong
      password; the table is only read. */
  method LoginUser(table: UserTable, email: string, password: string,
                   compare: (string, string) -> bool, token: Id -> string)
    returns (reply: Reply<Session>)
    ensures FindByEmail(table.users, email).None? ==> reply == Err(400, "Invalid credentials")
    ensures FindByEmail(table.users, email).Some? ==>
      var u := table.users[FindByEmail(table.users, email).value];
      if compare(password, u.passwordHash)
      then reply == Ok(200, Session(token(u.id), PublicUser(u.id, u.name, u.email)))
      else reply == Err(400, "Invalid credentials")
  {
    var found := FindByEmail(table.users, email);
    if found.None? {
      return Err(400, "Invalid credentials");
    }
    var user := table.users[found.value];
    if !compare(password, user.passwordHash) {
      return Err(400, "Invalid credentials");
    }
    reply := Ok(200, Session(token(user.id), Public(user)));
  }

  /** Registering and then logging in with the same password yields the
      registered user's public fields and a token generated from the same
      id, given a compare that accepts a password against its own hash. */
  method RegisterThenLogin(table: UserTable, name: string, email: string, password: string,
                           hash: string -> string, compare: (string, string) -> bool, token: Id -> string)
    returns (registered: Reply<Session>, login: Reply<Session>)
    requires table.Valid()
    requires forall p :: compare(p, hash(p))
    modifies table
    ensures table.Valid()
    ensures registered.Ok? ==> login == Ok(200, registered.value)
  {
    registered := RegisterUser(table, name, email, password, hash, token);
    if registered.Ok? {
      assert table.users[|table.users| - 1].email == email;
    }
    login := LoginUser(table, email, password, compare, token);
  }
}
