/** The authentication routes of the backend, `POST /api/auth/register`
    and `POST /api/auth/login`, over the user collection held as a map from
    e-mail address to stored user. The salted bcrypt hash is an opaque
    function `hash`; `compare` is taken to hold exactly when the stored hash
    is `hash` of the given password. */
module AuthRoutes {
  import opened Wrappers

  datatype UserDoc = UserDoc(id: string, email: string, name: string, passwordHash: string)

  /** What the answers reveal of a user: never the hash. */
  datatype PublicUser = PublicUser(id: string, email: string, name: string)

  datatype AuthReply = Welcome(status: nat, user: PublicUser) | Refused(status: nat, message: string)

  const MissingFields := "Missing fields"
  const EmailTaken := "Email already registered"
  const InvalidCredentials := "Invalid credentials"

  /** A truthy request field: present and not the empty string. */
  predicate Given(v: Option<string>) {
    v.Some? && v.value != []
  }

  /** The user as the routes answer with it. */
  function Public(u: UserDoc): (r: PublicUser)
    ensures r.id == u.id && r.email == u.email && r.name == u.name
  {
    PublicUser(u.id, u.email, u.name)
  }

  /** The answered user does not depend on the stored password hash, and
      two stored users are answered alike exactly when they agree on id,
      email and name. */
  lemma {:induction false} PublicHidesHash(u: UserDoc, v: UserDoc)
    ensures forall h :: Public(u.(passwordHash := h)) == Public(u)
    ensures Public(u) == Public(v) <==> u.id == v.id && u.email == v.email && u.name == v.name
    ensures Public(u) == Public(v) && u.passwordHash == v.passwordHash ==> u == v
  {
  }

  /** The answer of the login route. */
  function LoginReply(users: map<string, UserDoc>, hash: string -> string,
                      email: Option<string>, password: Option<string>): AuthReply {
    if !Given(email) || !Given(password) then Refused(400, MissingFields)
    else if email.value !in users then Refused(401, InvalidCredentials)
    else if hash(password.value) != users[email.value].passwordHash then Refused(401, InvalidCredentials)
    else Welcome(200, Public(users[email.value]))
  }

  /** Login succeeds exactly for a known address with the password whose
      hash is stored, and then names that user. */
  lemma {:induction false} LoginReplySpec(users: map<string, UserDoc>, hash: string -> string,
                       email: Option<string>, password: Option<string>)
    ensures LoginReply(users, hash, email, password).Welcome? <==>
              Given(email) && Given(password) && email.value in users
              && users[email.value].passwordHash == hash(password.value)
    ensures LoginReply(users, hash, email, password).Welcome? ==>
              LoginReply(users, hash, email, password).user == Public(users[email.value])
    ensures LoginReply(users, hash, email, password).Refused? ==>
              LoginReply(users, hash, email, password).status in {400, 401}
  {
  }

  /** An unknown address and a wrong password get the same answer, so the
      answer does not tell which addresses are registered. */
  lemma {:induction false} LoginHidesUnknownAddress(users: map<string, UserDoc>, hash: string -> string,
                                 known: string, unknown: string, password: string)
    requires known in users && unknown !in users
    requires known != [] && unknown != [] && password != []
    requires hash(password) != users[known].passwordHash
    ensures LoginReply(users, hash, Some(known), Some(password))
            == LoginReply(users, hash, Some(unknown), Some(password))
            == Refused(401, InvalidCredentials)
  {
  }

  /** After a registration the same address and password log in as the
      new user. */
  lemma {:induction false} LoginAfterRegister(users: map<string, UserDoc>, hash: string -> string,
                           id: string, email: string, name: string, password: string)
    requires email != [] && password != []
    ensures LoginReply(users[email := UserDoc(id, email, name, hash(password))], hash, Some(email), Some(password))
            == Welcome(200, PublicUser(id, email, name))
  {
  }

  class UserCollection {
    var users: map<string, UserDoc>
    const hash: string -> string

    /** Every user is stored under its own address. */
    predicate Invariant()
      reads this
    {
      forall e :: e in users ==> users[e].email == e
    }

    constructor (hash: string -> string)
      ensures Invariant() && users == map[] && this.hash == hash
    {
      users := map[];
      this.hash := hash;
    }

    /** Register; `freshId` is the id the database assigns. */
    method Register(email: Option<string>, name: Option<string>, password: Option<string>, freshId: string)
      returns (reply: AuthReply)
      requires Invariant()
      modifies this
      ensures Invariant()
      ensures !(Given(email) && Given(name) && Given(password)) ==>
                reply == Refused(400, MissingFields) && users == old(users)
      ensures Given(email) && Given(name) && Given(password) && email.value in old(users) ==>
                reply == Refused(409, EmailTaken) && users == old(users)
      ensures Given(email) && Given(name) && Given(password) && email.value !in old(users) ==>
                var doc := UserDoc(freshId, email.value, name.value, hash(password.value));
                && users == old(users)[email.value := doc]
                && reply == Welcome(201, PublicUser(freshId, email.value, name.value))
    {
      if !Given(email) || !Given(name) || !Given(password) {
        return Refused(400, MissingFields);
      }
      if email.value in users {
        return Refused(409, EmailTaken);
      }
      var doc := UserDoc(freshId, email.value, name.value, hash(password.value));
      users := users[email.value := doc];
      reply := Welcome(201, Public(doc));
    }

    method Login(email: Option<string>, password: Option<string>) returns (reply: AuthReply)
      ensures reply == LoginReply(users, hash, email, password)
    {
      if !Given(email) || !Given(password) {
        return Refused(400, MissingFields);
      }
      if email.value !in users {
        return Refused(401, InvalidCredentials);
      }
      var user := users[email.value];
      if hash(password.value) != user.passwordHash {
        return Refused(401, InvalidCredentials);
      }
      reply := Welcome(200, Public(user));
    }
  }
}
