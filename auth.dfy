/** The public `/api/auth` routes: `register` over a user collection keyed by
    email, and `login`, which checks a password and issues a session token.
    bcrypt's `hash`/`compare` and jsonwebtoken's `sign` are uninterpreted: they
    are passed in as functions, and the one law a result needs is stated as a
    precondition of the lemma that needs it. */
module Auth {
  import opened Common

  const MsgEmailTaken: string := "Usuário com este email já existe"
  const MsgRegistered: string := "Usuário registrado com sucesso"
  const MsgBadCredentials: string := "Credenciais inválidas"

  /** `expiresIn: 3600` seconds. */
  const TokenLifetime: int := 3600

  /** A stored user; `password` holds the bcrypt hash. */
  datatype User = User(id: UserId, username: string, email: string, password: string)

  /** The token payload `{ user: { id } }`. */
  datatype UserClaim = UserClaim(id: UserId)
  datatype Payload = Payload(user: UserClaim)

  /** `bcrypt.hash(password, salt)`, with the salt `genSalt` drew. */
  type Hasher = (string, string) -> string
  /** `bcrypt.compare(password, hash)`. */
  type Comparer = (string, string) -> bool
  /** `jwt.sign(payload, secret, { expiresIn })`, the secret fixed. */
  type Signer = (Payload, int) -> string

  /** The user `register` saves: built from the request, then its password field
      overwritten with the hash before `save()`. */
  function RegisteredUser(id: UserId, username: string, email: string, password: string,
                          salt: string, hash: Hasher): User
  {
    var user := User(id, username, email, password);
    user.(password := hash(password, salt))
  }

  /** The `login` handler's decision over the user collection. */
  function LoginDecision(users: map<string, User>, email: string, password: string,
                         compare: Comparer, sign: Signer): Response<string>
  {
    if email !in users then Failure(400, MsgBadCredentials)
    else if !compare(password, users[email].password) then Failure(400, MsgBadCredentials)
    else Success(200, sign(Payload(UserClaim(users[email].id)), TokenLifetime))
  }

  /** Login succeeds exactly for a known email whose stored hash matches, and the
      token then carries that user's id and the one-hour lifetime. */
  lemma LoginSucceedsIff(users: map<string, User>, email: string, password: string,
                         compare: Comparer, sign: Signer)
    ensures LoginDecision(users, email, password, compare, sign).Success? <==>
      email in users && compare(password, users[email].password)
    ensures email in users && compare(password, users[email].password) ==>
      LoginDecision(users, email, password, compare, sign)
        == Success(200, sign(Payload(UserClaim(users[email].id)), TokenLifetime))
  {
  }

  /** An unknown email and a wrong password give the same reply, so a caller
      cannot tell which emails are registered. */
  lemma LoginFailuresIndistinguishable(users: map<string, User>, unknown: string, p1: string,
                                       known: string, p2: string, compare: Comparer, sign: Signer)
    requires unknown !in users
    requires known in users && !compare(p2, users[known].password)
    ensures LoginDecision(users, unknown, p1, compare, sign) == Failure(400, MsgBadCredentials)
    ensures LoginDecision(users, known, p2, compare, sign)
      == LoginDecision(users, unknown, p1, compare, sign)
  {
  }

  /** Registering and then logging in with the same credentials issues a token
      for the new user, given that bcrypt accepts a password against its own hash. */
  lemma RegisterThenLogin(users: map<string, User>, id: UserId, username: string, email: string,
                          password: string, salt: string, hash: Hasher, compare: Comparer, sign: Signer)
    requires email !in users
    requires compare(password, hash(password, salt))
    ensures LoginDecision(users[email := RegisteredUser(id, username, email, password, salt, hash)],
                          email, password, compare, sign)
      == Success(200, sign(Payload(UserClaim(id)), TokenLifetime))
  {
  }

  /** The user collection's invariant: each user is filed under its own email,
      every id was issued before `nextId`, and no two users share an id. */
  predicate UsersInvariant(users: map<string, User>, nextId: nat)
  {
    && (forall e :: e in users ==> users[e].email == e && users[e].id < nextId)
    && (forall e1, e2 :: e1 in users && e2 in users && users[e1].id == users[e2].id ==> e1 == e2)
  }

  /** Registering under a fresh email with the next id keeps the invariant. */
  lemma RegisterKeepsInvariant(users: map<string, User>, nextId: nat, u: User)
    requires UsersInvariant(users, nextId)
    requires u.email !in users && u.id == nextId
    ensures UsersInvariant(users[u.email := u], nextId + 1)
  {
    var t := users[u.email := u];
    forall e1, e2 | e1 in t && e2 in t && t[e1].id == t[e2].id
      ensures e1 == e2
    {
      if e1 != u.email && e2 != u.email {
        assert t[e1] == users[e1] && t[e2] == users[e2];
      }
    }
  }

  /** The token a successful login issues names one stored user only: the one
      whose email was given, so the access gate's `req.user.id` identifies the
      account unambiguously. */
  lemma LoginTokenNamesOneUser(users: map<string, User>, nextId: nat, email: string, password: string,
                               compare: Comparer, sign: Signer)
    requires UsersInvariant(users, nextId)
    requires LoginDecision(users, email, password, compare, sign).Success?
    ensures email in users && users[email].id < nextId
    ensures forall e :: e in users && users[e].id == users[email].id ==> e == email
    ensures LoginDecision(users, email, password, compare, sign).body
      == sign(Payload(UserClaim(users[email].id)), TokenLifetime)
  {
  }

  /** The `User` collection, keyed by its unique email. */
  class CredentialStore {
    var users: map<string, User>
    /** The next document id. */
    var nextId: nat

    ghost predicate Valid()
      reads this
    {
      UsersInvariant(users, nextId)
    }

    constructor ()
      ensures Valid() && users == map[] && nextId == 0
    {
      users := map[];
      nextId := 0;
    }

    /** `POST /register`: an email already present is refused and nothing is
        stored; otherwise one user is added, holding the hash and not the password. */
    method Register(username: string, email: string, password: string, salt: string, hash: Hasher)
      returns (res: Response<string>)
      requires Valid()
      modifies this
      ensures Valid()
      ensures email in old(users) ==>
        res == Failure(400, MsgEmailTaken) && users == old(users) && nextId == old(nextId)
      ensures email !in old(users) ==>
        && res == Success(201, MsgRegistered)
        && users == old(users)[email := RegisteredUser(old(nextId), username, email, password, salt, hash)]
        && users[email].password == hash(password, salt)
        && nextId == old(nextId) + 1
    {
      if email in users {
        return Failure(400, MsgEmailTaken);
      }
      var user := RegisteredUser(nextId, username, email, password, salt, hash);
      RegisterKeepsInvariant(users, nextId, user);
      users := users[email := user];
      nextId := nextId + 1;
      res := Success(201, MsgRegistered);
    }

    /** `POST /login`: reads the collection and changes nothing. */
    method Login(email: string, password: string, compare: Comparer, sign: Signer)
      returns (res: Response<string>)
      ensures res == LoginDecision(users, email, password, compare, sign)
      ensures res.Failure? ==> res == Failure(400, MsgBadCredentials)
    {
      res := LoginDecision(users, email, password, compare, sign);
    }
  }
}
