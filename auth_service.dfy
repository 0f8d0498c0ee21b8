/**
 * The authentication service: registration, login and token generation over a
 * user store. Password hashing and comparison (bcrypt) and token signing (JWT)
 * are foreign code, passed in as functions.
 */
module AuthService {
  import opened Wrappers

  /** A stored user; `password` holds the bcrypt hash. */
  datatype User = User(id: string, username: string, email: string, password: string)

  /** The user record a response exposes. */
  datatype PublicUser = PublicUser(id: string, username: string, email: string)

  /** The claims `generateToken` signs. */
  datatype TokenPayload = TokenPayload(email: string, sub: string)

  /** `{ access_token, user }`. */
  datatype AuthResponse = AuthResponse(accessToken: string, user: PublicUser)

  /** The body of `POST /auth/register`. */
  datatype CreateUserDto = CreateUserDto(username: string, email: string, password: string)

  /** The body of `POST /auth/login`. */
  datatype LoginUserDto = LoginUserDto(email: string, password: string)

  /** An error raised by the user store, with its PostgreSQL error code. */
  datatype DbError = DbError(code: string)

  /** `UnauthorizedException`, `ConflictException`, or a store error passed on unchanged. */
  datatype AuthError = Unauthorized(message: string) | Conflict(message: string) | Rethrown(cause: DbError)

  const InvalidCredentials := "Invalid credentials"
  const AlreadyExists := "Username or email already exists"
  /** PostgreSQL's `unique_violation`. */
  const UniqueViolation := "23505"

  /** The claims of a user's token: its email and, as `sub`, its id. */
  function PayloadOf(user: User): (p: TokenPayload)
    ensures p.sub == user.id && p.email == user.email
  {
    TokenPayload(user.email, user.id)
  }

  /** `generateToken`: the signed claims and the user without its password. */
  function GenerateToken(user: User, sign: TokenPayload -> string): (r: AuthResponse)
    ensures r.accessToken == sign(PayloadOf(user))
    ensures r.user.id == user.id && r.user.username == user.username && r.user.email == user.email
  {
    AuthResponse(sign(PayloadOf(user)), PublicUser(user.id, user.username, user.email))
  }

  /** The response does not depend on the stored password hash. */
  lemma GenerateTokenHidesPassword(user: User, otherHash: string, sign: TokenPayload -> string)
    ensures GenerateToken(user.(password := otherHash), sign) == GenerateToken(user, sign)
  {
  }

  /**
   * `login`: an unknown email and a wrong password both fail with the same
   * Unauthorized message; the comparison is consulted only for a stored user.
   */
  function Login(users: map<string, User>, dto: LoginUserDto, compare: (string, string) -> bool,
                 sign: TokenPayload -> string): (r: Result<AuthResponse, AuthError>)
    ensures dto.email !in users ==> r == Failure(Unauthorized(InvalidCredentials))
    ensures r.Success? <==> dto.email in users && compare(dto.password, users[dto.email].password)
    ensures r.Failure? ==> r.error == Unauthorized(InvalidCredentials)
    ensures r.Success? ==> r.value == GenerateToken(users[dto.email], sign)
  {
    if dto.email !in users then Failure(Unauthorized(InvalidCredentials))
    else if !compare(dto.password, users[dto.email].password) then Failure(Unauthorized(InvalidCredentials))
    else Success(GenerateToken(users[dto.email], sign))
  }

  /** The outcome of `register` once the store has answered. */
  function RegisterOutcome(created: Result<User, DbError>, sign: TokenPayload -> string): (r: Result<AuthResponse, AuthError>)
    ensures created.Success? ==> r == Success(GenerateToken(created.value, sign))
    ensures r.Failure? ==> created.Failure?
    ensures r == Failure(Conflict(AlreadyExists)) <==> created.Failure? && created.error.code == UniqueViolation
    ensures r.Failure? && r.error.Rethrown? <==> created.Failure? && created.error.code != UniqueViolation
    ensures r.Failure? && r.error.Rethrown? ==> r.error.cause == created.error
  {
    if created.Success? then Success(GenerateToken(created.value, sign))
    else if created.error.code == UniqueViolation then Failure(Conflict(AlreadyExists))
    else Failure(Rethrown(created.error))
  }

  /** The user a registration stores: the password replaced by its hash. */
  function NewUser(dto: CreateUserDto, newId: string, hash: string -> string): User {
    User(newId, dto.username, dto.email, hash(dto.password))
  }

  /** The unique constraints of the users table. */
  predicate Taken(users: map<string, User>, email: string, username: string) {
    email in users || exists e :: e in users && users[e].username == username
  }

  /**
   * A user who has just registered can log in with the same email and password,
   * and receives the token registration returned, provided the comparison
   * accepts a password against its own hash.
   */
  lemma LoginAfterRegister(users: map<string, User>, dto: CreateUserDto, newId: string,
                           hash: string -> string, compare: (string, string) -> bool, sign: TokenPayload -> string)
    requires !Taken(users, dto.email, dto.username)
    requires compare(dto.password, hash(dto.password))
    ensures Login(users[dto.email := NewUser(dto, newId, hash)], LoginUserDto(dto.email, dto.password), compare, sign)
            == RegisterOutcome(Success(NewUser(dto, newId, hash)), sign)
  {
  }

  /** The users table, keyed by email. */
  class UserStore {
    var users: map<string, User>

    ghost predicate Valid()
      reads this
    {
      forall e :: e in users ==> users[e].email == e
    }

    constructor ()
      ensures Valid() && users == map[]
    {
      users := map[];
    }

    /** The insert: a taken email or username violates a unique constraint. */
    method Create(dto: CreateUserDto, newId: string, hash: string -> string) returns (r: Result<User, DbError>)
      requires Valid()
      modifies this
      ensures Valid()
      ensures Taken(old(users), dto.email, dto.username) ==> r == Failure(DbError(UniqueViolation)) && users == old(users)
      ensures !Taken(old(users), dto.email, dto.username) ==>
                r == Success(NewUser(dto, newId, hash)) && users == old(users)[dto.email := NewUser(dto, newId, hash)]
    {
      if Taken(users, dto.email, dto.username) {
        return Failure(DbError(UniqueViolation));
      }
      var user := NewUser(dto, newId, hash);
      users := users[dto.email := user];
      r := Success(user);
    }
  }

  /** `register`: create the user, then answer with its token or map the store's error. */
  method Register(store: UserStore, dto: CreateUserDto, newId: string, hash: string -> string,
                  sign: TokenPayload -> string) returns (r: Result<AuthResponse, AuthError>)
    requires store.Valid()
    modifies store
    ensures store.Valid()
    ensures Taken(old(store.users), dto.email, dto.username) ==>
              r == Failure(Conflict(AlreadyExists)) && store.users == old(store.users)
    ensures !Taken(old(store.users), dto.email, dto.username) ==>
              && r == Success(GenerateToken(NewUser(dto, newId, hash), sign))
              && store.users == old(store.users)[dto.email := NewUser(dto, newId, hash)]
  {
    var created := store.Create(dto, newId, hash);
    r := RegisterOutcome(created, sign);
  }
}
