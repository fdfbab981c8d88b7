/**
 * `UserService`: registration, login, the current user, partial update and
 * logout over the user table. bcrypt's random salt and the `uuid()` token
 * are supplied by the caller.
 */
module Users {
  import opened Wrappers
  import opened Exceptions
  import opened Bcrypt
  import opened UserValidation
  import opened Store

  /** What the service returns about a user: never a password, a token only on login. */
  datatype UserResponse = UserResponse(username: string, name: string, token: Option<string>)

  /** `get(user)`: the attached user's username and name, nothing else. */
  function Get(user: User): (r: UserResponse)
    ensures r.username == user.username && r.name == user.name
    ensures r.token.None?
  {
    UserResponse(user.username, user.name, None)
  }

  /** The row `update` writes: the snapshot with the given fields replaced. */
  function Updated(user: User, request: UpdateUserRequest, salt: string): (u: User)
    requires IsSalt(salt)
    ensures u.username == user.username && u.token == user.token
    ensures u.name == if request.name.Some? then request.name.value else user.name
    ensures request.password.None? ==> u.password == user.password
    ensures request.password.Some? ==> Verify(request.password.value, u.password)
    ensures UpdateValid(request) && request.password.Some? ==> u.password != request.password.value
  {
    User(
      user.username,
      if request.password.Some? then Hash(request.password.value, salt) else user.password,
      if request.name.Some? then request.name.value else user.name,
      user.token)
  }

  class UserService {
    const prisma: Database

    constructor (prisma: Database)
      ensures this.prisma == prisma
    {
      this.prisma := prisma;
    }

    /**
     * `register`: validate, refuse a taken username, then store the user
     * with a hashed password and no token.
     */
    method Register(request: RegisterPayload, salt: string) returns (r: Result<UserResponse, Failure>)
      requires prisma.Valid() && IsSalt(salt)
      modifies prisma
      ensures prisma.Valid()
      ensures prisma.contacts == old(prisma.contacts) && prisma.nextContactId == old(prisma.nextContactId)
      ensures !RegisterValid(request) ==>
        r == Failure(ValidateRegister(request).error) && prisma.users == old(prisma.users)
      ensures RegisterValid(request) && request.username.value in old(prisma.users) ==>
        r == Failure(UsernameTaken) && prisma.users == old(prisma.users)
      ensures RegisterValid(request) && request.username.value !in old(prisma.users) ==>
        var username := request.username.value;
        && prisma.users == old(prisma.users)[username :=
             User(username, Hash(request.password.value, salt), request.name.value, None)]
        && r == Success(UserResponse(username, request.name.value, None))
    {
      var validated := ValidateRegister(request);
      if validated.Failure? {
        return Failure(validated.error);
      }
      var registerRequest := validated.value;
      if registerRequest.username in prisma.users {
        return Failure(UsernameTaken);
      }
      var user := User(registerRequest.username, Hash(registerRequest.password, salt), registerRequest.name, None);
      prisma.users := prisma.users[user.username := user];
      r := Success(UserResponse(user.username, user.name, None));
    }

    /**
     * `login`: validate, then check the credentials; an unknown username and
     * a wrong password fail alike. On success the user's token is replaced
     * by the fresh `token`.
     */
    method Login(request: LoginPayload, token: string) returns (r: Result<UserResponse, Failure>)
      requires prisma.Valid() && FreshToken(prisma.users, token)
      modifies prisma
      ensures prisma.Valid()
      ensures prisma.contacts == old(prisma.contacts) && prisma.nextContactId == old(prisma.nextContactId)
      ensures !LoginValid(request) ==>
        r == Failure(ValidateLogin(request).error) && prisma.users == old(prisma.users)
      ensures LoginValid(request) ==>
        var username, password := request.username.value, request.password.value;
        if username in old(prisma.users) && Verify(password, old(prisma.users)[username].password) then
          && prisma.users == WithToken(old(prisma.users), username, Some(token))
          && r == Success(UserResponse(username, old(prisma.users)[username].name, Some(token)))
        else
          r == Failure(InvalidCredentials) && prisma.users == old(prisma.users)
    {
      var validated := ValidateLogin(request);
      if validated.Failure? {
        return Failure(validated.error);
      }
      var loginRequest := validated.value;
      if loginRequest.username !in prisma.users {
        return Failure(InvalidCredentials);
      }
      var user := prisma.users[loginRequest.username];
      if !Verify(loginRequest.password, user.password) {
        return Failure(InvalidCredentials);
      }
      WithTokenValid(prisma.users, loginRequest.username, Some(token));
      prisma.users := WithToken(prisma.users, loginRequest.username, Some(token));
      user := prisma.users[loginRequest.username];
      r := Success(UserResponse(user.username, user.name, user.token));
    }

    /**
     * `update`: validate, then write back the authenticated user's row with
     * the given name and a hash of the given password; the username and the
     * token stay as they were.
     */
    method Update(user: User, request: UpdateUserRequest, salt: string) returns (r: Result<UserResponse, Failure>)
      requires prisma.Valid() && prisma.IsCurrent(user) && IsSalt(salt)
      modifies prisma
      ensures prisma.Valid()
      ensures prisma.contacts == old(prisma.contacts) && prisma.nextContactId == old(prisma.nextContactId)
      ensures !UpdateValid(request) ==>
        r == Failure(ValidateUpdate(request).error) && prisma.users == old(prisma.users)
      ensures UpdateValid(request) ==>
        var updated := Updated(user, request, salt);
        && prisma.users == old(prisma.users)[user.username := updated]
        && r == Success(UserResponse(user.username, updated.name, None))
    {
      var validated := ValidateUpdate(request);
      if validated.Failure? {
        return Failure(validated.error);
      }
      var updateRequest := validated.value;
      var result := Updated(user, updateRequest, salt);
      prisma.users := prisma.users[user.username := result];
      r := Success(UserResponse(result.username, result.name, None));
    }

    /** `logout`: clear the authenticated user's token and confirm who logged out. */
    method Logout(user: User) returns (r: UserResponse)
      requires prisma.Valid() && prisma.IsCurrent(user)
      modifies prisma
      ensures prisma.Valid()
      ensures prisma.contacts == old(prisma.contacts) && prisma.nextContactId == old(prisma.nextContactId)
      ensures prisma.users == WithToken(old(prisma.users), user.username, None)
      ensures r == UserResponse(user.username, user.name, None)
    {
      WithTokenValid(prisma.users, user.username, None);
      prisma.users := WithToken(prisma.users, user.username, None);
      var result := prisma.users[user.username];
      r := UserResponse(result.username, result.name, None);
    }
  }
}
