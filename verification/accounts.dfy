/** Registration and login over the users table. Password hashing and
    comparison, token signing and the way the driver binds a body value as
    a query parameter are parameters. */
module Accounts {
  import opened Js
  import Text
  import Auth

  /** A row of the users table (the creation time is left out). */
  datatype User = User(id: nat, email: string, passwordHash: string, name: Value, tier: string, status: string)

  /** What a reply shows of a user: never the password hash. */
  datatype Profile = Profile(id: nat, email: string, name: Value, tier: string)

  function ProfileOf(u: User): Profile
  {
    Profile(u.id, u.email, u.name, u.tier)
  }

  /** The columns generateToken reads from a returned row. */
  function Row(u: User): Value
  {
    Obj(map["id" := Num(u.id as real), "email" := Str(u.email), "subscription_tier" := Str(u.tier)])
  }

  /** Index of the first user with this email, or -1. */
  function FirstWithEmail(users: seq<User>, email: string): (i: int)
    ensures -1 <= i < |users|
    ensures i == -1 <==> forall k :: 0 <= k < |users| ==> users[k].email != email
    ensures i >= 0 ==> users[i].email == email && forall k :: 0 <= k < i ==> users[k].email != email
  {
    FirstWith(users, (u: User) => u.email, email)
  }

  /** The table's UNIQUE constraint on email. */
  predicate UniqueEmails(users: seq<User>)
  {
    forall i, j :: 0 <= i < j < |users| ==> users[i].email != users[j].email
  }

  /** `.length` of a value: a string counts its UTF-16 code units, an array
      its elements, an object answers its own `length` field, and a number
      or a boolean has none. */
  function Length(v: Value): Value
  {
    match v
    case Str(s) => Num(Text.Utf16Length(s) as real)
    case Arr(items) => Num(|items| as real)
    case Obj(fields) => Get(fields, "length")
    case _ => Undefined
  }

  /** `password.length < 8`: the length is converted with Number(), and a
      NaN compares false, so a value without a length passes this check. */
  predicate TooShort(password: Value, parse: string -> Option<real>)
  {
    var n := ToNumber(Length(password), parse);
    n.Some? && n.value < 8.0
  }

  /** For a string the check is on its code units. */
  lemma StringTooShort(s: string, parse: string -> Option<real>)
    ensures TooShort(Str(s), parse) <==> Text.Utf16Length(s) < 8
  {
  }

  /** An object is as short as its `length` field says: `{"length": 3}` is
      refused, `{}` passes. */
  lemma ObjectLengthField(parse: string -> Option<real>)
    ensures TooShort(Obj(map["length" := Num(3.0)]), parse)
    ensures !TooShort(Obj(map[]), parse)
  {
    assert Get(map["length" := Num(3.0)], "length") == Num(3.0);
  }

  /** Four astral characters are eight code units long: long enough. */
  lemma AstralPasswordLongEnough(parse: string -> Option<real>)
    ensures !TooShort(Str("\U{1F600}\U{1F600}\U{1F600}\U{1F600}"), parse)
  {
    assert Text.Utf16Length("\U{1F600}\U{1F600}\U{1F600}\U{1F600}") == 8;
  }

  datatype RegisterReply =
    | RegisterNotPost        // 405
    | DbUnavailable          // 500 'Database connection failed'
    | MissingCredentials     // 400
    | PasswordTooShort       // 400
    | EmailTaken             // 409
    | RegisterFailed         // 500
    | Registered(user: Profile, token: string)  // 201

  function RegisterStatus(r: RegisterReply): nat
  {
    match r
    case RegisterNotPost => 405
    case DbUnavailable => 500
    case MissingCredentials => 400
    case PasswordTooShort => 400
    case EmailTaken => 409
    case RegisterFailed => 500
    case Registered(_, _) => 201
  }

  /** The database and the other collaborators of both handlers; `parse`
      is Number()'s grammar for strings, used by the length comparison. */
  datatype Env = Env(
    users: seq<User>,
    newId: nat,
    probeFails: bool,
    insertFails: bool,
    bind: Value -> Option<string>,
    hash: string -> string,
    compare: (string, string) -> bool,
    sign: Auth.Claims -> string,
    parse: string -> Option<real>)

  /** What the body's fields must be for a registration to go through. */
  predicate Registrable(body: Value, env: Env)
  {
    && !Nullish(body)
    && Truthy(Prop(body, "email")) && Truthy(Prop(body, "password"))
    && Prop(body, "password").Str? && Text.Utf16Length(Prop(body, "password").s) >= 8
    && env.bind(Prop(body, "email")).Some?
    && FirstWithEmail(env.users, env.bind(Prop(body, "email")).value) < 0
  }

  /** The row a registration inserts. */
  function NewUser(body: Value, env: Env): User
    requires Registrable(body, env)
  {
    User(env.newId, env.bind(Prop(body, "email")).value, env.hash(Prop(body, "password").s),
         Or(Prop(body, "name"), Null), "free", "active")
  }

  /** The registration handler (both copies). A nullish body throws when
      it is destructured; hashing a password that is not a string throws. */
  function Register(httpMethod: string, body: Value, env: Env): (r: (RegisterReply, seq<User>))
    ensures httpMethod != "POST" ==> r.0 == RegisterNotPost
    ensures httpMethod == "POST" && env.probeFails ==> r.0 == DbUnavailable
    ensures httpMethod == "POST" && !env.probeFails && Nullish(body) ==> r.0 == RegisterFailed
    ensures httpMethod == "POST" && !env.probeFails && !Nullish(body) ==>
              && (!Truthy(Prop(body, "email")) || !Truthy(Prop(body, "password")) ==> r.0 == MissingCredentials)
              && (Truthy(Prop(body, "email")) && Truthy(Prop(body, "password")) && TooShort(Prop(body, "password"), env.parse)
                  ==> r.0 == PasswordTooShort)
    ensures r.0 == EmailTaken <==>
              && httpMethod == "POST" && !env.probeFails && !Nullish(body)
              && Truthy(Prop(body, "email")) && Truthy(Prop(body, "password")) && !TooShort(Prop(body, "password"), env.parse)
              && env.bind(Prop(body, "email")).Some?
              && FirstWithEmail(env.users, env.bind(Prop(body, "email")).value) >= 0
    ensures r.0.Registered? <==> httpMethod == "POST" && !env.probeFails && Registrable(body, env) && !env.insertFails
    ensures !r.0.Registered? ==> r.1 == env.users
    ensures r.0.Registered? ==>
              && r.1 == env.users + [NewUser(body, env)]
              && r.0.user == ProfileOf(NewUser(body, env))
              && r.0.user.tier == "free" && r.1[|env.users|].status == "active"
              && r.0.token == env.sign(Auth.TokenPayload(Row(NewUser(body, env))))
  {
    if httpMethod != "POST" then (RegisterNotPost, env.users)
    else if env.probeFails then (DbUnavailable, env.users)
    else if Nullish(body) then (RegisterFailed, env.users)
    else
      var email := Prop(body, "email");
      var password := Prop(body, "password");
      if !Truthy(email) || !Truthy(password) then (MissingCredentials, env.users)
      else if TooShort(password, env.parse) then (PasswordTooShort, env.users)
      else
        match env.bind(email)
        case None => (RegisterFailed, env.users)
        case Some(key) =>
          if FirstWithEmail(env.users, key) >= 0 then (EmailTaken, env.users)
          else if !password.Str? || env.insertFails then (RegisterFailed, env.users)
          else
            var u := NewUser(body, env);
            (Registered(ProfileOf(u), env.sign(Auth.TokenPayload(Row(u)))), env.users + [u])
  }

  /** Registration keeps emails unique. */
  lemma RegisterKeepsEmailsUnique(httpMethod: string, body: Value, env: Env)
    requires UniqueEmails(env.users)
    ensures UniqueEmails(Register(httpMethod, body, env).1)
  {
    var after := Register(httpMethod, body, env).1;
    if Register(httpMethod, body, env).0.Registered? {
      var u := NewUser(body, env);
      forall i, j | 0 <= i < j < |after| ensures after[i].email != after[j].email {
        if j == |env.users| {
          assert after[i] == env.users[i];
        } else {
          assert after[i] == env.users[i] && after[j] == env.users[j];
        }
      }
    }
  }

  /** A token's tier for a registered user is 'free'. */
  lemma RegisteredTokenIsFree(httpMethod: string, body: Value, env: Env)
    requires Register(httpMethod, body, env).0.Registered?
    ensures Auth.TokenPayload(Row(NewUser(body, env))).subscriptionTier == Str("free")
  {
    var row := Row(NewUser(body, env));
    assert Prop(row, "subscription_tier") == Str("free");
  }

  datatype LoginReply =
    | LoginNotPost         // 405
    | LoginMissing         // 400
    | InvalidCredentials   // 401 'Invalid email or password', the same for both causes
    | LoginFailed          // 500
    | LoggedIn(user: Profile, status: string, token: string)  // 200

  function LoginStatus(r: LoginReply): nat
  {
    match r
    case LoginNotPost => 405
    case LoginMissing => 400
    case InvalidCredentials => 401
    case LoginFailed => 500
    case LoggedIn(_, _, _) => 200
  }

  /** The login handler. Comparing with a password that is not a string
      throws. */
  function Login(httpMethod: string, body: Value, env: Env): (r: LoginReply)
    ensures httpMethod != "POST" ==> r == LoginNotPost
    ensures httpMethod == "POST" && Nullish(body) ==> r == LoginFailed
    ensures httpMethod == "POST" && !Nullish(body) ==>
              (!Truthy(Prop(body, "email")) || !Truthy(Prop(body, "password")) ==> r == LoginMissing)
    ensures r.LoggedIn? <==>
              && httpMethod == "POST" && !Nullish(body)
              && Truthy(Prop(body, "email")) && Prop(body, "password").Str? && Prop(body, "password").s != ""
              && env.bind(Prop(body, "email")).Some?
              && var i := FirstWithEmail(env.users, env.bind(Prop(body, "email")).value);
                 i >= 0 && env.compare(Prop(body, "password").s, env.users[i].passwordHash)
    ensures r.LoggedIn? ==>
              var u := env.users[FirstWithEmail(env.users, env.bind(Prop(body, "email")).value)];
              r.user == ProfileOf(u) && r.status == u.status && r.token == env.sign(Auth.TokenPayload(Row(u)))
  {
    if httpMethod != "POST" then LoginNotPost
    else if Nullish(body) then LoginFailed
    else
      var email := Prop(body, "email");
      var password := Prop(body, "password");
      if !Truthy(email) || !Truthy(password) then LoginMissing
      else
        match env.bind(email)
        case None => LoginFailed
        case Some(key) =>
          var i := FirstWithEmail(env.users, key);
          if i < 0 then InvalidCredentials
          else if !password.Str? then LoginFailed
          else if !env.compare(password.s, env.users[i].passwordHash) then InvalidCredentials
          else
            var u := env.users[i];
            LoggedIn(ProfileOf(u), u.status, env.sign(Auth.TokenPayload(Row(u))))
  }

  /** An unknown email and a wrong password get the same reply, so the
      reply does not tell which accounts exist. */
  lemma LoginUniform(body1: Value, body2: Value, env: Env)
    requires Truthy(Prop(body1, "email")) && Truthy(Prop(body1, "password"))
    requires env.bind(Prop(body1, "email")).Some?
    requires FirstWithEmail(env.users, env.bind(Prop(body1, "email")).value) < 0
    requires Truthy(Prop(body2, "email")) && Prop(body2, "password").Str? && Prop(body2, "password").s != ""
    requires env.bind(Prop(body2, "email")).Some?
    requires var i := FirstWithEmail(env.users, env.bind(Prop(body2, "email")).value);
             i >= 0 && !env.compare(Prop(body2, "password").s, env.users[i].passwordHash)
    ensures Login("POST", body1, env) == Login("POST", body2, env) == InvalidCredentials
  {
  }

  /** A registration followed by a login with the same email and password
      logs that user in, given a hash that the comparison accepts. */
  lemma RegisterThenLogin(body: Value, env: Env)
    requires Register("POST", body, env).0.Registered?
    requires env.compare(Prop(body, "password").s, env.hash(Prop(body, "password").s))
    ensures var after := env.(users := Register("POST", body, env).1);
            Login("POST", body, after) == LoggedIn(Register("POST", body, env).0.user, "active", Register("POST", body, env).0.token)
  {
    var u := NewUser(body, env);
    var after := env.(users := Register("POST", body, env).1);
    var key := env.bind(Prop(body, "email")).value;
    assert after.users == env.users + [u];
    FirstAppended(env.users, u);
    assert FirstWithEmail(after.users, key) == |env.users|;
  }

  /** In a list without the email, an appended user with it is the first. */
  lemma FirstAppended(users: seq<User>, u: User)
    requires FirstWithEmail(users, u.email) < 0
    ensures FirstWithEmail(users + [u], u.email) == |users|
  {
    var longer := users + [u];
    assert longer[|users|].email == u.email;
    forall k | 0 <= k < |users| ensures longer[k].email != u.email {
      assert longer[k] == users[k];
    }
  }
}
