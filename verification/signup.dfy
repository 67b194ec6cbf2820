/**
 * The sign-up endpoint (app/api/auth/signup/route.ts): it validates the
 * name, e-mail and password, refuses an e-mail the auth service already
 * knows, creates the account, and then tries to add a profile row, whose
 * failure does not fail the sign-up. The auth service's accounts are a set
 * of e-mail addresses and the `profiles` table a sequence of rows; the
 * service's and the database's answers come in as parameters.
 */
module Signup {
  import opened Wrappers
  import opened JsStrings
  import opened JsValues

  /** The `user` object of a successful answer. */
  datatype UserInfo = UserInfo(id: string, email: string, name: Value)

  /** The JSON answer: its status code, its `message` and, on success, its `user`. */
  datatype Reply = Reply(status: int, message: string, user: Option<UserInfo>)

  /** A row of `profiles`. */
  datatype Profile = Profile(id: string, fullName: Value, email: Value)

  /** The auth service's answer to `createUser`: an error, no user, or the created user's id and e-mail. */
  datatype CreateReply = Refused(message: string) | NoUser | Created(id: string, email: string)

  const MinPasswordLength: nat := 6

  const MissingFieldsText: string := "Missing required fields"
  const ShortPasswordText: string := "Password must be at least 6 characters long"
  const CheckFailedText: string := "Error checking user existence"
  const ExistsText: string := "User with this email already exists"
  const NoUserText: string := "Failed to create user"
  const CreatedText: string := "User created successfully"
  const InternalErrorText: string := "Internal server error"

  /**
   * `password.length < 6`: a string's length counts UTF-16 code units and
   * an array's its items; an object compares its `length` property when
   * that is a number. Any other value has no length, and the comparison
   * with `undefined` is false.
   */
  predicate ShortPassword(password: Value): (short: bool)
    ensures short ==> password.Str? || password.Array? || password.Object?
    ensures password.Str? && |password.s| >= MinPasswordLength ==> !short
    ensures password.Str? && Utf16Length(password.s) == |password.s| ==> (short <==> |password.s| < MinPasswordLength)
    ensures password.Str? ==> (short <==> Utf16Length(password.s) < MinPasswordLength)
    ensures password.Array? ==> (short <==> |password.items| < MinPasswordLength)
  {
    match password
    case Str(s) => Utf16Length(s) < MinPasswordLength
    case Array(items) => |items| < MinPasswordLength
    case Object(fields) => "length" in fields && fields["length"].Number? && fields["length"].x < MinPasswordLength as real
    case _ => false
  }

  /** The request's checks, in order: the three fields are present, then the password is long enough. */
  function Validate(fields: map<string, Value>): (r: Option<Reply>)
    ensures r == Some(Reply(400, MissingFieldsText, None)) <==>
      !(Truthy(Field(fields, "name")) && Truthy(Field(fields, "email")) && Truthy(Field(fields, "password")))
    ensures r == Some(Reply(400, ShortPasswordText, None)) <==>
      Truthy(Field(fields, "name")) && Truthy(Field(fields, "email")) && Truthy(Field(fields, "password"))
      && ShortPassword(Field(fields, "password"))
    ensures r.None? || r == Some(Reply(400, MissingFieldsText, None)) || r == Some(Reply(400, ShortPasswordText, None))
  {
    if !Truthy(Field(fields, "name")) || !Truthy(Field(fields, "email")) || !Truthy(Field(fields, "password")) then
      Some(Reply(400, MissingFieldsText, None))
    else if ShortPassword(Field(fields, "password")) then
      Some(Reply(400, ShortPasswordText, None))
    else
      None
  }

  /**
   * A string password passes the length check exactly when it has six UTF-16
   * code units or more: six characters or more always pass, and fewer BMP
   * characters fail.
   */
  lemma PasswordLengthBoundary(fields: map<string, Value>, p: string)
    requires Truthy(Field(fields, "name")) && Truthy(Field(fields, "email"))
    requires Field(fields, "password") == Str(p)
    ensures Utf16Length(p) >= MinPasswordLength ==> Validate(fields).None?
    ensures Utf16Length(p) < MinPasswordLength && p != [] ==> Validate(fields) == Some(Reply(400, ShortPasswordText, None))
    ensures |p| >= MinPasswordLength ==> Validate(fields).None?
    ensures |p| < MinPasswordLength && (forall i :: 0 <= i < |p| ==> p[i] as int <= 0xFFFF) && p != []
      ==> Validate(fields) == Some(Reply(400, ShortPasswordText, None))
  {
    if p != [] {
      assert Truthy(Field(fields, "password"));
      assert Validate(fields) == if Utf16Length(p) < MinPasswordLength then Some(Reply(400, ShortPasswordText, None)) else None;
    }
  }

  /**
   * A code point above U+FFFF counts twice: three of them make a password
   * long enough, two do not.
   */
  lemma AstralPasswordLength(fields: map<string, Value>, c: char)
    requires Truthy(Field(fields, "name")) && Truthy(Field(fields, "email"))
    requires c as int > 0xFFFF
    ensures Field(fields, "password") == Str([c, c, c]) ==> Validate(fields).None?
    ensures Field(fields, "password") == Str([c, c]) ==> Validate(fields) == Some(Reply(400, ShortPasswordText, None))
  {
    Utf16LengthOfChar(c);
    Utf16LengthConcat([c], [c]);
    Utf16LengthConcat([c, c], [c]);
    assert [c] + [c] == [c, c];
    assert [c, c] + [c] == [c, c, c];
  }

  /** `users.some(user => user.email === email)`: the e-mail is a string the service already has. */
  predicate Registered(emails: set<string>, email: Value): (known: bool)
    ensures known <==> exists s :: s in emails && email == Str(s)
  {
    email.Str? && email.s in emails
  }

  /**
   * The answer to a sign-up request, given the service's accounts, whether
   * listing them failed, and the service's answer to `createUser`.
   */
  function Outcome(body: Body, emails: set<string>, listFails: bool, create: CreateReply): (r: Reply)
    ensures body.Unreadable? ==> r == Reply(500, InternalErrorText, None)
    ensures body.Readable? && Validate(body.fields).Some? ==> r == Validate(body.fields).value
    ensures r.status == 201 <==>
      body.Readable? && Validate(body.fields).None? && !listFails
      && !Registered(emails, Field(body.fields, "email")) && create.Created?
    ensures r.status == 201 ==>
      r == Reply(201, CreatedText, Some(UserInfo(create.id, create.email, Field(body.fields, "name"))))
    ensures r.status != 201 ==> r.user.None?
    ensures body.Readable? && Validate(body.fields).None? && listFails ==> r == Reply(500, CheckFailedText, None)
    ensures body.Readable? && Validate(body.fields).None? && !listFails && Registered(emails, Field(body.fields, "email"))
            ==> r == Reply(409, ExistsText, None)
    ensures body.Readable? && Validate(body.fields).None? && !listFails && !Registered(emails, Field(body.fields, "email"))
            ==> (create.Refused? ==> r == Reply(400, create.message, None))
                && (create.NoUser? ==> r == Reply(400, NoUserText, None))
  {
    match body
    case Unreadable(_) => Reply(500, InternalErrorText, None)
    case Readable(fields) =>
      match Validate(fields)
      case Some(refusal) => refusal
      case None =>
        if listFails then Reply(500, CheckFailedText, None)
        else if Registered(emails, Field(fields, "email")) then Reply(409, ExistsText, None)
        else
          match create
          case Refused(message) => Reply(400, message, None)
          case NoUser => Reply(400, NoUserText, None)
          case Created(id, email) => Reply(201, CreatedText, Some(UserInfo(id, email, Field(fields, "name"))))
  }

  /** An invalid request is answered before the auth service is consulted: its accounts and answers make no difference. */
  lemma InvalidNeverConsultsStore(fields: map<string, Value>, e1: set<string>, e2: set<string>,
                                  l1: bool, l2: bool, c1: CreateReply, c2: CreateReply)
    requires Validate(fields).Some?
    ensures Outcome(Readable(fields), e1, l1, c1) == Outcome(Readable(fields), e2, l2, c2)
    ensures Outcome(Readable(fields), e1, l1, c1).status == 400
  {
  }

  /** A valid request for a known e-mail is a conflict, whatever `createUser` would have answered. */
  lemma KnownEmailConflicts(fields: map<string, Value>, emails: set<string>, create: CreateReply)
    requires Validate(fields).None?
    requires Registered(emails, Field(fields, "email"))
    ensures Outcome(Readable(fields), emails, false, create) == Reply(409, ExistsText, None)
  {
  }

  /** When listing the accounts fails, the answer is 500 whatever the accounts are. */
  lemma ListFailureIsServerError(fields: map<string, Value>, emails: set<string>, create: CreateReply)
    requires Validate(fields).None?
    ensures Outcome(Readable(fields), emails, true, create) == Reply(500, CheckFailedText, None)
  {
  }

  /** The auth service's accounts and the `profiles` table. */
  class AuthStore {
    var emails: set<string>
    var profiles: seq<Profile>

    constructor ()
      ensures emails == {} && profiles == []
    {
      emails := {};
      profiles := [];
    }

    /**
     * `POST /api/auth/signup`. `listFails` says listing the accounts
     * answered with an error, `create` is the answer to `createUser`, and
     * `profileFails` says the profile insert failed or threw.
     */
    method SignUp(body: Body, listFails: bool, create: CreateReply, profileFails: bool) returns (reply: Reply)
      modifies this
      ensures reply == Outcome(body, old(emails), listFails, create)
      ensures reply.status != 201 ==> emails == old(emails) && profiles == old(profiles)
      ensures reply.status == 201 ==> emails == old(emails) + {create.email}
      ensures reply.status == 201 && profileFails ==> profiles == old(profiles)
      ensures reply.status == 201 && !profileFails ==>
        profiles == old(profiles) + [Profile(create.id, Field(body.fields, "name"), Field(body.fields, "email"))]
    {
      if body.Unreadable? {
        return Reply(500, InternalErrorText, None);
      }
      var fields := body.fields;
      var refusal := Validate(fields);
      if refusal.Some? {
        return refusal.value;
      }
      if listFails {
        return Reply(500, CheckFailedText, None);
      }
      var email := Field(fields, "email");
      if Registered(emails, email) {
        return Reply(409, ExistsText, None);
      }
      match create
      case Refused(message) =>
        return Reply(400, message, None);
      case NoUser =>
        return Reply(400, NoUserText, None);
      case Created(id, createdEmail) =>
        emails := emails + {createdEmail};
        if !profileFails {
          profiles := profiles + [Profile(id, Field(fields, "name"), email)];
        }
        reply := Reply(201, CreatedText, Some(UserInfo(id, createdEmail, Field(fields, "name"))));
    }
  }

  /**
   * Once a sign-up succeeds with the e-mail the request gave, a second
   * valid request with that e-mail is a conflict.
   */
  lemma SecondSignUpConflicts(first: map<string, Value>, second: map<string, Value>, emails: set<string>,
                              id: string, s: string, create: CreateReply)
    requires Field(first, "email") == Str(s) && Field(second, "email") == Str(s)
    requires Outcome(Readable(first), emails, false, Created(id, s)).status == 201
    requires Validate(second).None?
    ensures Outcome(Readable(second), emails + {s}, false, create) == Reply(409, ExistsText, None)
  {
    KnownEmailConflicts(second, emails + {s}, create);
  }
}
