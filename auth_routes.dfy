/**
 * The account gate of server/src/routes/auth.ts: registration with the
 * first-account rule, the login decision chain, the pending-approvals query
 * and approval. Accounts live in a sequence whose index is the account id.
 * The email validator, password comparison (bcrypt) and the signing secret
 * from the environment are parameters; the token is the claim set that
 * would be signed.
 */
module AuthRoutes {
  import opened Wrappers
  import opened JsText

  datatype Role = User | Admin

  type AccountId = nat

  /** A stored user; `password` is whatever the user model stores, compared only through `comparePassword`. */
  datatype Account = Account(email: string, password: string, name: string, workingGroup: string, role: Role, isApproved: bool)

  /** A request body; a key the client did not send is `None`. */
  datatype RegisterBody = RegisterBody(email: Option<string>, password: Option<string>, name: Option<string>, workingGroup: Option<string>)

  datatype LoginBody = LoginBody(email: Option<string>, password: Option<string>)

  /** The body fields the validators check. */
  datatype BodyField = Email | Password | Name | WorkingGroup

  datatype AuthError =
    | Invalid(fields: seq<BodyField>)  // express-validator errors, one per failing field
    | UserExists                    // 'User already exists'
    | InvalidCredentials            // 'Invalid credentials'
    | PendingApproval               // 'Account pending approval'
    | UserNotFound                  // 'User not found'

  function AuthStatus(e: AuthError): (status: nat)
    ensures status == 400 <==> e.Invalid? || e.UserExists?
    ensures status == 401 <==> e.InvalidCredentials?
  {
    match e
    case Invalid(_) => 400
    case UserExists => 400
    case InvalidCredentials => 401
    case PendingApproval => 403
    case UserNotFound => 404
  }

  const ServerWorkingGroups: seq<string> := ["Smart Click", "F.E."]

  predicate EmailOk(email: Option<string>, isEmail: string -> bool) {
    email.Some? && isEmail(email.value)
  }

  /** `isLength({ min: 6 })`. */
  predicate PasswordOk(password: Option<string>) {
    password.Some? && |password.value| >= 6
  }

  /** `trim().notEmpty()`. */
  predicate NameOk(name: Option<string>) {
    name.Some? && Trim(name.value) != ""
  }

  /** `isIn(['Smart Click', 'F.E.'])`. */
  predicate GroupOk(group: Option<string>) {
    group.Some? && group.value in ServerWorkingGroups
  }

  /** The fields the register validators reject, in validator order. */
  function RegisterViolations(body: RegisterBody, isEmail: string -> bool): (fields: seq<BodyField>)
    ensures Email in fields <==> !EmailOk(body.email, isEmail)
    ensures Password in fields <==> !PasswordOk(body.password)
    ensures Name in fields <==> !NameOk(body.name)
    ensures WorkingGroup in fields <==> !GroupOk(body.workingGroup)
  {
    FailedFields(EmailOk(body.email, isEmail), PasswordOk(body.password), NameOk(body.name), GroupOk(body.workingGroup))
  }

  /** The error list from the four validators' verdicts, in validator order. */
  function FailedFields(emailOk: bool, passwordOk: bool, nameOk: bool, groupOk: bool): (fields: seq<BodyField>)
    ensures Email in fields <==> !emailOk
    ensures Password in fields <==> !passwordOk
    ensures Name in fields <==> !nameOk
    ensures WorkingGroup in fields <==> !groupOk
  {
    var front := Reported(emailOk, Email) + Reported(passwordOk, Password);
    var back := Reported(nameOk, Name) + Reported(groupOk, WorkingGroup);
    assert forall f :: f in front + back <==> f in front || f in back;
    front + back
  }

  /** One validator's contribution to the error list: its field when it fails. */
  function Reported(ok: bool, field: BodyField): (r: seq<BodyField>)
    ensures forall f :: f in r <==> !ok && f == field
  {
    if ok then [] else [field]
  }

  /** `User.findOne({ email })`: the first account with that email. */
  function FindByEmail(accounts: seq<Account>, email: string): (r: Option<AccountId>)
    ensures r.None? <==> forall k :: 0 <= k < |accounts| ==> accounts[k].email != email
    ensures r.Some? ==>
      && r.value < |accounts| && accounts[r.value].email == email
      && forall k :: 0 <= k < r.value ==> accounts[k].email != email
    decreases |accounts|
  {
    if accounts == [] then None
    else if accounts[0].email == email then Some(0)
    else
      match FindByEmail(accounts[1..], email)
      case None => None
      case Some(i) => Some(i + 1)
  }

  predicate DistinctEmails(accounts: seq<Account>) {
    forall i, j :: 0 <= i < j < |accounts| ==> accounts[i].email != accounts[j].email
  }

  /** The first account is the approved admin; every other account is a user. */
  predicate RolesByOrder(accounts: seq<Account>) {
    && (|accounts| > 0 ==> accounts[0].role == Admin && accounts[0].isApproved)
    && forall k :: 0 < k < |accounts| ==> accounts[k].role == User
  }

  datatype RegisterReply = RegisterReply(message: string, isAdmin: bool)

  const AdminCreatedMessage := "Admin account created successfully."
  const AwaitingApprovalMessage := "Registration successful. Waiting for admin approval."

  /** POST /auth/register: the new account list and the reply. */
  function RegisterOutcome(accounts: seq<Account>, body: RegisterBody, isEmail: string -> bool)
    : (o: (seq<Account>, Result<RegisterReply, AuthError>))
    ensures RegisterViolations(body, isEmail) != [] ==>
      o == (accounts, Failure(Invalid(RegisterViolations(body, isEmail))))
    ensures RegisterViolations(body, isEmail) == [] ==>
      (o.1 == Failure(UserExists) <==> FindByEmail(accounts, body.email.value).Some?)
    ensures RegisterViolations(body, isEmail) == [] && FindByEmail(accounts, body.email.value).None? ==> o.1.Success?
    ensures o.1.Failure? ==> o.0 == accounts
    ensures o.1.Success? ==>
      var first := |accounts| == 0;
      && RegisterViolations(body, isEmail) == []
      && o.0 == accounts + [Account(body.email.value, body.password.value, Trim(body.name.value),
                             body.workingGroup.value, if first then Admin else User, first)]
      && o.1.value.isAdmin == first
      && o.1.value.message == if first then AdminCreatedMessage else AwaitingApprovalMessage
  {
    var violations := RegisterViolations(body, isEmail);
    if violations != [] then (accounts, Failure(Invalid(violations)))
    else
      var email := body.email.value;
      if FindByEmail(accounts, email).Some? then (accounts, Failure(UserExists))
      else
        var isFirst := |accounts| == 0;
        var account := Account(email, body.password.value, Trim(body.name.value), body.workingGroup.value,
          if isFirst then Admin else User, isFirst);
        (accounts + [account], Success(RegisterReply(if isFirst then AdminCreatedMessage else AwaitingApprovalMessage, isFirst)))
  }

  /** Registration keeps emails distinct and keeps the first account the only admin. */
  lemma RegisterKeepsAccountsValid(accounts: seq<Account>, body: RegisterBody, isEmail: string -> bool)
    requires DistinctEmails(accounts) && RolesByOrder(accounts)
    ensures var next := RegisterOutcome(accounts, body, isEmail).0;
      DistinctEmails(next) && RolesByOrder(next)
  {
    var o := RegisterOutcome(accounts, body, isEmail);
    if o.1.Success? {
      AppendKeepsAccountsValid(accounts, o.0[|accounts|]);
      assert o.0 == accounts + [o.0[|accounts|]];
    }
  }

  /** Appending an account with an unused email, admin and approved exactly when it is the first, keeps the accounts valid. */
  lemma AppendKeepsAccountsValid(accounts: seq<Account>, a: Account)
    requires DistinctEmails(accounts) && RolesByOrder(accounts)
    requires FindByEmail(accounts, a.email).None?
    requires a.role == (if |accounts| == 0 then Admin else User) && a.isApproved == (|accounts| == 0)
    ensures DistinctEmails(accounts + [a]) && RolesByOrder(accounts + [a])
  {
    var next := accounts + [a];
    forall i, j | 0 <= i < j < |next|
      ensures next[i].email != next[j].email
    {
      assert next[i] == accounts[i];
      if j < |accounts| {
        assert next[j] == accounts[j];
      }
    }
  }

  /** Once one account exists, every later registration creates an unapproved user. */
  lemma LaterRegistrationsArePending(accounts: seq<Account>, body: RegisterBody, isEmail: string -> bool)
    requires |accounts| > 0
    requires RegisterOutcome(accounts, body, isEmail).1.Success?
    ensures var next := RegisterOutcome(accounts, body, isEmail).0;
      |next| == |accounts| + 1 && next[|accounts|].role == User && !next[|accounts|].isApproved
      && !RegisterOutcome(accounts, body, isEmail).1.value.isAdmin
  {
  }

  /** The claims `jwt.sign` is given: the account id, the secret and a 24-hour lifetime. */
  datatype Token = Token(subject: AccountId, secret: string, expiresInSeconds: nat)

  const DefaultSecret := "your-secret-key"
  const TokenLifetime: nat := 24 * 60 * 60

  /** `process.env.JWT_SECRET || 'your-secret-key'`: an unset or empty variable falls back to the default. */
  function SigningSecret(env: Option<string>): (secret: string)
    ensures env.Some? && env.value != "" ==> secret == env.value
    ensures env.None? || env.value == "" ==> secret == DefaultSecret
  {
    if env.Some? && env.value != "" then env.value else DefaultSecret
  }

  /** The account as the login reply shows it: no password, no approval flag. */
  datatype PublicAccount = PublicAccount(id: AccountId, email: string, name: string, role: Role, workingGroup: string)

  datatype LoginReply = LoginReply(token: Token, user: PublicAccount)

  /** The login validators: an email, and a non-empty password. */
  function LoginViolations(body: LoginBody, isEmail: string -> bool): (fields: seq<BodyField>)
    ensures Email in fields <==> !EmailOk(body.email, isEmail)
    ensures Password in fields <==> (body.password.None? || body.password.value == "")
    ensures forall f :: f in fields ==> f == Email || f == Password
  {
    Reported(EmailOk(body.email, isEmail), Email) + Reported(body.password.Some? && body.password.value != "", Password)
  }

  /** POST /auth/login: validators, lookup, password, approval, token. */
  function Login(accounts: seq<Account>, body: LoginBody, isEmail: string -> bool,
                 comparePassword: (string, string) -> bool, env: Option<string>): (r: Result<LoginReply, AuthError>)
    ensures LoginViolations(body, isEmail) != [] ==> r == Failure(Invalid(LoginViolations(body, isEmail)))
    ensures LoginViolations(body, isEmail) == [] ==>
      var found := FindByEmail(accounts, body.email.value);
      && (r == Failure(InvalidCredentials) <==>
            found.None? || !comparePassword(accounts[found.value].password, body.password.value))
      && (r == Failure(PendingApproval) <==>
            found.Some? && comparePassword(accounts[found.value].password, body.password.value)
            && !accounts[found.value].isApproved)
      && ((found.Some? && comparePassword(accounts[found.value].password, body.password.value) && accounts[found.value].isApproved)
            ==> r.Success?)
    ensures r.Success? ==>
      var id := r.value.token.subject;
      && LoginViolations(body, isEmail) == []
      && FindByEmail(accounts, body.email.value) == Some(id)
      && comparePassword(accounts[id].password, body.password.value)
      && accounts[id].isApproved
      && r.value.token == Token(id, SigningSecret(env), TokenLifetime)
      && r.value.user == PublicAccount(id, accounts[id].email, accounts[id].name, accounts[id].role, accounts[id].workingGroup)
  {
    var violations := LoginViolations(body, isEmail);
    if violations != [] then Failure(Invalid(violations))
    else
      match FindByEmail(accounts, body.email.value)
      case None => Failure(InvalidCredentials)
      case Some(id) =>
        var user := accounts[id];
        if !comparePassword(user.password, body.password.value) then Failure(InvalidCredentials)
        else if !user.isApproved then Failure(PendingApproval)
        else Success(LoginReply(Token(id, SigningSecret(env), TokenLifetime),
          PublicAccount(id, user.email, user.name, user.role, user.workingGroup)))
  }

  /** An unknown email and a wrong password give the same answer, so a caller cannot tell which it was. */
  lemma UnknownEmailLooksLikeWrongPassword(accounts: seq<Account>, email: string, known: string, password: string,
                                           isEmail: string -> bool, comparePassword: (string, string) -> bool, env: Option<string>)
    requires isEmail(email) && isEmail(known) && password != ""
    requires FindByEmail(accounts, email).None?
    requires FindByEmail(accounts, known).Some? && !comparePassword(accounts[FindByEmail(accounts, known).value].password, password)
    ensures Login(accounts, LoginBody(Some(email), Some(password)), isEmail, comparePassword, env)
         == Login(accounts, LoginBody(Some(known), Some(password)), isEmail, comparePassword, env)
         == Failure(InvalidCredentials)
  {
  }

  /** An unapproved account never gets a token, even with the right password. */
  lemma UnapprovedGetsNoToken(accounts: seq<Account>, id: AccountId, password: string,
                              isEmail: string -> bool, comparePassword: (string, string) -> bool, env: Option<string>)
    requires DistinctEmails(accounts)
    requires id < |accounts| && !accounts[id].isApproved && isEmail(accounts[id].email) && password != ""
    ensures var r := Login(accounts, LoginBody(Some(accounts[id].email), Some(password)), isEmail, comparePassword, env);
      !r.Success? && (comparePassword(accounts[id].password, password) ==> r == Failure(PendingApproval))
  {
  }

  /** A view of an account without its password, as `.select('-password')` returns it. */
  datatype AccountView = AccountView(id: AccountId, email: string, name: string, workingGroup: string, role: Role, isApproved: bool)

  function View(id: AccountId, a: Account): AccountView {
    AccountView(id, a.email, a.name, a.workingGroup, a.role, a.isApproved)
  }

  /** GET /auth/pending-approvals: `User.find({ isApproved: false })`, in storage order. */
  function PendingApprovals(accounts: seq<Account>): (r: seq<AccountView>)
    ensures forall v :: v in r <==> v.id < |accounts| && !accounts[v.id].isApproved && v == View(v.id, accounts[v.id])
    ensures forall i, j :: 0 <= i < j < |r| ==> r[i].id < r[j].id
  {
    if accounts == [] then []
    else
      var n := |accounts| - 1;
      var init := PendingApprovals(accounts[..n]);
      assert forall k :: 0 <= k < n ==> accounts[..n][k] == accounts[k];
      init + (if accounts[n].isApproved then [] else [View(n, accounts[n])])
  }

  /** POST /auth/approve/:userId. */
  function ApproveOutcome(accounts: seq<Account>, id: AccountId): (o: (seq<Account>, Result<(), AuthError>))
    ensures id >= |accounts| ==> o == (accounts, Failure(UserNotFound))
    ensures id < |accounts| ==>
      && o.1 == Success(())
      && |o.0| == |accounts|
      && o.0[id] == accounts[id].(isApproved := true)
      && forall k :: 0 <= k < |accounts| && k != id ==> o.0[k] == accounts[k]
  {
    if id >= |accounts| then (accounts, Failure(UserNotFound))
    else (accounts[id := accounts[id].(isApproved := true)], Success(()))
  }

  /** Approving twice leaves the same accounts as approving once. */
  lemma ApproveIdempotent(accounts: seq<Account>, id: AccountId)
    ensures var once := ApproveOutcome(accounts, id).0;
      ApproveOutcome(once, id) == (once, ApproveOutcome(accounts, id).1)
  {
    var once := ApproveOutcome(accounts, id).0;
    if id < |accounts| {
      assert once[id].(isApproved := true) == once[id];
      assert once[id := once[id]] == once;
    }
  }

  /** Approval takes an account off the pending list and changes nothing else about who is pending. */
  lemma ApproveRemovesFromPending(accounts: seq<Account>, id: AccountId)
    requires id < |accounts|
    ensures var after := PendingApprovals(ApproveOutcome(accounts, id).0);
      forall v :: v in after <==> v in PendingApprovals(accounts) && v.id != id
  {
  }

  /** After approval, the right password for the account's email yields a token for that account. */
  lemma ApprovedAccountLogsIn(accounts: seq<Account>, id: AccountId, password: string,
                              isEmail: string -> bool, comparePassword: (string, string) -> bool, env: Option<string>)
    requires DistinctEmails(accounts)
    requires id < |accounts| && isEmail(accounts[id].email) && password != ""
    requires comparePassword(accounts[id].password, password)
    ensures var after := ApproveOutcome(accounts, id).0;
      var r := Login(after, LoginBody(Some(accounts[id].email), Some(password)), isEmail, comparePassword, env);
      r.Success? && r.value.token == Token(id, SigningSecret(env), TokenLifetime)
  {
  }

  /** The user collection, with the two routes that write it. */
  class AccountStore {
    var accounts: seq<Account>

    ghost predicate Valid()
      reads this
    {
      DistinctEmails(accounts) && RolesByOrder(accounts)
    }

    constructor ()
      ensures Valid() && accounts == []
    {
      accounts := [];
    }

    method Register(body: RegisterBody, isEmail: string -> bool) returns (r: Result<RegisterReply, AuthError>)
      requires Valid()
      modifies this
      ensures Valid()
      ensures var o := RegisterOutcome(old(accounts), body, isEmail); accounts == o.0 && r == o.1
    {
      var violations := RegisterViolations(body, isEmail);
      if violations != [] {
        return Failure(Invalid(violations));
      }
      var email := body.email.value;
      if FindByEmail(accounts, email).Some? {
        return Failure(UserExists);
      }
      var isFirst := |accounts| == 0;
      var account := Account(email, body.password.value, Trim(body.name.value), body.workingGroup.value,
        if isFirst then Admin else User, isFirst);
      accounts := accounts + [account];
      r := Success(RegisterReply(if isFirst then AdminCreatedMessage else AwaitingApprovalMessage, isFirst));
    }

    method Approve(id: AccountId) returns (r: Result<(), AuthError>)
      requires Valid()
      modifies this
      ensures Valid()
      ensures var o := ApproveOutcome(old(accounts), id); accounts == o.0 && r == o.1
    {
      if id >= |accounts| {
        return Failure(UserNotFound);
      }
      accounts := accounts[id := accounts[id].(isApproved := true)];
      r := Success(());
    }
  }
}
