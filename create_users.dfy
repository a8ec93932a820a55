/**
 * The validation that `create_users` runs on each new user before anything is
 * written, in its order, and the password rule applied to a user that passes.
 * The batch stops at the first user that fails: the exception rolls back the
 * delegated transaction, so no user of the call is created.
 *
 * The site's registries are a value: the usernames and email addresses already
 * in `{user}`, the auth, theme and translation lists, and the
 * `allowaccountssameemail` setting. `validate_email` is a parameter.
 */
module CreateUsers {
  import opened PhpValues

  /** The fields of a new user that the validation reads. */
  datatype NewUser = NewUser(
    username: string,
    password: Option<string>,
    createpassword: bool,
    email: string,
    auth: string,
    lang: string,
    theme: Option<string>)

  /** What the checks consult; the lists map a plugin or language code to a non-empty entry. */
  datatype Site = Site(
    usernames: set<string>,
    emails: set<string>,
    authPlugins: map<string, string>,
    themes: map<string, string>,
    translations: map<string, string>,
    allowAccountsSameEmail: bool)

  const MnetAuth: string := "mnet"
  const WebserviceAuth: string := "webservice"

  /** The auth plugins a new user may have: `mnet` and `webservice` are removed. */
  function AvailableAuths(site: Site): (auths: map<string, string>)
    ensures MnetAuth !in auths && WebserviceAuth !in auths
    ensures forall a :: a in auths <==> a in site.authPlugins && a != MnetAuth && a != WebserviceAuth
  {
    site.authPlugins - {MnetAuth, WebserviceAuth}
  }

  /** `!empty($user[field])` on an optional string field. */
  predicate Given(o: Option<string>)
  {
    o.Some? && !EmptyString(o.value)
  }

  /** The `invalid_parameter_exception`s of the checks, in their order. */
  datatype Rejection =
    | UsernameExists(username: string)
    | InvalidAuth(auth: string)
    | InvalidLang(lang: string)
    | InvalidTheme(theme: string)
    | NoPassword
    | InvalidEmail(email: string)
    | EmailExists(email: string)

  const UsernameExistsText: string := "Username already exists: "
  const InvalidAuthText: string := "Invalid authentication type: "
  const InvalidLangText: string := "Invalid language code: "
  const InvalidThemeText: string := "Invalid theme: "
  const NoPasswordHead: string := "Invalid password: "
  const NoPasswordText: string := NoPasswordHead + "you must provide a password, or set createpassword."
  const InvalidEmailText: string := "Email address is invalid: "
  const EmailExistsText: string := "Email address already exists: "

  /** The exception's message. */
  function Message(r: Rejection): string
  {
    match r
    case UsernameExists(name) => UsernameExistsText + name
    case InvalidAuth(auth) => InvalidAuthText + auth
    case InvalidLang(lang) => InvalidLangText + lang
    case InvalidTheme(theme) => InvalidThemeText + theme
    case NoPassword => NoPasswordText
    case InvalidEmail(email) => InvalidEmailText + email
    case EmailExists(email) => EmailExistsText + email
  }

  /**
   * The characters at positions 0, 8 and 14 of each message, which tell the
   * seven messages apart whatever value they name.
   */
  function Marks(r: Rejection): (char, char, char)
  {
    match r
    case UsernameExists(_) => ('U', ' ', 'd')
    case InvalidAuth(_) => ('I', 'a', 't')
    case InvalidLang(_) => ('I', 'l', 'g')
    case InvalidTheme(_) => ('I', 't', ' ')
    case NoPassword => ('I', 'p', 'r')
    case InvalidEmail(_) => ('E', 'd', 'i')
    case EmailExists(_) => ('E', 'd', 'a')
  }

  lemma MessageMarks(r: Rejection)
    ensures |Message(r)| >= 15
    ensures (Message(r)[0], Message(r)[8], Message(r)[14]) == Marks(r)
  {
    match r
    case UsernameExists(x) => HeadMarks(UsernameExistsText, x);
    case InvalidAuth(x) => HeadMarks(InvalidAuthText, x);
    case InvalidLang(x) => HeadMarks(InvalidLangText, x);
    case InvalidTheme(x) => HeadMarks(InvalidThemeText, x);
    case NoPassword => HeadMarks(NoPasswordHead, NoPasswordText[|NoPasswordHead|..]);
    case InvalidEmail(x) => HeadMarks(InvalidEmailText, x);
    case EmailExists(x) => HeadMarks(EmailExistsText, x);
  }

  lemma HeadMarks(h: string, x: string)
    requires |h| >= 15
    ensures |h + x| >= 15 && (h + x)[0] == h[0] && (h + x)[8] == h[8] && (h + x)[14] == h[14]
  {
  }

  /** The message tells which check failed and names the rejected value. */
  lemma MessageIdentifiesRejection(a: Rejection, b: Rejection)
    requires Message(a) == Message(b)
    ensures a == b
  {
    MessageMarks(a);
    MessageMarks(b);
    match a
    case UsernameExists(x) => CancelHead(UsernameExistsText, x, b.username);
    case InvalidAuth(x) => CancelHead(InvalidAuthText, x, b.auth);
    case InvalidLang(x) => CancelHead(InvalidLangText, x, b.lang);
    case InvalidTheme(x) => CancelHead(InvalidThemeText, x, b.theme);
    case NoPassword =>
    case InvalidEmail(x) => CancelHead(InvalidEmailText, x, b.email);
    case EmailExists(x) => CancelHead(EmailExistsText, x, b.email);
  }

  /** The number of checks. */
  const CheckCount: nat := 7

  /**
   * The k-th check, read on its own: the username is free; the auth plugin is
   * available; the language is installed; a given theme exists; there is a
   * password or one is to be created; the address is valid; the address is not
   * in use, unless accounts may share one.
   */
  predicate Passes(k: nat, u: NewUser, site: Site, validEmail: string -> bool)
  {
    match k
    case 0 => u.username !in site.usernames
    case 1 => Listed(AvailableAuths(site), u.auth)
    case 2 => Listed(site.translations, u.lang)
    case 3 => !Given(u.theme) || Listed(site.themes, u.theme.value)
    case 4 => Given(u.password) || u.createpassword
    case 5 => validEmail(u.email)
    case _ => site.allowAccountsSameEmail || u.email !in site.emails
  }

  /** The exception the k-th check raises. */
  function RejectionOf(k: nat, u: NewUser): Rejection
  {
    match k
    case 0 => UsernameExists(u.username)
    case 1 => InvalidAuth(u.auth)
    case 2 => InvalidLang(u.lang)
    case 3 => InvalidTheme(if u.theme.Some? then u.theme.value else "")
    case 4 => NoPassword
    case 5 => InvalidEmail(u.email)
    case _ => EmailExists(u.email)
  }

  /** The chain of checks: the first one that fails, if any. */
  function Check(u: NewUser, site: Site, validEmail: string -> bool): Option<Rejection>
  {
    if u.username in site.usernames then Some(UsernameExists(u.username))
    else if EmptyEntry(AvailableAuths(site), u.auth) then Some(InvalidAuth(u.auth))
    else if EmptyEntry(site.translations, u.lang) then Some(InvalidLang(u.lang))
    else if Given(u.theme) && EmptyEntry(site.themes, u.theme.value) then Some(InvalidTheme(u.theme.value))
    else if !Given(u.password) && !u.createpassword then Some(NoPassword)
    else if !validEmail(u.email) then Some(InvalidEmail(u.email))
    else if !site.allowAccountsSameEmail && u.email in site.emails then Some(EmailExists(u.email))
    else None
  }

  /**
   * The chain raises nothing exactly when every check passes, and otherwise
   * raises the exception of the first check that fails.
   */
  lemma CheckIsFirstFailure(u: NewUser, site: Site, validEmail: string -> bool)
    ensures Check(u, site, validEmail).None? <==> forall k :: 0 <= k < CheckCount ==> Passes(k, u, site, validEmail)
    ensures Check(u, site, validEmail).Some? ==>
              exists k :: 0 <= k < CheckCount && !Passes(k, u, site, validEmail) &&
                (forall j :: 0 <= j < k ==> Passes(j, u, site, validEmail)) &&
                Check(u, site, validEmail).value == RejectionOf(k, u)
  {
    var k := 0;
    while k < CheckCount && Passes(k, u, site, validEmail)
      invariant 0 <= k <= CheckCount
      invariant forall j :: 0 <= j < k ==> Passes(j, u, site, validEmail)
    {
      k := k + 1;
    }
    assert k > 0 ==> Passes(0, u, site, validEmail);
    assert k > 1 ==> Passes(1, u, site, validEmail);
    assert k > 2 ==> Passes(2, u, site, validEmail);
    assert k > 3 ==> Passes(3, u, site, validEmail);
    assert k > 4 ==> Passes(4, u, site, validEmail);
    assert k > 5 ==> Passes(5, u, site, validEmail);
    assert k > 6 ==> Passes(6, u, site, validEmail);
    if k < CheckCount {
      assert Check(u, site, validEmail) == Some(RejectionOf(k, u));
    }
  }

  /** No new user is given the `mnet` or `webservice` plugin. */
  lemma NoMnetOrWebserviceUsers(u: NewUser, site: Site, validEmail: string -> bool)
    requires u.auth == MnetAuth || u.auth == WebserviceAuth
    ensures Check(u, site, validEmail).Some?
  {
  }

  /** The record handed to `user_create_user`, and its `updatepassword` argument. */
  datatype Prepared = Prepared(
    username: string,
    password: Option<string>,
    email: string,
    auth: string,
    lang: string,
    theme: Option<string>,
    confirmed: bool,
    updatepassword: bool)

  /** A user to be mailed a generated password gets an empty one and no update of it. */
  function Prepare(u: NewUser): Prepared
  {
    if u.createpassword then Prepared(u.username, Some(""), u.email, u.auth, u.lang, u.theme, true, false)
    else Prepared(u.username, u.password, u.email, u.auth, u.lang, u.theme, true, true)
  }

  /**
   * A user that passes the checks is created either with the non-empty password
   * it was given, stored by `user_create_user`, or with an empty one that is
   * not stored and is to be generated and mailed.
   */
  lemma PreparedPassword(u: NewUser, site: Site, validEmail: string -> bool)
    requires Check(u, site, validEmail).None?
    ensures var p := Prepare(u);
            p.confirmed && p.username == u.username && p.email == u.email && p.auth == u.auth &&
            (p.updatepassword <==> !u.createpassword) &&
            (p.updatepassword ==> p.password == u.password && Given(p.password)) &&
            (!p.updatepassword ==> p.password == Some(""))
  {
  }

  /** The site as the next user of the batch sees it: the created user's name and address are taken. */
  function Register(site: Site, u: NewUser): Site
  {
    site.(usernames := site.usernames + {u.username}, emails := site.emails + {u.email})
  }

  /** The site after the users of `us` are created, in order. */
  function SiteAfter(us: seq<NewUser>, site: Site): Site
    decreases |us|
  {
    if us == [] then site else Register(SiteAfter(us[..|us| - 1], site), us[|us| - 1])
  }

  /** The users of a batch, checked and prepared in order; the first rejection ends the batch. */
  function CreateAll(us: seq<NewUser>, site: Site, validEmail: string -> bool): Result<seq<Prepared>, Rejection>
    decreases |us|
  {
    if us == [] then Ok([])
    else
      var init, last := us[..|us| - 1], us[|us| - 1];
      match CreateAll(init, site, validEmail)
      case Err(e) => Err(e)
      case Ok(ps) =>
        match Check(last, SiteAfter(init, site), validEmail)
        case Some(e) => Err(e)
        case None => Ok(ps + [Prepare(last)])
  }

  /** Once a prefix of the batch is rejected, so is the batch, with the same exception. */
  lemma {:induction false} RejectionSticks(us: seq<NewUser>, n: nat, site: Site, validEmail: string -> bool)
    requires n <= |us| && CreateAll(us[..n], site, validEmail).Err?
    ensures CreateAll(us, site, validEmail) == CreateAll(us[..n], site, validEmail)
    decreases |us|
  {
    if n < |us| {
      var init := us[..|us| - 1];
      assert init[..n] == us[..n];
      RejectionSticks(init, n, site, validEmail);
    } else {
      assert us[..n] == us;
    }
  }

  /** The usernames and addresses taken after a run are the old ones and those of the run. */
  lemma {:induction false} SiteAfterTakes(us: seq<NewUser>, site: Site)
    ensures SiteAfter(us, site).usernames == site.usernames + set u | u in us :: u.username
    ensures SiteAfter(us, site).emails == site.emails + set u | u in us :: u.email
    ensures SiteAfter(us, site).authPlugins == site.authPlugins && SiteAfter(us, site).themes == site.themes
    ensures SiteAfter(us, site).translations == site.translations
    ensures SiteAfter(us, site).allowAccountsSameEmail == site.allowAccountsSameEmail
    decreases |us|
  {
    if us != [] {
      var init := us[..|us| - 1];
      SiteAfterTakes(init, site);
      assert us == init + [us[|us| - 1]];
    }
  }

  /** A batch that succeeds prepares every user, in order. */
  lemma {:induction false} CreatedArePrepared(us: seq<NewUser>, site: Site, validEmail: string -> bool)
    requires CreateAll(us, site, validEmail).Ok?
    ensures |CreateAll(us, site, validEmail).value| == |us|
    ensures forall k :: 0 <= k < |us| ==> CreateAll(us, site, validEmail).value[k] == Prepare(us[k])
    decreases |us|
  {
    if us != [] {
      var n := |us| - 1;
      var init := us[..n];
      CreatedArePrepared(init, site, validEmail);
      var ps0 := CreateAll(init, site, validEmail).value;
      assert CreateAll(us, site, validEmail).value == ps0 + [Prepare(us[n])];
      assert forall k :: 0 <= k < n ==> init[k] == us[k];
    }
  }

  /**
   * In a batch that succeeds, each user passed the checks against the site as
   * the users before it left it.
   */
  lemma CreatedAreChecked(us: seq<NewUser>, k: nat, site: Site, validEmail: string -> bool)
    requires CreateAll(us, site, validEmail).Ok? && k < |us|
    ensures Check(us[k], SiteAfter(us[..k], site), validEmail).None?
  {
    if CreateAll(us[..k + 1], site, validEmail).Err? {
      RejectionSticks(us, k + 1, site, validEmail);
    }
    var pre := us[..k + 1];
    assert pre[..k] == us[..k] && pre[k] == us[k];
  }

  /** A batch that fails raises the exception of the first user that fails, the users before it passing. */
  lemma {:induction false} RejectedAtFirstFailure(us: seq<NewUser>, site: Site, validEmail: string -> bool)
    requires CreateAll(us, site, validEmail).Err?
    ensures exists k :: 0 <= k < |us| && CreateAll(us[..k], site, validEmail).Ok? &&
              Check(us[k], SiteAfter(us[..k], site), validEmail) == Some(CreateAll(us, site, validEmail).error)
    decreases |us|
  {
    var n := |us| - 1;
    var init := us[..n];
    if CreateAll(init, site, validEmail).Err? {
      RejectedAtFirstFailure(init, site, validEmail);
      var k :| 0 <= k < |init| && CreateAll(init[..k], site, validEmail).Ok? &&
               Check(init[k], SiteAfter(init[..k], site), validEmail) == Some(CreateAll(init, site, validEmail).error);
      assert init[..k] == us[..k] && init[k] == us[k];
    } else {
      assert us[..n] == init;
    }
  }

  /** Two users of a batch with the same username: the batch is rejected. */
  lemma RepeatedUsernameRejected(us: seq<NewUser>, i: nat, j: nat, site: Site, validEmail: string -> bool)
    requires i < j < |us| && us[i].username == us[j].username
    ensures CreateAll(us, site, validEmail).Err?
  {
    var pre := us[..j + 1];
    assert pre[..j] == us[..j];
    if CreateAll(us[..j], site, validEmail).Ok? {
      SiteAfterTakes(us[..j], site);
      assert us[..j][i] == us[i];
      assert Check(us[j], SiteAfter(us[..j], site), validEmail).Some?;
    }
    assert CreateAll(pre, site, validEmail).Err?;
    RejectionSticks(us, j + 1, site, validEmail);
  }

  /** Two users with the same address, on a site where accounts may not share one: rejected. */
  lemma RepeatedEmailRejected(us: seq<NewUser>, i: nat, j: nat, site: Site, validEmail: string -> bool)
    requires i < j < |us| && us[i].email == us[j].email && !site.allowAccountsSameEmail
    ensures CreateAll(us, site, validEmail).Err?
  {
    var pre := us[..j + 1];
    assert pre[..j] == us[..j];
    if CreateAll(us[..j], site, validEmail).Ok? {
      SiteAfterTakes(us[..j], site);
      assert us[..j][i] == us[i];
      assert Check(us[j], SiteAfter(us[..j], site), validEmail).Some?;
    }
    assert CreateAll(pre, site, validEmail).Err?;
    RejectionSticks(us, j + 1, site, validEmail);
  }

  /**
   * The loop over `$params['users']`: the checks in their order, each throwing
   * on failure, then the password rule; a created user's name and address are
   * taken for the users after it.
   */
  method CreateUsers(users: seq<NewUser>, site: Site, validEmail: string -> bool)
    returns (r: Result<seq<Prepared>, Rejection>)
    ensures r == CreateAll(users, site, validEmail)
  {
    var current := site;
    var created: seq<Prepared> := [];
    var auths := AvailableAuths(site);
    for i := 0 to |users|
      invariant current == SiteAfter(users[..i], site)
      invariant CreateAll(users[..i], site, validEmail) == Ok(created)
    {
      var u := users[i];
      var failure: Option<Rejection> := None;
      if u.username in current.usernames {
        failure := Some(UsernameExists(u.username));
      } else if EmptyEntry(auths, u.auth) {
        failure := Some(InvalidAuth(u.auth));
      } else if EmptyEntry(current.translations, u.lang) {
        failure := Some(InvalidLang(u.lang));
      } else if Given(u.theme) && EmptyEntry(current.themes, u.theme.value) {
        failure := Some(InvalidTheme(u.theme.value));
      } else if !Given(u.password) && !u.createpassword {
        failure := Some(NoPassword);
      } else if !validEmail(u.email) {
        failure := Some(InvalidEmail(u.email));
      } else if !current.allowAccountsSameEmail && u.email in current.emails {
        failure := Some(EmailExists(u.email));
      }
      assert users[..i + 1][..i] == users[..i];
      SiteAfterTakes(users[..i], site);
      if failure.Some? {
        RejectionSticks(users, i + 1, site, validEmail);
        return Err(failure.value);
      }
      var password := u.password;
      var updatepassword: bool;
      if u.createpassword {
        password := Some("");
        updatepassword := false;
      } else {
        updatepassword := true;
      }
      var p := Prepared(u.username, password, u.email, u.auth, u.lang, u.theme, true, updatepassword);
      created := created + [p];
      current := Register(current, u);
    }
    assert users[..|users|] == users;
    return Ok(created);
  }
}
