/**
 * The simulated session: sign-up and sign-in validation, the signed-in user
 * and its copy in the browser's local key-value store, logout, rehydration
 * at start-up, and the newsletter address check.
 */
module Session {
  import opened Wrappers
  import opened Text

  /** The local-storage key the session is kept under. */
  const UserKey: string := "dreamproperties_user"
  /** The shortest password sign-up and sign-in accept. */
  const MinPasswordLength: nat := 6

  /** The signed-in identity: email, display name and an opaque mock id. */
  datatype User = User(email: string, name: string, uid: string)

  // ---------------------------------------------------------------------------
  // Sign-up (`handleSignup`)

  /** The outcome of sign-up validation: success or the first rule that failed. */
  datatype SignupResult =
    | SignupOk
    | MissingField
    | PasswordMismatch
    | PasswordTooShort
    | TermsNotAccepted

  /**
   * The validation chain of `handleSignup`: the checks run in order and only
   * the first failure is reported. A form field is missing when it is empty.
   */
  function ValidateSignup(name: string, email: string, password: string, confirmPassword: string,
                          termsAccepted: bool): (r: SignupResult)
    ensures r == MissingField <==> (name == "" || email == "" || password == "" || confirmPassword == "")
    ensures r == PasswordMismatch <==>
      (name != "" && email != "" && password != "" && confirmPassword != "" && password != confirmPassword)
    ensures r == PasswordTooShort <==>
      (name != "" && email != "" && password != "" && password == confirmPassword && |password| < MinPasswordLength)
    ensures r == TermsNotAccepted <==>
      (name != "" && email != "" && password == confirmPassword && |password| >= MinPasswordLength && !termsAccepted)
    ensures r == SignupOk <==>
      (name != "" && email != "" && password == confirmPassword && |password| >= MinPasswordLength && termsAccepted)
  {
    if name == "" || email == "" || password == "" || confirmPassword == "" then MissingField
    else if password != confirmPassword then PasswordMismatch
    else if |password| < MinPasswordLength then PasswordTooShort
    else if !termsAccepted then TermsNotAccepted
    else SignupOk
  }

  /** The dialog `handleSignup` shows for each outcome. */
  function SignupMessage(r: SignupResult): (d: (string, string))
    ensures d.0 == (if r == SignupOk then "Success" else "Error")
  {
    match r
    case MissingField => ("Error", "Please fill in all required fields.")
    case PasswordMismatch => ("Error", "Passwords do not match.")
    case PasswordTooShort => ("Error", "Password must be at least 6 characters long.")
    case TermsNotAccepted => ("Error", "Please accept the Terms & Conditions.")
    case SignupOk => ("Success", "Account created successfully! Please log in to continue.")
  }

  // ---------------------------------------------------------------------------
  // Sign-in (`handleLogin`)

  /** `email && password.length >= 6`. */
  predicate SignInAccepted(email: string, password: string)
  {
    email != "" && |password| >= MinPasswordLength
  }

  /** Credentials that pass sign-up validation are accepted by sign-in. */
  lemma SignupOkSignsIn(name: string, email: string, password: string, confirmPassword: string, termsAccepted: bool)
    requires ValidateSignup(name, email, password, confirmPassword, termsAccepted) == SignupOk
    ensures SignInAccepted(email, password)
  {
  }

  /**
   * The display name: the part of the email before its first '@', first
   * character upper-cased.
   */
  function DisplayName(email: string): (r: string)
    ensures r == [] <==> email == [] || email[0] == '@'
    ensures r != [] ==>
      && r[0] == UpperChar(email[0])
      && r[1..] <= email[1..]
      && '@' !in r[1..]
      && (|r| < |email| ==> email[|r|] == '@')
  {
    Capitalize(BeforeAt(email))
  }

  /** The user `handleLogin` creates; `stamp` stands for `Date.now()`. */
  function NewUser(email: string, stamp: string): (u: User)
    ensures u.email == email && u.name == DisplayName(email)
    ensures "mock-uid-" <= u.uid && u.uid[|"mock-uid-"|..] == stamp
  {
    User(email, DisplayName(email), "mock-uid-" + stamp)
  }

  /** The newsletter form's check: `email && email.includes('@')`. */
  predicate NewsletterAccepted(email: string)
  {
    email != "" && Includes(email, "@")
  }

  /** The newsletter accepts exactly the addresses that contain an '@'. */
  lemma NewsletterAcceptsAt(email: string)
    ensures NewsletterAccepted(email) <==> '@' in email
  {
    IncludesIff(email, "@");
    if '@' in email {
      var i :| 0 <= i < |email| && email[i] == '@';
      assert OccursAt(email, "@", i);
    }
    if exists i :: OccursAt(email, "@", i) {
      var i :| OccursAt(email, "@", i);
      assert email[i] == email[i..i + 1][0];
    }
  }

  /** `JSON.stringify` and `JSON.parse` agree on users, and a stored user is never the empty string. */
  ghost predicate RoundTrips(serialize: User -> string, parse: string -> Option<User>)
  {
    forall u :: serialize(u) != "" && parse(serialize(u)) == Some(u)
  }

  // ---------------------------------------------------------------------------
  // The session state (`currentUser` and local storage)

  class SessionManager {
    /** `currentUser`: the signed-in user, or `null`. */
    var currentUser: Option<User>
    /** The browser's local storage, key to stored text. */
    var storage: map<string, string>

    /** A page load: nobody signed in yet, local storage as the browser kept it. */
    constructor (stored: map<string, string>)
      ensures currentUser == None && storage == stored
    {
      currentUser := None;
      storage := stored;
    }

    /**
     * `checkAuthState`: a non-empty stored session that parses becomes the
     * current user; one that does not parse is removed from storage and the
     * current user is left as it was.
     */
    method CheckAuthState(parse: string -> Option<User>)
      modifies this
      ensures UserKey !in old(storage) || old(storage)[UserKey] == "" ==>
        currentUser == old(currentUser) && storage == old(storage)
      ensures UserKey in old(storage) && old(storage)[UserKey] != "" ==>
        match parse(old(storage)[UserKey])
        case Some(u) => currentUser == Some(u) && storage == old(storage)
        case None => currentUser == old(currentUser) && storage == old(storage) - {UserKey}
    {
      if UserKey in storage && storage[UserKey] != "" {
        var saved := storage[UserKey];
        match parse(saved)
        case Some(u) =>
          currentUser := Some(u);
        case None =>
          storage := storage - {UserKey};
      }
    }

    /**
     * `handleLogin`: accepted credentials make a new user from the email and
     * store it; rejected ones change nothing.
     */
    method HandleLogin(email: string, password: string, stamp: string, serialize: User -> string)
      returns (accepted: bool)
      modifies this
      ensures accepted == SignInAccepted(email, password)
      ensures accepted ==>
        && currentUser == Some(NewUser(email, stamp))
        && storage == old(storage)[UserKey := serialize(NewUser(email, stamp))]
      ensures !accepted ==> currentUser == old(currentUser) && storage == old(storage)
    {
      if email != "" && |password| >= MinPasswordLength {
        var user := User(email, Capitalize(BeforeAt(email)), "mock-uid-" + stamp);
        currentUser := Some(user);
        storage := storage[UserKey := serialize(user)];
        accepted := true;
      } else {
        accepted := false;
      }
    }

    /**
     * `handleSignup`: the first failing check, or success, and the dialog
     * shown for it. Without a `modifies` clause it leaves the current user
     * and local storage as they were, even on success: signing up never
     * signs anybody in.
     */
    method HandleSignup(name: string, email: string, password: string, confirmPassword: string,
                        termsAccepted: bool)
      returns (r: SignupResult, dialog: (string, string))
      ensures r == ValidateSignup(name, email, password, confirmPassword, termsAccepted)
      ensures dialog == SignupMessage(r)
      ensures dialog.0 == "Success" <==> r == SignupOk
    {
      if name == "" || email == "" || password == "" || confirmPassword == "" {
        r := MissingField;
      } else if password != confirmPassword {
        r := PasswordMismatch;
      } else if |password| < MinPasswordLength {
        r := PasswordTooShort;
      } else if !termsAccepted {
        r := TermsNotAccepted;
      } else {
        r := SignupOk;
      }
      dialog := SignupMessage(r);
    }

    /** `logout`: nobody is signed in and the stored copy is gone. */
    method Logout()
      modifies this
      ensures currentUser == None
      ensures storage == old(storage) - {UserKey}
    {
      currentUser := None;
      storage := storage - {UserKey};
    }
  }

  /** After a successful sign-in and a reload, the rehydrated session is the user who signed in. */
  method LoginSurvivesReload(stored: map<string, string>, email: string, password: string, stamp: string,
                             serialize: User -> string, parse: string -> Option<User>)
    returns (restored: Option<User>)
    requires SignInAccepted(email, password)
    requires RoundTrips(serialize, parse)
    ensures restored == Some(User(email, DisplayName(email), "mock-uid-" + stamp))
  {
    var before := new SessionManager(stored);
    var accepted := before.HandleLogin(email, password, stamp, serialize);
    var after := new SessionManager(before.storage);
    after.CheckAuthState(parse);
    restored := after.currentUser;
  }

  /** After logout and a reload, nobody is signed in. */
  method LogoutSurvivesReload(stored: map<string, string>, parse: string -> Option<User>)
    returns (restored: Option<User>, kept: map<string, string>)
    ensures restored == None && UserKey !in kept
  {
    var before := new SessionManager(stored);
    before.Logout();
    var after := new SessionManager(before.storage);
    after.CheckAuthState(parse);
    restored, kept := after.currentUser, after.storage;
  }
}
