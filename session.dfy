/**
 * The session state behind the pages before the main app: whether the user is signed in
 * and under which name, the page to show, and how far onboarding has got. Each method is
 * one button of one page.
 */
module Session {
  import opened Wrappers
  import opened Users
  import opened Navigation

  /** The onboarding screens: what it is, how it works, why you will love it. */
  const OnboardingStepCount := 3

  class AppSession {
    var authenticated: bool
    var username: string
    var currentPage: string
    var onboardingStep: int
    var onboardingComplete: bool

    ghost predicate Valid()
      reads this
    {
      0 <= onboardingStep < OnboardingStepCount
    }

    /** The page `main` shows. */
    function CurrentView(): Page
      reads this
    {
      Route(currentPage)
    }

    /** A new session: signed out, on the splash page, at the first onboarding step. */
    constructor ()
      ensures Valid() && CurrentView() == Splash
      ensures !authenticated && username == "" && currentPage == "splash"
      ensures onboardingStep == 0 && !onboardingComplete
    {
      authenticated := false;
      username := "";
      onboardingComplete := false;
      onboardingStep := 0;
      currentPage := "splash";
    }

    /** The dots under the onboarding screen: one per step, the current one active. */
    method OnboardingDots() returns (html: string)
      requires Valid()
      ensures html == DotsOpen + RenderDots(DotFlags(onboardingStep, OnboardingStepCount)) + DotsClose
      ensures CountActive(DotFlags(onboardingStep, OnboardingStepCount)) == 1
    {
      html := DotsIndicator(onboardingStep, OnboardingStepCount);
      OneActiveDot(onboardingStep, OnboardingStepCount);
    }

    /** "Get Started" on the splash page. */
    method GetStarted()
      requires Valid() && CurrentView() == Splash
      modifies this
      ensures Valid() && CurrentView() == Onboarding && currentPage == "onboarding"
      ensures authenticated == old(authenticated) && username == old(username)
      ensures onboardingStep == old(onboardingStep) && onboardingComplete == old(onboardingComplete)
    {
      currentPage := "onboarding";
    }

    /**
     * "Continue" on an onboarding screen, "Get Started" on the last one: the next screen,
     * or after the last one onboarding is complete and the welcome page follows.
     */
    method OnboardingContinue()
      requires Valid() && CurrentView() == Onboarding
      modifies this
      ensures Valid()
      ensures old(onboardingStep) < OnboardingStepCount - 1 ==>
        onboardingStep == old(onboardingStep) + 1 && CurrentView() == Onboarding
        && currentPage == old(currentPage) && onboardingComplete == old(onboardingComplete)
      ensures old(onboardingStep) == OnboardingStepCount - 1 ==>
        onboardingStep == old(onboardingStep) && onboardingComplete
        && currentPage == "welcome" && CurrentView() == Welcome
      ensures authenticated == old(authenticated) && username == old(username)
    {
      if onboardingStep < OnboardingStepCount - 1 {
        onboardingStep := onboardingStep + 1;
      } else {
        onboardingComplete := true;
        currentPage := "welcome";
      }
    }

    /** "Skip": onboarding is complete at once, whatever the step. */
    method OnboardingSkip()
      requires Valid() && CurrentView() == Onboarding
      modifies this
      ensures Valid() && onboardingComplete && currentPage == "welcome" && CurrentView() == Welcome
      ensures onboardingStep == old(onboardingStep)
      ensures authenticated == old(authenticated) && username == old(username)
    {
      onboardingComplete := true;
      currentPage := "welcome";
    }

    /**
     * The links between the welcome, log-in and sign-up pages: "Sign Up" and "Log In" on
     * the welcome page, "Create Account" on the log-in page and "Log In" on the sign-up page.
     */
    method FollowLink(target: Page)
      requires Valid()
      requires || (CurrentView() == Welcome && (target == Signup || target == Login))
               || (CurrentView() == Login && target == Signup)
               || (CurrentView() == Signup && target == Login)
      modifies this
      ensures Valid() && currentPage == PageName(target) && CurrentView() == target
      ensures authenticated == old(authenticated) && username == old(username)
      ensures onboardingStep == old(onboardingStep) && onboardingComplete == old(onboardingComplete)
    {
      currentPage := PageName(target);
      RouteByName(target, currentPage);
    }

    /**
     * "Sign Up": the form checks in their order, then the insert. A new account signs the
     * user in under "first last" and asks for a nickname; any problem is reported and
     * changes nothing.
     */
    method SignUp(store: UserStore, first: string, last: string, email: string, password: string, confirm: string,
                  hash: string -> string) returns (notice: Option<Notice>)
      requires Valid() && CurrentView() == Signup
      modifies this, store
      ensures Valid()
      ensures SignupProblem(first, last, email, password, confirm).Some? ==>
        notice == SignupProblem(first, last, email, password, confirm)
      ensures SignupProblem(first, last, email, password, confirm).None? ==>
        notice == if email in old(store.rows) then Some(Error(EmailTaken)) else None
      ensures notice.None? ==>
        && store.rows == old(store.rows)[email := UserRow(FullName(first, last), hash(password))]
        && authenticated && username == FullName(first, last)
        && currentPage == "name_prompt" && CurrentView() == NamePrompt
      ensures notice.Some? ==> (store.rows == old(store.rows)
        && authenticated == old(authenticated) && username == old(username) && currentPage == old(currentPage))
      ensures onboardingStep == old(onboardingStep) && onboardingComplete == old(onboardingComplete)
    {
      notice := SignupProblem(first, last, email, password, confirm);
      if notice.None? {
        var added := store.AddUser(email, FullName(first, last), hash(password));
        if added {
          authenticated := true;
          username := FullName(first, last);
          currentPage := "name_prompt";
        } else {
          notice := Some(Error(EmailTaken));
        }
      }
    }

    /** "Log In": a known e-mail with the right password signs in under the stored name. */
    method LogIn(store: UserStore, email: string, password: string, hash: string -> string) returns (notice: Option<Notice>)
      requires Valid() && CurrentView() == Login
      modifies this
      ensures Valid()
      ensures notice == LoginProblem(store.rows, email, password, hash)
      ensures notice.None? ==> (authenticated && username == store.rows[email].name
        && currentPage == "app" && CurrentView() == MainApp)
      ensures notice.Some? ==>
        authenticated == old(authenticated) && username == old(username) && currentPage == old(currentPage)
      ensures onboardingStep == old(onboardingStep) && onboardingComplete == old(onboardingComplete)
    {
      notice := LoginProblem(store.rows, email, password, hash);
      if email != "" && password != "" {
        var user := store.GetUser(email);
        if user.Some? && user.value.passwordHash == hash(password) {
          authenticated := true;
          username := user.value.name;
          currentPage := "app";
        }
      }
    }

    /** "Continue" on the nickname page: a nickname, if given, replaces the name; then the app. */
    method NameContinue(nickname: string)
      requires Valid() && CurrentView() == NamePrompt
      modifies this
      ensures Valid() && currentPage == "app" && CurrentView() == MainApp
      ensures username == if nickname != "" then nickname else old(username)
      ensures authenticated == old(authenticated)
      ensures onboardingStep == old(onboardingStep) && onboardingComplete == old(onboardingComplete)
    {
      if nickname != "" {
        username := nickname;
      }
      currentPage := "app";
    }

    /** "Logout": signed out and back to the splash page; onboarding progress is kept. */
    method Logout()
      requires Valid() && CurrentView() == MainApp
      modifies this
      ensures Valid() && !authenticated && username == "" && currentPage == "splash" && CurrentView() == Splash
      ensures onboardingStep == old(onboardingStep) && onboardingComplete == old(onboardingComplete)
    {
      authenticated := false;
      username := "";
      currentPage := "splash";
    }
  }

  /**
   * Signing up and then logging in with the same e-mail and password succeeds and shows
   * the app under the name the account was created with.
   */
  method SignUpThenLogIn(store: UserStore, first: string, last: string, email: string, password: string,
                         hash: string -> string) returns (signupNotice: Option<Notice>, loginNotice: Option<Notice>, name: string)
    requires email !in store.rows
    requires SignupProblem(first, last, email, password, password).None?
    modifies store
    ensures signupNotice.None? && loginNotice.None? && name == FullName(first, last)
  {
    var s := new AppSession();
    s.GetStarted();
    s.OnboardingSkip();
    s.FollowLink(Signup);
    signupNotice := s.SignUp(store, first, last, email, password, password, hash);
    ghost var rows := store.rows;
    SignedUpCanLogIn(old(store.rows), first, last, email, password, password, hash);
    assert LoginProblem(rows, email, password, hash).None? && rows[email].name == FullName(first, last);
    s.NameContinue("");
    s.Logout();
    s.GetStarted();
    s.OnboardingSkip();
    s.FollowLink(Login);
    assert store.rows == rows;
    loginNotice := s.LogIn(store, email, password, hash);
    name := s.username;
  }
}
