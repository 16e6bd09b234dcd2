/** The top-level page switch of the client: which page is shown and
    whether the admin session is open, driven by the navigation bar, the
    home page's call to action, the login form and the pages' back and
    logout buttons. */
module Navigation {

  datatype Page = Home | Login | Admin | User

  datatype Nav = Nav(page: Page, isAdmin: bool)

  /** The state on first load. */
  const Initial := Nav(Home, false)

  const AdminUser := "admin"
  const AdminPassword := "123"

  /** What the user can click. A click on something the current page does
      not render has no effect. */
  datatype Event =
    | Brand                                      // the logo in the navigation bar
    | Business                                   // the business button in the navigation bar
    | Customer                                   // the customer button in the navigation bar
    | GetStarted                                 // the call to action on the home page
    | SubmitLogin(user: string, password: string)
    | LoginBack                                  // the link under the login form
    | Logout                                     // the admin page's logout button
    | UserBack                                   // the consumer page's back button

  /** The navigation bar is drawn on every page but the login page. */
  predicate NavBarShown(n: Nav) {
    n.page != Login
  }

  /** The admin page is drawn only on the admin page with the session open. */
  predicate AdminShown(n: Nav) {
    n.page == Admin && n.isAdmin
  }

  /** What the root component draws below the navigation bar. */
  datatype Screen = HomeScreen | LoginScreen | AdminScreen | UserScreen | Blank | Crashed

  /** The drawn screen with the admin page's logout icon imported. */
  function Render(n: Nav): (s: Screen)
    ensures s != Crashed
    ensures s == AdminScreen <==> AdminShown(n)
  {
    match n.page
    case Home => HomeScreen
    case Login => LoginScreen
    case User => UserScreen
    case Admin => if n.isAdmin then AdminScreen else Blank
  }

  /** The drawn screen as the code stands: the admin page's logout button
      names an icon component that is never imported, so drawing the admin
      page throws and the whole tree is unmounted. */
  function RenderAsWritten(n: Nav): (s: Screen)
    ensures s == Crashed <==> AdminShown(n)
    ensures s != Crashed ==> s == Render(n)
  {
    if AdminShown(n) then Crashed else Render(n)
  }

  /** As written, the right credentials lead straight to a crash. */
  lemma LoginCrashesAsWritten()
    ensures RenderAsWritten(Run(Initial, [Business, SubmitLogin(AdminUser, AdminPassword)])) == Crashed
  {
    assert [Business, SubmitLogin(AdminUser, AdminPassword)][..1] == [Business];
  }

  /** With the icon imported, the right credentials show the admin page. */
  lemma LoginShowsAdmin()
    ensures Render(Run(Initial, [Business, SubmitLogin(AdminUser, AdminPassword)])) == AdminScreen
  {
    assert [Business, SubmitLogin(AdminUser, AdminPassword)][..1] == [Business];
  }

  predicate RightCredentials(user: string, password: string) {
    user == AdminUser && password == AdminPassword
  }

  /** One click. */
  function Step(n: Nav, e: Event): Nav {
    match e
    case Brand => if NavBarShown(n) then n.(page := Home) else n
    case Business => if NavBarShown(n) then n.(page := Login) else n
    case Customer => if NavBarShown(n) then n.(page := User) else n
    case GetStarted => if n.page == Home then n.(page := User) else n
    case SubmitLogin(user, password) =>
      if n.page == Login && RightCredentials(user, password) then Nav(Admin, true) else n
    case LoginBack => if n.page == Login then n.(page := Home) else n
    case Logout => if Render(n) == AdminScreen then Nav(Home, false) else n
    case UserBack => if n.page == User then n.(page := Home) else n
  }

  /** The state after a run of clicks. */
  function Run(n: Nav, events: seq<Event>): Nav {
    if events == [] then n else Step(Run(n, events[..|events| - 1]), events[|events| - 1])
  }

  /** Only a login moves to the admin page, and it opens the session with it. */
  ghost predicate Consistent(n: Nav) {
    n.page == Admin ==> n.isAdmin
  }

  lemma StepKeepsConsistent(n: Nav, e: Event)
    requires Consistent(n)
    ensures Consistent(Step(n, e))
    ensures Step(n, e).page == Admin && n.page != Admin ==> e == SubmitLogin(AdminUser, AdminPassword)
    ensures Step(n, e).isAdmin && !n.isAdmin ==> e == SubmitLogin(AdminUser, AdminPassword)
  {
  }

  /** Whatever was clicked, the session is open (and so the admin page can
      be shown) only if the exact credentials were submitted at some point. */
  lemma {:induction false} AdminNeedsLogin(events: seq<Event>)
    ensures Consistent(Run(Initial, events))
    ensures Run(Initial, events).isAdmin ==>
              exists i :: 0 <= i < |events| && events[i] == SubmitLogin(AdminUser, AdminPassword)
  {
    if events != [] {
      var init := events[..|events| - 1];
      var last := events[|events| - 1];
      AdminNeedsLogin(init);
      StepKeepsConsistent(Run(Initial, init), last);
      if Run(Initial, events).isAdmin {
        if Run(Initial, init).isAdmin {
          var i :| 0 <= i < |init| && init[i] == SubmitLogin(AdminUser, AdminPassword);
          assert events[i] == init[i];
        } else {
          assert events[|events| - 1] == SubmitLogin(AdminUser, AdminPassword);
        }
      }
    }
  }

  /** Wrong credentials change nothing. */
  lemma WrongCredentialsChangeNothing(n: Nav, user: string, password: string)
    requires !RightCredentials(user, password)
    ensures Step(n, SubmitLogin(user, password)) == n
  {
  }

  /** Logging out closes the session and goes home. */
  lemma LogoutClosesSession(n: Nav)
    requires AdminShown(n)
    ensures Step(n, Logout) == Nav(Home, false)
    ensures !AdminShown(Step(n, Logout))
  {
  }

  /** The root component's state. */
  class App {
    var page: Page
    var isAdmin: bool

    constructor ()
      ensures page == Initial.page && isAdmin == Initial.isAdmin
    {
      page, isAdmin := Home, false;
    }

    function State(): Nav
      reads this
    {
      Nav(page, isAdmin)
    }

    /** Handles one click; `rejected` is the wrong-password alert. The
        browser submits the login form only with both fields filled in. */
    method Handle(e: Event) returns (rejected: bool)
      requires e.SubmitLogin? ==> e.user != "" && e.password != ""
      modifies this
      ensures State() == Step(old(State()), e)
      ensures rejected <==> old(page) == Login && e.SubmitLogin? && !RightCredentials(e.user, e.password)
    {
      rejected := false;
      match e {
        case Brand =>
          if page != Login { page := Home; }
        case Business =>
          if page != Login { page := Login; }
        case Customer =>
          if page != Login { page := User; }
        case GetStarted =>
          if page == Home { page := User; }
        case SubmitLogin(user, password) =>
          if page == Login {
            if user == AdminUser && password == AdminPassword {
              isAdmin := true;
              page := Admin;
            } else {
              rejected := true;
            }
          }
        case LoginBack =>
          if page == Login { page := Home; }
        case Logout =>
          if page == Admin && isAdmin {
            isAdmin := false;
            page := Home;
          }
        case UserBack =>
          if page == User { page := Home; }
      }
    }
  }
}
