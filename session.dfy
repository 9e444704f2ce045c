/** The admin session gate: one browser-storage entry, `adminLoggedIn`, that
    holds the string "true" after a successful login and is absent otherwise,
    and the login page that sets it by comparing against a fixed pair. */
module Session {
  import opened Entities

  const AdminUsername: string := "admin"
  const AdminPassword: string := "admin123"
  const LoggedInValue: string := "true"
  const InvalidCredentials: string := "Invalid username or password"

  /** Where a page sends the browser. */
  datatype Route = ToAdminLogin | ToAdmin

  /** The browser storage, reduced to the one entry the portal uses. */
  class LocalStorage {
    var adminLoggedIn: Option<string>

    constructor (flag: Option<string>)
      ensures adminLoggedIn == flag
    {
      adminLoggedIn := flag;
    }
  }

  /** The entry reads as logged in only when it holds exactly "true": an
      absent entry, or one holding anything else, is logged out. */
  predicate IsLoggedIn(flag: Option<string>)
  {
    flag == Some(LoggedInValue)
  }

  /** The credential test: plain equality with the fixed pair, so exactly
      one pair of strings passes it. */
  predicate CredentialsMatch(username: string, password: string)
  {
    username == AdminUsername && password == AdminPassword
  }

  /** The login page's own state. */
  class AdminLoginForm {
    var username: string
    var password: string
    var error: string
    var isLoading: bool

    constructor ()
      ensures username == "" && password == "" && error == "" && !isLoading
    {
      username, password, error, isLoading := "", "", "", false;
    }

    /** On mount: an already logged-in visitor is sent to the dashboard. */
    method Mount(storage: LocalStorage) returns (route: Option<Route>)
      ensures route == Some(ToAdmin) <==> IsLoggedIn(storage.adminLoggedIn)
      ensures route == None <==> !IsLoggedIn(storage.adminLoggedIn)
    {
      if storage.adminLoggedIn == Some(LoggedInValue) {
        route := Some(ToAdmin);
      } else {
        route := None;
      }
    }

    method SetUsername(v: string)
      modifies this
      ensures username == v
      ensures password == old(password) && error == old(error) && isLoading == old(isLoading)
    {
      username := v;
    }

    method SetPassword(v: string)
      modifies this
      ensures password == v
      ensures username == old(username) && error == old(error) && isLoading == old(isLoading)
    {
      password := v;
    }

    /** The synchronous start of a submit: clear the error, show loading, and
        capture the pair as typed at this moment; the delayed check uses the
        captured pair, not whatever the fields hold when it runs. */
    method BeginSubmit() returns (submittedUser: string, submittedPass: string)
      modifies this
      ensures error == "" && isLoading
      ensures username == old(username) && password == old(password)
      ensures submittedUser == username && submittedPass == password
    {
      error := "";
      isLoading := true;
      submittedUser, submittedPass := username, password;
    }

    /** The delayed part of a submit, run on the pair captured when the submit
        began: on a match set the storage entry and go to the dashboard;
        otherwise report the error, stop loading and leave the storage entry
        as it was. Edits to the fields in between do not matter. */
    method CompleteSubmit(storage: LocalStorage, submittedUser: string, submittedPass: string)
      returns (route: Option<Route>)
      modifies this, storage
      ensures username == old(username) && password == old(password)
      ensures CredentialsMatch(submittedUser, submittedPass) ==>
        && IsLoggedIn(storage.adminLoggedIn)
        && route == Some(ToAdmin)
        && error == old(error) && isLoading == old(isLoading)
      ensures !CredentialsMatch(submittedUser, submittedPass) ==>
        && storage.adminLoggedIn == old(storage.adminLoggedIn)
        && route == None
        && error == InvalidCredentials && !isLoading
    {
      if submittedUser == AdminUsername && submittedPass == AdminPassword {
        storage.adminLoggedIn := Some(LoggedInValue);
        route := Some(ToAdmin);
      } else {
        error := InvalidCredentials;
        isLoading := false;
        route := None;
      }
    }

    /** A whole submit, with the delay between its two halves left out. */
    method HandleSubmit(storage: LocalStorage) returns (route: Option<Route>)
      modifies this, storage
      ensures username == old(username) && password == old(password)
      ensures route == Some(ToAdmin) <==> CredentialsMatch(username, password)
      ensures CredentialsMatch(username, password) ==>
        IsLoggedIn(storage.adminLoggedIn) && error == "" && isLoading
      ensures !CredentialsMatch(username, password) ==>
        && route == None
        && storage.adminLoggedIn == old(storage.adminLoggedIn)
        && error == InvalidCredentials && !isLoading
    {
      var u, p := BeginSubmit();
      route := CompleteSubmit(storage, u, p);
    }
  }

  /** The dashboard's guard on mount: back to the login page unless the entry
      holds exactly "true". */
  method DashboardGuard(storage: LocalStorage) returns (route: Option<Route>)
    ensures route == Some(ToAdminLogin) <==> !IsLoggedIn(storage.adminLoggedIn)
    ensures route == None <==> IsLoggedIn(storage.adminLoggedIn)
  {
    if storage.adminLoggedIn != Some(LoggedInValue) {
      route := Some(ToAdminLogin);
    } else {
      route := None;
    }
  }

  /** The dashboard's logout: remove the entry and go to the login page. */
  method Logout(storage: LocalStorage) returns (route: Route)
    modifies storage
    ensures storage.adminLoggedIn == None && !IsLoggedIn(storage.adminLoggedIn)
    ensures route == ToAdminLogin
  {
    storage.adminLoggedIn := None;
    route := ToAdminLogin;
  }

  /** After logout the dashboard guard sends the visitor back to the login
      page, and after a successful login it lets the visitor in. */
  method LoginLogoutRoundTrip(storage: LocalStorage, form: AdminLoginForm) returns (before: Option<Route>, after: Option<Route>)
    modifies storage, form
    ensures CredentialsMatch(form.username, form.password) ==> before == None
    ensures !CredentialsMatch(form.username, form.password) ==> before == old(
      if IsLoggedIn(storage.adminLoggedIn) then None else Some(ToAdminLogin))
    ensures after == Some(ToAdminLogin)
  {
    var _ := form.HandleSubmit(storage);
    before := DashboardGuard(storage);
    var _ := Logout(storage);
    after := DashboardGuard(storage);
  }
}
