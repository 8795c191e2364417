// The admin login store (src/store/authStore.ts): a two-state machine,
// signed out or signed in as the one configured admin. The two environment
// variables are parameters; persisting the store is not modelled.
module AuthStore {
  import opened Types

  /** The signed-in admin's profile. */
  datatype AdminUser = AdminUser(email: string, name: string)

  const DefaultAdminEmail := "admin@eggmining.com"
  const DefaultAdminPassword := "admin123"

  /** The credentials `login` accepts: each environment variable, or its default when unset or empty. */
  predicate CredentialsAccepted(email: string, password: string, envEmail: Option<string>, envPassword: Option<string>) {
    email == OrStr(envEmail, DefaultAdminEmail) && password == OrStr(envPassword, DefaultAdminPassword)
  }

  /** With neither variable set, exactly the default pair is accepted. */
  lemma DefaultCredentials(email: string, password: string)
    ensures CredentialsAccepted(email, password, None, None) <==>
      email == "admin@eggmining.com" && password == "admin123"
  {
  }

  /** An empty variable counts as unset. */
  lemma EmptyVariableFallsBack(email: string, password: string)
    ensures CredentialsAccepted(email, password, Some(""), Some("")) <==>
      CredentialsAccepted(email, password, None, None)
  {
  }

  /** The store. */
  class Store {
    var isAuthenticated: bool
    var user: Option<AdminUser>

    /** Signed in exactly when a user is recorded. */
    predicate Valid()
      reads this
    {
      isAuthenticated <==> user.Some?
    }

    constructor()
      ensures !isAuthenticated && user == None && Valid()
    {
      isAuthenticated := false;
      user := None;
    }

    /**
     * `login`: matching credentials sign in as "Admin User" under the given
     * email; anything else fails with "Invalid credentials" and changes nothing.
     */
    method Login(email: string, password: string, envEmail: Option<string>, envPassword: Option<string>)
      returns (r: Result<(), string>)
      modifies this
      ensures r.Ok? <==> CredentialsAccepted(email, password, envEmail, envPassword)
      ensures r.Ok? ==> isAuthenticated && user == Some(AdminUser(email, "Admin User"))
      ensures r.Err? ==> r.error == "Invalid credentials"
      ensures r.Err? ==> isAuthenticated == old(isAuthenticated) && user == old(user)
      ensures old(Valid()) ==> Valid()
    {
      var adminEmail := OrStr(envEmail, DefaultAdminEmail);
      var adminPassword := OrStr(envPassword, DefaultAdminPassword);
      if email == adminEmail && password == adminPassword {
        isAuthenticated := true;
        user := Some(AdminUser(email, "Admin User"));
        r := Ok(());
      } else {
        r := Err("Invalid credentials");
      }
    }

    /** `logout`: back to signed out, whatever the state was. */
    method Logout()
      modifies this
      ensures !isAuthenticated && user == None && Valid()
    {
      isAuthenticated := false;
      user := None;
    }
  }
}
