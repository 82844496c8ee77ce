/** The sign-in form: its guard sequence (email and password, then the name
    when registering), what it hands to the store's demo `login` and
    `register`, the error it shows for each outcome, and the mode toggle. */
module Login {
  import opened Wrappers
  import opened JsText
  import opened ProjectStore

  const ProvideCredentials := "Please provide email and password"
  const ProvideName := "Please provide a name for registration"
  const RegistrationFailed := "Registration failed \U{2014} email might already be used"
  const InvalidCredentials := "Invalid credentials"
  const AuthFailed := "Auth failed"

  /** Both required fields hold something other than white space. */
  predicate Filled(email: string, password: string) {
    !IsBlank(email) && !IsBlank(password)
  }

  /** What the form sends: the trimmed email and, when registering, the
      trimmed name; the password exactly as typed. */
  function RegisteredUser(email: string, name: string, password: string, now: nat): StoredUser {
    StoredUser("user-" + DecimalString(now), Trim(email), Trim(name), password)
  }

  /** A user registered through the form signs in through the form with
      the same password and the same email up to surrounding white space;
      the password must match exactly, spaces included. */
  lemma {:induction false} FormRegisterThenLogin(users: seq<StoredUser>, registeredAs: string, typed: string,
                              name: string, password: string, now: nat)
    requires Trim(registeredAs) == Trim(typed)
    ensures FindUser(users + [RegisteredUser(registeredAs, name, password, now)], Trim(typed), password).Some?
    ensures FindUser(users + [RegisteredUser(registeredAs, name, password, now)], Trim(typed), password + " ")
            == FindUser(users, Trim(typed), password + " ")
  {
    var u := RegisteredUser(registeredAs, name, password, now);
    RegisterThenLogin(users, u.email, u.name, u.password, u.id);
    FindUserAppendMiss(users, u, Trim(typed), password + " ");
  }

  /** Appending a user whose password differs leaves `find` unchanged. */
  lemma {:induction false} FindUserAppendMiss(users: seq<StoredUser>, u: StoredUser, email: string, password: string)
    requires u.password != password
    ensures FindUser(users + [u], email, password) == FindUser(users, email, password)
  {
    if users == [] {
      assert [u][1..] == [];
    } else {
      assert (users + [u])[1..] == users[1..] + [u];
      FindUserAppendMiss(users[1..], u, email, password);
    }
  }

  class LoginForm {
    var email: string
    var name: string
    var password: string
    var isRegister: bool
    var loading: bool
    var error: string

    constructor ()
      ensures email == [] && name == [] && password == [] && !isRegister && !loading && error == []
    {
      email := [];
      name := [];
      password := [];
      isRegister := false;
      loading := false;
      error := [];
    }

    /** The mode link: switches between signing in and registering and
        clears the error. */
    method ToggleMode()
      modifies this
      ensures isRegister == !old(isRegister) && error == []
      ensures email == old(email) && name == old(name) && password == old(password) && loading == old(loading)
    {
      isRegister := !isRegister;
      error := [];
    }

    /** `handleSubmit`. `rejected` says that the awaited store call threw
        before it changed anything. */
    method Submit(store: Store, now: nat, rejected: bool)
      modifies this, store
      ensures email == old(email) && name == old(name) && password == old(password) && isRegister == old(isRegister)
      ensures !Filled(email, password) ==>
                error == ProvideCredentials && loading == old(loading) && unchanged(store)
      ensures Filled(email, password) ==> !loading
      ensures Filled(email, password) && isRegister && IsBlank(name) ==>
                error == ProvideName && unchanged(store)
      ensures Filled(email, password) && (!isRegister || !IsBlank(name)) && rejected ==>
                error == AuthFailed && unchanged(store)
      ensures Filled(email, password) && isRegister && !IsBlank(name) && !rejected ==>
                && (error == [] <==> !EmailTaken(old(store.users), Trim(email)))
                && (error != [] ==> error == RegistrationFailed && store.users == old(store.users)
                                    && store.isAuthenticated == old(store.isAuthenticated) && store.user == old(store.user))
                && (error == [] ==> store.users == old(store.users) + [RegisteredUser(email, name, password, now)]
                                    && store.isAuthenticated
                                    && store.user == Some(AuthUser("user-" + DecimalString(now), Trim(name), Trim(email))))
      ensures Filled(email, password) && !isRegister && !rejected ==>
                && (error == [] <==> FindUser(old(store.users), Trim(email), password).Some?)
                && (error != [] ==> error == InvalidCredentials && store.isAuthenticated == old(store.isAuthenticated)
                                    && store.user == old(store.user))
                && (error == [] ==> store.isAuthenticated && FindUser(old(store.users), Trim(email), password).Some?
                                    && store.user == Some(AuthUser(FindUser(old(store.users), Trim(email), password).value.id,
                                                                   FindUser(old(store.users), Trim(email), password).value.name,
                                                                   Trim(email))))
                && store.users == old(store.users)
      ensures store.currentProject == old(store.currentProject) && store.editorState == old(store.editorState)
    {
      error := [];
      TrimEmptyIffBlank(email);
      TrimEmptyIffBlank(password);
      TrimEmptyIffBlank(name);
      if Trim(email) == [] || Trim(password) == [] {
        error := ProvideCredentials;
        return;
      }
      loading := true;
      if isRegister {
        if Trim(name) == [] {
          error := ProvideName;
          loading := false;
          return;
        }
        if rejected {
          error := AuthFailed;
        } else {
          SignUp(store, now);
        }
      } else if rejected {
        error := AuthFailed;
      } else {
        SignIn(store);
      }
      loading := false;
    }

    /** The register branch once the guards have passed: the store's
        `register` with the trimmed email and name, and its error. */
    method SignUp(store: Store, now: nat)
      modifies this, store
      ensures email == old(email) && name == old(name) && password == old(password)
      ensures isRegister == old(isRegister) && loading == old(loading)
      ensures error == [] <==> !EmailTaken(old(store.users), Trim(email))
      ensures error != [] ==> error == RegistrationFailed && store.users == old(store.users)
                              && store.isAuthenticated == old(store.isAuthenticated) && store.user == old(store.user)
      ensures error == [] ==> store.users == old(store.users) + [RegisteredUser(email, name, password, now)]
                              && store.isAuthenticated
                              && store.user == Some(AuthUser("user-" + DecimalString(now), Trim(name), Trim(email)))
      ensures store.currentProject == old(store.currentProject) && store.editorState == old(store.editorState)
    {
      ghost var u := RegisteredUser(email, name, password, now);
      var ok := store.Register(Trim(email), Trim(name), password, now);
      assert ok ==> store.users == old(store.users) + [u];
      if ok {
        error := [];
      } else {
        error := RegistrationFailed;
      }
    }

    /** The sign-in branch once the guards have passed: the store's `login`
        with the trimmed email, and its error. */
    method SignIn(store: Store)
      modifies this, store
      ensures email == old(email) && name == old(name) && password == old(password)
      ensures isRegister == old(isRegister) && loading == old(loading)
      ensures error == [] <==> FindUser(old(store.users), Trim(email), password).Some?
      ensures error != [] ==> error == InvalidCredentials && store.isAuthenticated == old(store.isAuthenticated)
                              && store.user == old(store.user)
      ensures error == [] ==> store.isAuthenticated && FindUser(old(store.users), Trim(email), password).Some?
                              && store.user == Some(AuthUser(FindUser(old(store.users), Trim(email), password).value.id,
                                                             FindUser(old(store.users), Trim(email), password).value.name,
                                                             Trim(email)))
      ensures store.users == old(store.users)
      ensures store.currentProject == old(store.currentProject) && store.editorState == old(store.editorState)
    {
      FindUserSpec(store.users, Trim(email), password);
      var ok := store.Login(Trim(email), password);
      if ok {
        error := [];
      } else {
        error := InvalidCredentials;
      }
    }
  }
}
