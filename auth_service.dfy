/** The mock authentication service (services/auth.ts): the outcome of each call, without the
    delay that wraps it. */
module AuthService {
  import opened JsValues
  import opened Types

  /** How the returned promise settles. */
  datatype Settled<T> = Resolved(value: T) | Rejected(error: string)

  /** The avatar of the demo account. */
  const DemoAvatar: string :=
    "https://images.unsplash.com/photo-1472099645785-5658abf4ff4e?ixlib=rb-1.2.1&auto=format&fit=facearea&facepad=2&w=256&h=256&q=80"

  /** `login(email, password)`: succeeds exactly when both fields are non-empty, with the demo user
      under the given email; otherwise rejects with "Giriş başarısız". */
  function Login(email: string, password: string): (r: Settled<User>)
    ensures r.Resolved? <==> email != "" && password != ""
    ensures r.Resolved? ==>
      && r.value.id == "u1" && r.value.name == "Mert Yılmaz" && r.value.email == email
      && r.value.avatar == Some(DemoAvatar) && r.value.stats == UserStats(12, 5, 8)
    ensures r.Rejected? ==> r.error == "Giriş başarısız"
  {
    if email != "" && password != "" then
      Resolved(User("u1", "Mert Yılmaz", email, Some(DemoAvatar), UserStats(12, 5, 8)))
    else
      Rejected("Giriş başarısız")
  }

  /** `signup(name, email, password)`: always succeeds with a new user under the given name and
      email, no avatar, and all counters at zero. */
  function Signup(name: string, email: string, password: string): (r: Settled<User>)
    ensures r.Resolved?
    ensures r.value.id == "u2" && r.value.name == name && r.value.email == email
    ensures r.value.avatar.None? && r.value.stats == UserStats(0, 0, 0)
  {
    Resolved(User("u2", name, email, None, UserStats(0, 0, 0)))
  }

  /** The password only matters through being empty or not: two non-empty passwords log in the
      same user, and the signup ignores it altogether. */
  lemma PasswordIsOnlyChecked(email: string, name: string, p1: string, p2: string)
    requires p1 != "" && p2 != ""
    ensures Login(email, p1) == Login(email, p2)
    ensures Signup(name, email, p1) == Signup(name, email, p2) == Signup(name, email, "")
  {
  }

  /** Logging in and signing up never yield the same account: the ids differ. */
  lemma LoginAndSignupUsersDiffer(email: string, password: string, name: string, email2: string, password2: string)
    requires Login(email, password).Resolved?
    ensures Login(email, password).value.id != Signup(name, email2, password2).value.id
  {
  }
}
