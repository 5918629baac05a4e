/** `POST /api/login` (src/app/api/login/route.ts): checks an email and a
    password against the users collection. It only reads the store, and an
    unknown email and a wrong password get the same reply. */
module LoginRoute {
  import opened Common
  import UserModel

  /** The JSON body; an absent field is `None`. */
  datatype Request = Request(email: Option<string>, password: Option<string>)

  /** The user as the reply shows it: no password hash. */
  datatype Profile = Profile(id: Id, name: Option<string>, email: Option<string>, role: Option<string>)

  datatype Body = Message(message: string) | LoggedIn(message: string, user: Profile)

  datatype Reply = Reply(status: int, body: Body)

  const InvalidCredentials := Reply(401, Message("Invalid email or password"))
  const SomethingWrong := Reply(500, Message("Something went wrong"))

  /** `User.findOne({email})`: some user with that email, if there is one. */
  ghost function FindByEmail(users: map<Id, UserModel.User>, email: string): (r: Option<Id>)
    ensures r.Some? ==> r.value in users && users[r.value].email == Some(email)
    ensures r.None? <==> forall id :: id in users ==> users[id].email != Some(email)
  {
    if exists id :: id in users && users[id].email == Some(email) then
      var id :| id in users && users[id].email == Some(email);
      Some(id)
    else None
  }

  /** With the unique index on email, the user `findOne` returns is the one
      holding that email. */
  lemma FindByEmailUnique(users: map<Id, UserModel.User>, email: string, id: Id)
    requires UserModel.EmailsUnique(users)
    requires id in users && users[id].email == Some(email)
    ensures FindByEmail(users, email) == Some(id)
  {
  }

  /** The handler. `compare` stands for `bcrypt.compare(password, hash)`; a
      user document without a password makes it throw, and the reply is 500. */
  ghost function Post(req: Request, users: map<Id, UserModel.User>, compare: (string, string) -> bool): (r: Reply)
    ensures !Present(req.email) || !Present(req.password) ==> r == Reply(400, Message("Email and password are required"))
    ensures r.status in {200, 400, 401, 500}
    ensures r.status == 401 ==> r == InvalidCredentials
    ensures r.status == 500 ==> r == SomethingWrong
    ensures Present(req.email) && Present(req.password) && (forall id :: id in users ==> users[id].email != req.email)
            ==> r == InvalidCredentials
    ensures r.status == 200 ==>
      && Present(req.email) && Present(req.password) && r.body.LoggedIn?
      && var id := r.body.user.id;
      && id in users && users[id].email == req.email && users[id].password.Some?
      && compare(req.password.value, users[id].password.value)
      && r.body.user == Profile(id, users[id].name, users[id].email, users[id].role)
  {
    if !Present(req.email) || !Present(req.password) then Reply(400, Message("Email and password are required"))
    else
      match FindByEmail(users, req.email.value)
      case None => InvalidCredentials
      case Some(id) =>
        var u := users[id];
        if u.password.None? then SomethingWrong
        else if !compare(req.password.value, u.password.value) then InvalidCredentials
        else Reply(200, LoggedIn("Login successful", Profile(id, u.name, u.email, u.role)))
  }

  /** Given the unique email index, the user holding the email decides the
      outcome: a matching password logs in, a wrong one gets the very reply an
      unknown email gets. */
  lemma {:induction false} OutcomeForKnownEmail(req: Request, users: map<Id, UserModel.User>,
                                                compare: (string, string) -> bool, id: Id)
    requires UserModel.EmailsUnique(users)
    requires Present(req.email) && Present(req.password)
    requires id in users && users[id].email == req.email
    ensures users[id].password.None? ==> Post(req, users, compare) == SomethingWrong
    ensures users[id].password.Some? && compare(req.password.value, users[id].password.value)
            ==> Post(req, users, compare) == Reply(200, LoggedIn("Login successful",
                                                   Profile(id, users[id].name, users[id].email, users[id].role)))
    ensures users[id].password.Some? && !compare(req.password.value, users[id].password.value)
            ==> Post(req, users, compare) == InvalidCredentials
  {
    FindByEmailUnique(users, req.email.value, id);
  }

  /** The stored hashes reach the reply only through `compare`: two stores
      that differ only in password values the comparison cannot tell apart
      get the same reply. */
  lemma {:induction false} HashesOnlyThroughCompare(req: Request, users1: map<Id, UserModel.User>,
                                                    users2: map<Id, UserModel.User>, compare: (string, string) -> bool)
    requires UserModel.EmailsUnique(users1)
    requires users1.Keys == users2.Keys
    requires forall id :: id in users1 ==> users1[id].(password := users2[id].password) == users2[id]
    requires forall id :: id in users1 ==> users1[id].password.Some? == users2[id].password.Some?
    requires Present(req.password) ==> forall id :: id in users1 && users1[id].password.Some? ==>
               compare(req.password.value, users1[id].password.value) == compare(req.password.value, users2[id].password.value)
    ensures Post(req, users1, compare) == Post(req, users2, compare)
  {
    assert forall id :: id in users1 ==> users1[id].email == users2[id].email;
    if Present(req.email) && Present(req.password) {
      var email := req.email.value;
      if id :| id in users1 && users1[id].email == Some(email) {
        FindByEmailUnique(users1, email, id);
        assert UserModel.EmailsUnique(users2);
        FindByEmailUnique(users2, email, id);
      }
    }
  }
}
