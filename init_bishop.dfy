/** `initBishop` (src/lib/initBishop.ts): seeds the bishop account from two
    environment values, inserting it only when no user has that email. */
module InitBishop {
  import opened Common
  import UserModel
  import Database

  /** `BISHOP_EMAIL` and `BISHOP_PASSWORD`; an unset variable is `None`. */
  datatype Env = Env(email: Option<string>, password: Option<string>)

  datatype Outcome =
    | MissingEnv
    | AlreadyPresent
    | Created
    | CreateFailed(reason: SaveResult)

  /** The account `User.create` is given: `hash` stands for `bcrypt.hash`. */
  function BishopUser(email: string, hashed: string): UserModel.User {
    UserModel.User(Some("Bishop"), Some(email), Some(hashed), Some("bishop"), None)
  }

  /** What one run does to the users collection: the outcome and the new
      collection. `newId` is the `_id` a created user receives. */
  function Seed(env: Env, users: map<Id, UserModel.User>, hash: string -> string, newId: Id)
    : (r: (Outcome, map<Id, UserModel.User>))
    ensures !Present(env.email) || !Present(env.password) ==> r == (MissingEnv, users)
    ensures r.0 == MissingEnv <==> !Present(env.email) || !Present(env.password)
    ensures Present(env.email) && Present(env.password) && !UserModel.EmailTaken(users, env.email) ==>
      var o := UserModel.InsertOutcome(users, newId, BishopUser(env.email.value, hash(env.password.value)));
      r.0 == (if o.Saved? then Created else CreateFailed(o))
    ensures r.0 != Created ==> r.1 == users
    ensures r.0 == AlreadyPresent <==>
      Present(env.email) && Present(env.password) && UserModel.EmailTaken(users, env.email)
    ensures r.0 == Created ==>
      && Present(env.email) && Present(env.password)
      && newId !in users && !UserModel.EmailTaken(users, env.email)
      && r.1 == users[newId := BishopUser(env.email.value, hash(env.password.value))]
  {
    if !Present(env.email) || !Present(env.password) then (MissingEnv, users)
    else if UserModel.EmailTaken(users, env.email) then (AlreadyPresent, users)
    else
      var u := BishopUser(env.email.value, hash(env.password.value));
      var o := UserModel.InsertOutcome(users, newId, u);
      if o.Saved? then (Created, users[newId := u]) else (CreateFailed(o), users)
  }

  /** The seeding step run against the store. */
  method Run(store: Database.Store, env: Env, hash: string -> string, newId: Id) returns (outcome: Outcome)
    requires store.Valid()
    modifies store
    ensures store.Valid()
    ensures (outcome, store.users) == Seed(env, old(store.users), hash, newId)
    ensures store.State() == old(store.State()).(users := store.users)
  {
    if !Present(env.email) || !Present(env.password) {
      return MissingEnv;
    }
    if UserModel.EmailTaken(store.users, env.email) {
      return AlreadyPresent;
    }
    var saved := store.InsertUser(newId, BishopUser(env.email.value, hash(env.password.value)));
    if saved.Saved? {
      outcome := Created;
    } else {
      outcome := CreateFailed(saved);
    }
  }

  /** A run that did not fail leaves a store on which a second run with the
      same environment changes nothing, whatever id it would use. */
  lemma {:induction false} Idempotent(env: Env, users: map<Id, UserModel.User>, hash: string -> string,
                                      id1: Id, id2: Id)
    requires !Seed(env, users, hash, id1).0.CreateFailed?
    ensures var after := Seed(env, users, hash, id1).1;
            Seed(env, after, hash, id2) == (if Present(env.email) && Present(env.password) then AlreadyPresent else MissingEnv, after)
  {
    var after := Seed(env, users, hash, id1).1;
    if Present(env.email) && Present(env.password) {
      if Seed(env, users, hash, id1).0 == Created {
        assert after[id1].email == env.email;
      } else {
        var id :| id in users && users[id].email == env.email;
        assert id in after && after[id].email == env.email;
      }
    }
  }

  /** A created bishop is a valid user document and keeps emails unique. */
  lemma CreatedBishopValid(env: Env, users: map<Id, UserModel.User>, hash: string -> string, newId: Id)
    requires UserModel.EmailsUnique(users)
    requires Seed(env, users, hash, newId).0 == Created
    ensures var after := Seed(env, users, hash, newId).1;
            && UserModel.SchemaValid(after[newId]) && after[newId].role == Some("bishop")
            && UserModel.EmailsUnique(after)
  {
  }
}
