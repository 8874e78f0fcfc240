/** Users, their password hashes and login (app/models/user.server.ts). */
module UserServer {
  import opened Wrappers
  import opened Entities
  import opened Seqs
  import opened Db

  function GetUserById(db: Db, id: Id): (r: Option<User>)
    reads db
    ensures r.None? <==> forall u :: u in db.users ==> u.id != id
    ensures r.Some? ==> r.value in db.users && r.value.id == id
  {
    FindFirst(db.users, UserWithId(id))
  }

  function GetUserByEmail(db: Db, email: string): (r: Option<User>)
    reads db
    ensures r.None? <==> forall u :: u in db.users ==> u.email != email
    ensures r.Some? ==> r.value in db.users && r.value.email == email
  {
    FindFirst(db.users, UserWithEmail(email))
  }

  /** In a consistent store an email names at most one user, so looking it up finds that user. */
  lemma EmailIdentifiesUser(db: Db)
    requires db.Valid()
    ensures forall u :: u in db.users ==> GetUserByEmail(db, u.email) == Some(u)
  {
    forall u | u in db.users ensures GetUserByEmail(db, u.email) == Some(u) {
      var v := GetUserByEmail(db, u.email).value;
      var i :| 0 <= i < |db.users| && db.users[i] == u;
      var j :| 0 <= j < |db.users| && db.users[j] == v;
      assert !(i < j) && !(j < i);
    }
  }

  /** The community of each member row, in the order of the rows. */
  function CommunitiesOf(cs: seq<Community>, rows: seq<MemberRow>): (r: seq<Community>)
    requires forall m :: m in rows ==> HasCommunity(cs, m.communityId)
    ensures |r| == |rows|
    ensures forall k :: 0 <= k < |r| ==> r[k] in cs && r[k].id == rows[k].communityId
  {
    if rows == [] then []
    else
      assert rows[0] in rows;
      CommunityFound(cs, rows[0].communityId);
      [FindFirst(cs, CommunityWithId(rows[0].communityId)).value] + CommunitiesOf(cs, rows[1..])
  }

  /** The communities of a user, one per membership row and in the rows' order (so a community appears
      twice if the user has two rows in it); None when there is no such user. */
  function GetCommunitiesByUserId(db: Db, id: Id): (r: Option<seq<Community>>)
    reads db
    requires db.Valid()
    ensures r.None? <==> forall u :: u in db.users ==> u.id != id
    ensures r.Some? ==>
      var rows := Filter(db.members, MemberOfUser(id));
      && |r.value| == |rows|
      && forall k :: 0 <= k < |rows| ==> r.value[k] in db.communities && r.value[k].id == rows[k].communityId
  {
    if GetUserById(db, id).None? then None
    else
      var rows := Filter(db.members, MemberOfUser(id));
      assert forall m :: m in rows ==> m in db.members;
      Some(CommunitiesOf(db.communities, rows))
  }

  /** A user record joined with its password row, if it has one. */
  datatype UserWithPassword = UserWithPassword(user: User, password: Option<PasswordHash>)

  function GetUserWithPassword(db: Db, email: string): (r: Option<UserWithPassword>)
    reads db
    ensures r.None? <==> GetUserByEmail(db, email).None?
    ensures r.Some? ==> r.value.user == GetUserByEmail(db, email).value
    ensures r.Some? ==> (r.value.password.Some? <==> r.value.user.id in db.passwords)
    ensures r.Some? && r.value.password.Some? ==> r.value.password.value == db.passwords[r.value.user.id]
  {
    match GetUserByEmail(db, email)
    case None => None
    case Some(u) => Some(UserWithPassword(u, if u.id in db.passwords then Some(db.passwords[u.id]) else None))
  }

  /** Login: the stored user record, without its password, when a user has this email, has a password
      row, and `compare` (bcrypt's comparison) accepts the password against the stored hash;
      None in every other case. */
  function VerifyLogin(db: Db, email: string, password: string, compare: (string, PasswordHash) -> bool): (r: Option<User>)
    reads db
    requires db.Valid()
    ensures r.Some? <==> exists u :: u in db.users && u.email == email && u.id in db.passwords && compare(password, db.passwords[u.id])
    ensures r.Some? ==> r.value in db.users && r.value.email == email
  {
    EmailIdentifiesUser(db);
    var found := GetUserWithPassword(db, email);
    if found.None? || found.value.password.None? then None
    else if !compare(password, found.value.password.value) then None
    else
      assert found.value.user in db.users;
      Some(found.value.user)
  }

  /** Registers a user and stores `hash(password)` (bcrypt) in its password row; the plaintext is
      stored nowhere. A second user with a registered email is refused and changes nothing. */
  method CreateUser(db: Db, email: string, password: string, firstName: string, lastName: string,
                    postcode: string, hash: string -> PasswordHash) returns (r: Result<User, DbError>)
    requires db.Valid()
    modifies db
    ensures db.Valid()
    ensures (exists u :: u in old(db.users) && u.email == email) ==> r == Failure(UniqueViolation) && unchanged(db)
    ensures (forall u :: u in old(db.users) ==> u.email != email) ==>
      && r == Success(User(old(db.nextId), email, firstName, lastName, postcode))
      && db.users == old(db.users) + [r.value]
      && db.passwords == old(db.passwords)[r.value.id := hash(password)]
      && db.communities == old(db.communities) && db.members == old(db.members)
      && db.invites == old(db.invites) && db.tools == old(db.tools)
      && GetUserByEmail(db, email) == Some(r.value)
  {
    var hashed := hash(password);
    if GetUserByEmail(db, email).Some? {
      return Failure(UniqueViolation);
    }
    var id := db.FreshId();
    var u := User(id, email, firstName, lastName, postcode);
    AddUserConsistent(db.users, db.communities, db.members, db.invites, db.tools, id, u);
    FindFirstAppended(db.users, u, UserWithEmail(email));
    db.users := db.users + [u];
    db.passwords := db.passwords[id := hashed];
    r := Success(u);
  }

  /** Logging in right after registering succeeds exactly when bcrypt's comparison accepts the
      password against its own hash, and then yields the registered user. */
  lemma LoginAfterRegistration(db: Db, u: User, password: string, hash: string -> PasswordHash,
                               compare: (string, PasswordHash) -> bool)
    requires db.Valid() && u in db.users
    requires u.id in db.passwords && db.passwords[u.id] == hash(password)
    ensures VerifyLogin(db, u.email, password, compare) == if compare(password, hash(password)) then Some(u) else None
  {
    EmailIdentifiesUser(db);
  }

  function UserWithoutEmail(email: string): User -> bool { (u: User) => u.email != email }

  /** With distinct emails, filtering out the email of the user at `k` drops just that user, and no
      user with that email is left. */
  lemma RemovingUser(us: seq<User>, k: nat, email: string)
    requires EmailsUnique(us) && k < |us| && us[k].email == email
    ensures Filter(us, UserWithoutEmail(email)) == us[..k] + us[k + 1..]
    ensures FindFirst(us[..k] + us[k + 1..], UserWithEmail(email)).None?
  {
    var p := UserWithoutEmail(email);
    assert forall i :: 0 <= i < |us| && i != k ==> p(us[i]) by {
      forall i | 0 <= i < |us| && i != k ensures p(us[i]) {
        if i < k { assert us[i].email != us[k].email; } else { assert us[k].email != us[i].email; }
      }
    }
    FilterDropsOne(us, k, p);
  }

  /** Deletes the user with this email, keeping every other user in order; an unknown email is
      refused and changes nothing. */
  method DeleteUserByEmail(db: Db, email: string) returns (r: Result<User, DbError>)
    requires db.Valid()
    modifies db
    ensures db.Valid()
    ensures old(GetUserByEmail(db, email)).None? ==> r == Failure(RecordNotFound) && unchanged(db)
    ensures old(GetUserByEmail(db, email)).Some? ==>
      && r == Success(old(GetUserByEmail(db, email)).value)
      && db.users == Filter(old(db.users), UserWithoutEmail(email))
      && GetUserByEmail(db, email).None?
      && db.passwords == old(db.passwords) && db.communities == old(db.communities)
      && db.members == old(db.members) && db.invites == old(db.invites) && db.tools == old(db.tools)
  {
    var found := GetUserByEmail(db, email);
    if found.None? {
      return Failure(RecordNotFound);
    }
    var us := db.users;
    var k :| 0 <= k < |us| && us[k] == found.value;
    var kept := us[..k] + us[k + 1..];
    RemoveUsersConsistent(us, kept, db.communities, db.members, db.invites, db.tools, db.nextId, k);
    RemovingUser(us, k, email);
    db.users := kept;
    assert db.Valid();
    assert db.passwords == old(db.passwords) && db.communities == old(db.communities);
    assert db.members == old(db.members) && db.invites == old(db.invites) && db.tools == old(db.tools);
    r := Success(found.value);
  }
}
