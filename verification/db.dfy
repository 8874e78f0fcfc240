/** The relational store behind the ORM client, as in-memory tables. */
module Db {
  import opened Entities
  import opened Seqs

  /** Why the ORM refuses a mutation: a `connect`/`update`/`delete` target that does not exist,
      or a second user with an email that is already registered. */
  datatype DbError = RecordNotFound | UniqueViolation

  // The `where` clauses the queries use, named so that every query states the same condition.

  function UserWithId(id: Id): User -> bool { (u: User) => u.id == id }
  function UserWithEmail(email: string): User -> bool { (u: User) => u.email == email }
  function CommunityWithId(id: Id): Community -> bool { (c: Community) => c.id == id }
  function MemberOfCommunity(communityId: Id): MemberRow -> bool { (m: MemberRow) => m.communityId == communityId }
  function MemberOfUser(userId: Id): MemberRow -> bool { (m: MemberRow) => m.userId == userId }
  function InviteWithId(id: Id): Invitation -> bool { (i: Invitation) => i.id == id }
  function InviteOfCommunity(communityId: Id): Invitation -> bool { (i: Invitation) => i.communityId == communityId }
  function InviteForEmail(email: string): Invitation -> bool { (i: Invitation) => i.userEmail == email }
  function ToolWithId(id: Id): Tool -> bool { (t: Tool) => t.id == id }
  function ToolOfUser(userId: Id): Tool -> bool { (t: Tool) => t.userId == userId }

  ghost predicate HasCommunity(cs: seq<Community>, id: Id) {
    exists c :: c in cs && c.id == id
  }

  /** A community that exists is found by its id. */
  lemma CommunityFound(cs: seq<Community>, id: Id)
    requires HasCommunity(cs, id)
    ensures FindFirst(cs, CommunityWithId(id)).Some?
  {
    var c :| c in cs && c.id == id;
    assert CommunityWithId(id)(c);
  }

  ghost predicate HasAdmin(ms: seq<MemberRow>, communityId: Id) {
    exists m :: m in ms && m.communityId == communityId && m.permission == Admin
  }

  ghost predicate IdsBelow(us: seq<User>, cs: seq<Community>, vs: seq<Invitation>, ts: seq<Tool>, n: Id) {
    && (forall u :: u in us ==> u.id < n)
    && (forall c :: c in cs ==> c.id < n)
    && (forall i :: i in vs ==> i.id < n)
    && (forall t :: t in ts ==> t.id < n)
  }

  /** No two invitations share an id: the ORM's primary key, which answering an invitation updates by. */
  ghost predicate InviteIdsDistinct(vs: seq<Invitation>) {
    forall i, j :: 0 <= i < j < |vs| ==> vs[i].id != vs[j].id
  }

  ghost predicate EmailsUnique(us: seq<User>) {
    forall i, j :: 0 <= i < j < |us| ==> us[i].email != us[j].email
  }

  /** Every invitation and member row refers to an existing community, and every community has an Admin row. */
  ghost predicate CommunitiesLinked(cs: seq<Community>, ms: seq<MemberRow>, vs: seq<Invitation>) {
    && (forall i :: i in vs ==> HasCommunity(cs, i.communityId))
    && (forall m :: m in ms ==> HasCommunity(cs, m.communityId))
    && (forall c :: c in cs ==> HasAdmin(ms, c.id))
  }

  /** The store's integrity, stated over its tables. */
  ghost predicate Consistent(us: seq<User>, cs: seq<Community>, ms: seq<MemberRow>, vs: seq<Invitation>, ts: seq<Tool>, n: Id) {
    IdsBelow(us, cs, vs, ts, n) && InviteIdsDistinct(vs) && EmailsUnique(us) && CommunitiesLinked(cs, ms, vs)
  }

  /** Creating a community together with its Admin row keeps the store consistent. */
  lemma AddCommunityConsistent(us: seq<User>, cs: seq<Community>, ms: seq<MemberRow>, vs: seq<Invitation>,
                               ts: seq<Tool>, n: Id, c: Community, userId: Id)
    requires Consistent(us, cs, ms, vs, ts, n) && c.id == n
    ensures Consistent(us, cs + [c], ms + [MemberRow(userId, n, Admin)], vs, ts, n + 1)
  {
    var cs', ms' := cs + [c], ms + [MemberRow(userId, n, Admin)];
    forall x | x in cs' ensures HasAdmin(ms', x.id) {
      if x in cs {
        var m :| m in ms && m.communityId == x.id && m.permission == Admin;
        assert m in ms';
      } else {
        assert ms'[|ms|] in ms';
      }
    }
    forall x | x in cs ensures HasCommunity(cs', x.id) { assert x in cs'; }
    assert cs'[|cs|] in cs';
  }

  /** Adding an invitation to an existing community keeps the store consistent. */
  lemma AddInviteConsistent(us: seq<User>, cs: seq<Community>, ms: seq<MemberRow>, vs: seq<Invitation>,
                            ts: seq<Tool>, n: Id, invite: Invitation)
    requires Consistent(us, cs, ms, vs, ts, n) && invite.id == n && HasCommunity(cs, invite.communityId)
    ensures Consistent(us, cs, ms, vs + [invite], ts, n + 1)
  {
  }

  /** Rewriting invitations without touching their ids or communities, and adding a member row for an
      existing community, keeps the store consistent. */
  lemma UpdateInvitesAddMemberConsistent(us: seq<User>, cs: seq<Community>, ms: seq<MemberRow>, vs: seq<Invitation>,
                                         vs': seq<Invitation>, ts: seq<Tool>, n: Id, row: MemberRow)
    requires Consistent(us, cs, ms, vs, ts, n) && HasCommunity(cs, row.communityId)
    requires |vs'| == |vs|
    requires forall k :: 0 <= k < |vs| ==> vs'[k].id == vs[k].id && vs'[k].communityId == vs[k].communityId
    ensures Consistent(us, cs, ms + [row], vs', ts, n)
  {
    forall i | i in vs' ensures i.id < n && HasCommunity(cs, i.communityId) {
      var k :| 0 <= k < |vs'| && vs'[k] == i;
      assert vs[k] in vs;
    }
    forall c | c in cs ensures HasAdmin(ms + [row], c.id) {
      var m :| m in ms && m.communityId == c.id && m.permission == Admin;
      assert m in ms + [row];
    }
  }

  /** Adding a tool keeps the store consistent. */
  lemma AddToolConsistent(us: seq<User>, cs: seq<Community>, ms: seq<MemberRow>, vs: seq<Invitation>,
                          ts: seq<Tool>, n: Id, t: Tool)
    requires Consistent(us, cs, ms, vs, ts, n) && t.id == n
    ensures Consistent(us, cs, ms, vs, ts + [t], n + 1)
  {
  }

  /** Adding a user whose email is not yet registered keeps the store consistent. */
  lemma AddUserConsistent(us: seq<User>, cs: seq<Community>, ms: seq<MemberRow>, vs: seq<Invitation>,
                          ts: seq<Tool>, n: Id, u: User)
    requires Consistent(us, cs, ms, vs, ts, n) && u.id == n
    requires forall v :: v in us ==> v.email != u.email
    ensures Consistent(us + [u], cs, ms, vs, ts, n + 1)
  {
    var us' := us + [u];
    forall i, j | 0 <= i < j < |us'| ensures us'[i].email != us'[j].email {
      if j == |us| { assert us'[i] in us; }
    }
  }

  /** Keeping any sub-collection of the users, in order, keeps the store consistent. */
  lemma RemoveUsersConsistent(us: seq<User>, us': seq<User>, cs: seq<Community>, ms: seq<MemberRow>,
                              vs: seq<Invitation>, ts: seq<Tool>, n: Id, k: nat)
    requires Consistent(us, cs, ms, vs, ts, n) && k < |us|
    requires us' == us[..k] + us[k + 1..]
    ensures Consistent(us', cs, ms, vs, ts, n)
  {
    forall i, j | 0 <= i < j < |us'| ensures us'[i].email != us'[j].email {
      var i0 := if i < k then i else i + 1;
      var j0 := if j < k then j else j + 1;
      assert us'[i] == us[i0] && us'[j] == us[j0];
    }
    forall u | u in us' ensures u.id < n {
      var i :| 0 <= i < |us'| && us'[i] == u;
      assert u == us[if i < k then i else i + 1];
    }
  }

  class Db {
    var users: seq<User>
    /** Password rows, keyed by the id of the user they belong to. */
    var passwords: map<Id, PasswordHash>
    var communities: seq<Community>
    var members: seq<MemberRow>
    var invites: seq<Invitation>
    var tools: seq<Tool>
    /** The next id the store hands out; every id in use is smaller. */
    var nextId: Id

    ghost predicate Valid()
      reads this
    {
      Consistent(users, communities, members, invites, tools, nextId)
    }

    /** An empty database. */
    constructor ()
      ensures Valid()
      ensures users == [] && passwords == map[] && communities == [] && members == []
      ensures invites == [] && tools == [] && nextId == 0
    {
      users, passwords, communities, members, invites, tools := [], map[], [], [], [], [];
      nextId := 0;
    }

    /** Hands out an id that no row uses yet. */
    method FreshId() returns (id: Id)
      modifies this`nextId
      ensures id == old(nextId) && nextId == id + 1
    {
      id := nextId;
      nextId := nextId + 1;
    }
  }
}
