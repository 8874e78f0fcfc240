/** Communities, their member rows and invitations (app/models/community.server.ts). */
module CommunityServer {
  import opened Wrappers
  import opened Entities
  import opened Seqs
  import opened Db

  /** `getCommunity`'s answer: the community with every member row and invitation referring to it. */
  datatype CommunityEnriched = CommunityEnriched(community: Community, members: seq<MemberRow>, invites: seq<Invitation>)

  function GetCommunity(db: Db, id: Id): (r: Option<CommunityEnriched>)
    reads db
    ensures r.None? <==> forall c :: c in db.communities ==> c.id != id
    ensures r.Some? ==> r.value.community in db.communities && r.value.community.id == id
    ensures r.Some? ==> forall m :: m in r.value.members <==> m in db.members && m.communityId == id
    ensures r.Some? ==> forall i :: i in r.value.invites <==> i in db.invites && i.communityId == id
    ensures r.Some? ==> forall m: MemberRow :: m.communityId == id ==> multiset(r.value.members)[m] == multiset(db.members)[m]
    ensures r.Some? ==> forall i: Invitation :: i.communityId == id ==> multiset(r.value.invites)[i] == multiset(db.invites)[i]
  {
    match FindFirst(db.communities, CommunityWithId(id))
    case None => None
    case Some(c) =>
      var members, invites := Filter(db.members, MemberOfCommunity(id)), Filter(db.invites, InviteOfCommunity(id));
      assert forall m: MemberRow :: m.communityId == id ==> multiset(members)[m] == multiset(db.members)[m] by {
        forall m: MemberRow | m.communityId == id ensures multiset(members)[m] == multiset(db.members)[m] {
          FilterCount(db.members, MemberOfCommunity(id), m);
        }
      }
      assert forall i: Invitation :: i.communityId == id ==> multiset(invites)[i] == multiset(db.invites)[i] by {
        forall i: Invitation | i.communityId == id ensures multiset(invites)[i] == multiset(db.invites)[i] {
          FilterCount(db.invites, InviteOfCommunity(id), i);
        }
      }
      Some(CommunityEnriched(c, members, invites))
  }

  /** Every invitation addressed to `userEmail`, in storage order, whatever its status. */
  function GetInvitesByUserEmail(db: Db, userEmail: string): (r: seq<Invitation>)
    reads db
    ensures forall i :: i in r <==> i in db.invites && i.userEmail == userEmail
    ensures forall i: Invitation :: i.userEmail == userEmail ==> multiset(r)[i] == multiset(db.invites)[i]
  {
    var r := Filter(db.invites, InviteForEmail(userEmail));
    assert forall i: Invitation :: i.userEmail == userEmail ==> multiset(r)[i] == multiset(db.invites)[i] by {
      forall i: Invitation | i.userEmail == userEmail ensures multiset(r)[i] == multiset(db.invites)[i] {
        FilterCount(db.invites, InviteForEmail(userEmail), i);
      }
    }
    r
  }

  function GetInviteById(db: Db, id: Id): (r: Option<Invitation>)
    reads db
    ensures r.None? <==> forall i :: i in db.invites ==> i.id != id
    ensures r.Some? ==> r.value in db.invites && r.value.id == id
  {
    FindFirst(db.invites, InviteWithId(id))
  }

  /** Creates a community whose first and only member row is its creator, as Admin.
      Connecting a user that does not exist is refused and changes nothing. */
  method CreateCommunity(db: Db, name: string, userId: Id, now: Time) returns (r: Result<Community, DbError>)
    requires db.Valid()
    modifies db
    ensures db.Valid()
    ensures (forall u :: u in old(db.users) ==> u.id != userId) ==> r == Failure(RecordNotFound) && unchanged(db)
    ensures (exists u :: u in old(db.users) && u.id == userId) ==>
      && r.Success?
      && r.value == Community(old(db.nextId), name, now)
      && db.communities == old(db.communities) + [r.value]
      && db.members == old(db.members) + [MemberRow(userId, r.value.id, Admin)]
      && db.invites == old(db.invites) && db.users == old(db.users)
      && db.tools == old(db.tools) && db.passwords == old(db.passwords)
      && GetCommunity(db, r.value.id) == Some(CommunityEnriched(r.value, [MemberRow(userId, r.value.id, Admin)], []))
  {
    if FindFirst(db.users, UserWithId(userId)).None? {
      return Failure(RecordNotFound);
    }
    var id := db.FreshId();
    var c := Community(id, name, now);
    var admin := MemberRow(userId, id, Admin);
    AddCommunityConsistent(db.users, db.communities, db.members, db.invites, db.tools, id, c, userId);
    ghost var cs, ms := db.communities, db.members;
    NoRowsForFreshCommunity(cs, ms, db.invites, id);
    db.communities, db.members := db.communities + [c], db.members + [admin];
    assert db.Valid();
    assert db.invites == old(db.invites) && db.users == old(db.users);
    assert db.tools == old(db.tools) && db.passwords == old(db.passwords);
    r := Success(c);
    NewCommunityView(db, cs, ms, c, userId);
  }

  /** In a consistent store, no member row or invitation refers to an id not yet handed out. */
  lemma NoRowsForFreshCommunity(cs: seq<Community>, ms: seq<MemberRow>, vs: seq<Invitation>, n: Id)
    requires CommunitiesLinked(cs, ms, vs) && forall c :: c in cs ==> c.id < n
    ensures Filter(ms, MemberOfCommunity(n)) == []
    ensures Filter(vs, InviteOfCommunity(n)) == []
  {
  }

  /** Right after a community is created, looking it up gives it with its Admin row and no invitations. */
  lemma NewCommunityView(db: Db, cs: seq<Community>, ms: seq<MemberRow>, c: Community, userId: Id)
    requires forall x :: x in cs ==> x.id != c.id
    requires Filter(ms, MemberOfCommunity(c.id)) == [] && Filter(db.invites, InviteOfCommunity(c.id)) == []
    requires db.communities == cs + [c] && db.members == ms + [MemberRow(userId, c.id, Admin)]
    ensures GetCommunity(db, c.id) == Some(CommunityEnriched(c, [MemberRow(userId, c.id, Admin)], []))
  {
    var admin := MemberRow(userId, c.id, Admin);
    FindFirstAppended(cs, c, CommunityWithId(c.id));
    FilterConcat(ms, [admin], MemberOfCommunity(c.id));
    assert [admin][1..] == [];
    assert Filter([admin], MemberOfCommunity(c.id)) == [admin];
    assert FindFirst(db.communities, CommunityWithId(c.id)) == Some(c);
    assert Filter(db.members, MemberOfCommunity(c.id)) == [admin];
  }

  /** Adds one Open invitation of `userEmail` to the community, leaving the other invitations as they are.
      Connecting a community that does not exist is refused and changes nothing. */
  method CreateInvite(db: Db, communityId: Id, userEmail: string, now: Time) returns (r: Result<Invitation, DbError>)
    requires db.Valid()
    modifies db
    ensures db.Valid()
    ensures (forall c :: c in old(db.communities) ==> c.id != communityId) ==> r == Failure(RecordNotFound) && unchanged(db)
    ensures (exists c :: c in old(db.communities) && c.id == communityId) ==>
      && r.Success?
      && r.value == Invitation(old(db.nextId), communityId, userEmail, Open, now, now)
      && db.invites == old(db.invites) + [r.value]
      && db.communities == old(db.communities) && db.members == old(db.members)
      && db.users == old(db.users) && db.tools == old(db.tools) && db.passwords == old(db.passwords)
      && GetInviteById(db, r.value.id) == Some(r.value)
  {
    if FindFirst(db.communities, CommunityWithId(communityId)).None? {
      return Failure(RecordNotFound);
    }
    var id := db.FreshId();
    var invite := Invitation(id, communityId, userEmail, Open, now, now);
    AddInviteConsistent(db.users, db.communities, db.members, db.invites, db.tools, id, invite);
    FindFirstAppended(db.invites, invite, InviteWithId(id));
    db.invites := db.invites + [invite];
    r := Success(invite);
  }

  /** Answers an invitation as written: overwrites its status with Accepted or Rejected and stamps
      `lastUpdatedAt`, then adds a Member row for `userId` in the invitation's community. It does not
      look at the prior status, does not compare `userId` with the invitation's email, and adds the
      member row whether or not the invitation was accepted. An unknown invitation is refused. */
  method ActionInvite(db: Db, id: Id, accepted: bool, userId: Id, now: Time) returns (r: Result<Invitation, DbError>)
    requires db.Valid()
    modifies db
    ensures db.Valid()
    ensures old(GetInviteById(db, id)).None? ==> r == Failure(RecordNotFound) && unchanged(db)
    ensures old(GetInviteById(db, id)).Some? ==>
      var invite := old(GetInviteById(db, id)).value;
      var status := if accepted then Accepted else Rejected;
      && r == Success(invite.(status := status, lastUpdatedAt := now))
      && |db.invites| == |old(db.invites)|
      && (forall k :: 0 <= k < |db.invites| ==>
            db.invites[k] == if old(db.invites[k]).id == id
                             then old(db.invites[k]).(status := status, lastUpdatedAt := now)
                             else old(db.invites[k]))
      && (exists k :: 0 <= k < |old(db.invites)| && old(db.invites)[k] == invite && db.invites == old(db.invites)[k := r.value])
      && db.members == old(db.members) + [MemberRow(userId, invite.communityId, Member)]
      && db.communities == old(db.communities) && db.users == old(db.users)
      && db.tools == old(db.tools) && db.passwords == old(db.passwords) && db.nextId == old(db.nextId)
  {
    var found := FindFirst(db.invites, InviteWithId(id));
    if found.None? {
      return Failure(RecordNotFound);
    }
    var status := if accepted then Accepted else Rejected;
    var updated := found.value.(status := status, lastUpdatedAt := now);
    var before := db.invites;
    db.invites := Answered(before, id, status, now);
    // The invitation's community exists (Valid), so the nested member create cannot fail.
    ghost var k :| 0 <= k < |before| && before[k] == found.value;
    RewriteIsSingleRowUpdate(before, db.invites, k, status, now);
    assert old(db.invites)[k] == found.value && db.invites == old(db.invites)[k := updated];
    var row := MemberRow(userId, updated.communityId, Member);
    UpdateInvitesAddMemberConsistent(db.users, db.communities, db.members, before, db.invites, db.tools, db.nextId, row);
    db.members := db.members + [row];
    r := Success(updated);
  }

  /** The `update` by id: every invitation with `id` gets the new status and `lastUpdatedAt`. */
  function Answered(vs: seq<Invitation>, id: Id, status: InvitationStatus, now: Time): (r: seq<Invitation>)
    ensures |r| == |vs|
    ensures forall k :: 0 <= k < |vs| ==>
      r[k] == if vs[k].id == id then vs[k].(status := status, lastUpdatedAt := now) else vs[k]
  {
    seq(|vs|, k requires 0 <= k < |vs| =>
      if vs[k].id == id then vs[k].(status := status, lastUpdatedAt := now) else vs[k])
  }

  /** Invitation ids are distinct, so rewriting every invitation that has the id of the one at `k`
      rewrites that one position and nothing else. */
  lemma RewriteIsSingleRowUpdate(vs: seq<Invitation>, vs': seq<Invitation>, k: nat, status: InvitationStatus, now: Time)
    requires k < |vs| && forall i, j :: 0 <= i < j < |vs| ==> vs[i].id != vs[j].id
    requires |vs'| == |vs|
    requires forall i :: 0 <= i < |vs| ==>
      vs'[i] == if vs[i].id == vs[k].id then vs[i].(status := status, lastUpdatedAt := now) else vs[i]
    ensures vs' == vs[k := vs[k].(status := status, lastUpdatedAt := now)]
  {
    forall i | 0 <= i < |vs| && i != k ensures vs'[i] == vs[i] {
      if i < k { assert vs[i].id != vs[k].id; } else { assert vs[k].id != vs[i].id; }
    }
  }
}
