/** The communities page (app/routes/community.tsx): the signed-in user's communities and the
    invitations still waiting for an answer. */
module RouteCommunity {
  import opened Wrappers
  import opened Entities
  import opened Seqs
  import opened Db
  import opened CommunityServer
  import opened UserServer

  /** What the loader hands to the page. */
  datatype LoaderData = LoaderData(communities: seq<Community>, invites: seq<Invitation>)

  /** The loader for `user` (the session's user, resolved by the caller): the communities of the
      user's membership rows, one per row and in the rows' order (none when the user id is unknown),
      and every invitation to the email, each as often as it is stored. */
  function Loader(db: Db, user: User): (r: LoaderData)
    reads db
    requires db.Valid()
    ensures r.communities == GetCommunitiesByUserId(db, user.id).GetOr([])
    ensures r.invites == GetInvitesByUserEmail(db, user.email)
    ensures (forall u :: u in db.users ==> u.id != user.id) ==> r.communities == []
    ensures (exists u :: u in db.users && u.id == user.id) ==>
      var rows := Filter(db.members, MemberOfUser(user.id));
      && |r.communities| == |rows|
      && forall k :: 0 <= k < |rows| ==> r.communities[k] in db.communities && r.communities[k].id == rows[k].communityId
    ensures forall c :: c in r.communities ==>
      c in db.communities && exists m :: m in db.members && m.userId == user.id && m.communityId == c.id
    ensures forall i :: i in r.invites <==> i in db.invites && i.userEmail == user.email
    ensures forall i: Invitation :: i.userEmail == user.email ==> multiset(r.invites)[i] == multiset(db.invites)[i]
  {
    var communities := GetCommunitiesByUserId(db, user.id);
    var rows := Filter(db.members, MemberOfUser(user.id));
    assert forall c :: c in communities.GetOr([]) ==>
      exists m :: m in db.members && m.userId == user.id && m.communityId == c.id by {
      forall c | c in communities.GetOr([])
        ensures exists m :: m in db.members && m.userId == user.id && m.communityId == c.id
      {
        var k :| 0 <= k < |communities.value| && communities.value[k] == c;
        assert rows[k] in rows;
      }
    }
    LoaderData(communities.GetOr([]), GetInvitesByUserEmail(db, user.email))
  }

  /** The page's `statusId === "Open"` test. */
  function IsOpen(): Invitation -> bool { (i: Invitation) => i.status == Open }

  /** The invitations the page lists as pending: exactly the open ones, each as often as it occurs. */
  function OpenInvites(invites: seq<Invitation>): (r: seq<Invitation>)
    ensures forall i :: i in r <==> i in invites && i.status == Open
    ensures forall i: Invitation :: i.status == Open ==> multiset(r)[i] == multiset(invites)[i]
  {
    var r := Filter(invites, IsOpen());
    assert forall i: Invitation :: i.status == Open ==> multiset(r)[i] == multiset(invites)[i] by {
      forall i: Invitation | i.status == Open ensures multiset(r)[i] == multiset(invites)[i] {
        FilterCount(invites, IsOpen(), i);
      }
    }
    r
  }

  /** Filtering keeps the invitations in the order they were sent: the open ones of a later batch
      come after those of an earlier one. */
  lemma OpenInvitesInOrder(earlier: seq<Invitation>, later: seq<Invitation>)
    ensures OpenInvites(earlier + later) == OpenInvites(earlier) + OpenInvites(later)
  {
    FilterConcat(earlier, later, IsOpen());
  }

  /** The pending list of the page is the user's open invitations and nothing else. */
  lemma PendingAreOpenInvitesToUser(db: Db, user: User)
    requires db.Valid()
    ensures forall i :: i in OpenInvites(Loader(db, user).invites) <==>
      i in db.invites && i.userEmail == user.email && i.status == Open
  {
  }
}
