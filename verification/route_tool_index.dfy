/** The list of tools the signed-in user can borrow (app/routes/tool/index.tsx). */
module RouteToolIndex {
  import opened Entities
  import opened Seqs
  import opened Db
  import opened ToolsServer

  /** `members.flatMap(member => member.user.tools)` for one membership. */
  function ToolsOfMembership(m: MembershipTools): seq<Tool> {
    Flatten(Map(m.members, (x: MemberTools) => x.tools))
  }

  /** The loader's double `flatMap`: the tools of every listed member of every membership, in order,
      with nothing merged (a tool reached through two communities is listed twice). */
  function BorrowableToolList(ms: seq<MembershipTools>): (r: seq<Tool>)
    ensures forall t :: t in r <==> exists m, x :: m in ms && x in m.members && t in x.tools
  {
    var r := Flatten(Map(ms, ToolsOfMembership));
    assert forall t :: t in r ==> exists m, x :: m in ms && x in m.members && t in x.tools by {
      forall t | t in r ensures exists m, x :: m in ms && x in m.members && t in x.tools {
        var s :| s in Map(ms, ToolsOfMembership) && t in s;
        var k :| 0 <= k < |ms| && Map(ms, ToolsOfMembership)[k] == s;
        var inner := Map(ms[k].members, (x: MemberTools) => x.tools);
        var s' :| s' in inner && t in s';
        var j :| 0 <= j < |inner| && inner[j] == s';
        assert ms[k] in ms && ms[k].members[j] in ms[k].members;
      }
    }
    assert forall t :: (exists m, x :: m in ms && x in m.members && t in x.tools) ==> t in r by {
      forall t, m, x | m in ms && x in m.members && t in x.tools ensures t in r {
        var k :| 0 <= k < |ms| && ms[k] == m;
        var j :| 0 <= j < |m.members| && m.members[j] == x;
        var inner := Map(m.members, (x: MemberTools) => x.tools);
        assert inner[j] == x.tools;
        assert t in ToolsOfMembership(m);
        assert Map(ms, ToolsOfMembership)[k] == ToolsOfMembership(m);
      }
    }
    r
  }

  /** The list keeps the order of the memberships: those of a later page come after. */
  lemma BorrowableToolListInOrder(a: seq<MembershipTools>, b: seq<MembershipTools>)
    ensures BorrowableToolList(a + b) == BorrowableToolList(a) + BorrowableToolList(b)
  {
    MapConcat(a, b, ToolsOfMembership);
    FlattenConcat(Map(a, ToolsOfMembership), Map(b, ToolsOfMembership));
  }

  /** The number of tools of the listed members of one membership. */
  function MemberToolCount(members: seq<MemberTools>): nat {
    if members == [] then 0 else |members[0].tools| + MemberToolCount(members[1..])
  }

  /** The number of tools of the listed members of every membership. */
  function ToolCount(ms: seq<MembershipTools>): nat {
    if ms == [] then 0 else MemberToolCount(ms[0].members) + ToolCount(ms[1..])
  }

  lemma {:induction false} ToolsOfMembershipLength(m: MembershipTools)
    ensures |ToolsOfMembership(m)| == MemberToolCount(m.members)
  {
    MapLengths(m.members);
    FlattenLength(Map(m.members, (x: MemberTools) => x.tools));
  }

  lemma {:induction false} MapLengths(members: seq<MemberTools>)
    ensures TotalLength(Map(members, (x: MemberTools) => x.tools)) == MemberToolCount(members)
  {
    if members != [] {
      MapLengths(members[1..]);
      assert Map(members, (x: MemberTools) => x.tools)[1..] == Map(members[1..], (x: MemberTools) => x.tools);
    }
  }

  /** The list has exactly as many entries as the listed members have tools: nothing is filtered out. */
  lemma {:induction false} BorrowableToolListLength(ms: seq<MembershipTools>)
    ensures |BorrowableToolList(ms)| == ToolCount(ms)
  {
    FlattenLength(Map(ms, ToolsOfMembership));
    MembershipLengths(ms);
  }

  lemma {:induction false} MembershipLengths(ms: seq<MembershipTools>)
    ensures TotalLength(Map(ms, ToolsOfMembership)) == ToolCount(ms)
  {
    if ms != [] {
      MembershipLengths(ms[1..]);
      ToolsOfMembershipLength(ms[0]);
      assert Map(ms, ToolsOfMembership)[1..] == Map(ms[1..], ToolsOfMembership);
    }
  }

  /** Nothing is merged: a member who shares two communities with the caller is listed under each of
      the caller's two memberships, so each of that member's tools appears twice. */
  lemma ToolsAreNotDeduplicated(mine1: MemberRow, mine2: MemberRow, other1: MemberRow, other2: MemberRow, t: Tool)
    requires mine1.userId == mine2.userId && mine1.communityId != mine2.communityId
    requires other1.userId == other2.userId == t.userId
    requires other1.communityId == mine1.communityId && other2.communityId == mine2.communityId
    ensures BorrowableToolList([MembershipTools(mine1, [MemberTools(other1, [t])]),
                                MembershipTools(mine2, [MemberTools(other2, [t])])]) == [t, t]
  {
    var m1, m2 := MembershipTools(mine1, [MemberTools(other1, [t])]), MembershipTools(mine2, [MemberTools(other2, [t])]);
    assert Map(m1.members, (x: MemberTools) => x.tools) == [[t]];
    assert Map(m2.members, (x: MemberTools) => x.tools) == [[t]];
    assert Flatten([[t]]) == [t] + Flatten([]);
    assert ToolsOfMembership(m1) == [t] && ToolsOfMembership(m2) == [t];
    assert Map([m1, m2], ToolsOfMembership) == [[t], [t]];
    assert Flatten([[t], [t]]) == [t] + Flatten([[t]]);
  }

  /** The loader for the signed-in `userId`: the first page (20 memberships) of the query, flattened. */
  function Loader(db: Db, userId: Id): (r: seq<Tool>)
    reads db
    ensures forall t :: t in r ==> Borrowable(db, userId, t)
  {
    var r := BorrowableToolList(GetAllBorrowableTools(db, userId, DefaultPageNumber, DefaultPageSize));
    forall t | t in r ensures Borrowable(db, userId, t) {
      ListedToolIsBorrowable(db, userId, DefaultPageNumber, DefaultPageSize, t);
    }
    r
  }

  /** A tool of another member of one of `userId`'s communities. */
  ghost predicate Borrowable(db: Db, userId: Id, t: Tool)
    reads db
  {
    && t in db.tools
    && t.userId != userId
    && exists mine, theirs ::
      && mine in db.members && mine.userId == userId
      && theirs in db.members && theirs.userId == t.userId && theirs.communityId == mine.communityId
  }

  /** Every tool on any page of the flattened query is borrowable by `userId`. */
  lemma ListedToolIsBorrowable(db: Db, userId: Id, pageNumber: nat, pageSize: nat, t: Tool)
    requires pageNumber >= 1
    requires t in BorrowableToolList(GetAllBorrowableTools(db, userId, pageNumber, pageSize))
    ensures Borrowable(db, userId, t)
  {
    var ms := GetAllBorrowableTools(db, userId, pageNumber, pageSize);
    var m, x :| m in ms && x in m.members && t in x.tools;
    var k :| 0 <= k < |ms| && ms[k] == m;
    assert m == WithOtherMembers(db.members, db.tools, userId, m.membership);
    assert x.member.communityId == m.membership.communityId;
    assert m.membership in db.members && m.membership.userId == userId;
  }

  /** When the caller belongs to at most a page of communities, every tool of every other member of
      each of them is listed. */
  lemma LoaderListsAllBorrowable(db: Db, userId: Id, mine: MemberRow, theirs: MemberRow, t: Tool)
    requires |Filter(db.members, MemberOfUser(userId))| <= DefaultPageSize
    requires mine in db.members && mine.userId == userId
    requires theirs in db.members && theirs.communityId == mine.communityId && theirs.userId != userId
    requires t in db.tools && t.userId == theirs.userId
    ensures t in Loader(db, userId)
  {
    FirstPageListsAll(db, userId, DefaultPageSize, mine, theirs, t);
  }

  lemma FirstPageListsAll(db: Db, userId: Id, pageSize: nat, mine: MemberRow, theirs: MemberRow, t: Tool)
    requires |Filter(db.members, MemberOfUser(userId))| <= pageSize
    requires mine in db.members && mine.userId == userId
    requires theirs in db.members && theirs.communityId == mine.communityId && theirs.userId != userId
    requires t in db.tools && t.userId == theirs.userId
    ensures t in BorrowableToolList(GetAllBorrowableTools(db, userId, 1, pageSize))
  {
    var page := MembershipPage(db.members, userId, 1, pageSize);
    SinglePageHoldsAllMemberships(db.members, userId, pageSize);
    var k :| 0 <= k < |page| && page[k] == mine;
    var ms := GetAllBorrowableTools(db, userId, 1, pageSize);
    var m := ms[k];
    assert m == WithOtherMembers(db.members, db.tools, userId, mine) by {
      assert m.membership == mine;
    }
    var x :| x in m.members && x.member == theirs;
    assert t in x.tools;
    assert m in ms;
  }
}
