/** Tools: paging, the borrowable-tools query, image upload and tool creation (app/models/tools.server.ts). */
module ToolsServer {
  import opened Wrappers
  import opened Entities
  import opened Seqs
  import opened Text
  import opened Db

  // ---------------------------------------------------------------- paging

  const DefaultPageNumber: nat := 1
  const DefaultPageSize: nat := 20

  /** The ORM's `skip` for page `pageNumber` (counted from 1). */
  function Skip(pageNumber: nat, pageSize: nat): nat
    requires pageNumber >= 1
  {
    (pageNumber - 1) * pageSize
  }

  /** Page `pageNumber` (counted from 1) of `s`: `skip: (pageNumber - 1) * pageSize, take: pageSize`. */
  function PageOf<T>(s: seq<T>, pageNumber: nat, pageSize: nat): (r: seq<T>)
    requires pageNumber >= 1
    ensures |r| == WindowLength(|s|, Skip(pageNumber, pageSize), pageSize)
    ensures |r| <= pageSize
    ensures r == [] || Skip(pageNumber, pageSize) + |r| <= |s|
    ensures forall i :: 0 <= i < |r| ==> r[i] == s[Skip(pageNumber, pageSize) + i]
  {
    Window(s, Skip(pageNumber, pageSize), pageSize)
  }

  /** Page `n + 1` starts exactly where page `n` ends. */
  lemma ConsecutivePages<T>(s: seq<T>, n: nat, pageSize: nat)
    requires n >= 1
    ensures PageOf(s, n, pageSize) + PageOf(s, n + 1, pageSize) == Window(s, (n - 1) * pageSize, 2 * pageSize)
  {
    assert (n - 1) * pageSize + pageSize == n * pageSize;
    WindowsAdjacent(s, (n - 1) * pageSize, pageSize, pageSize);
  }

  /** Pages 1 to `k`, one after the other. */
  function FirstPages<T>(s: seq<T>, k: nat, pageSize: nat): seq<T> {
    if k == 0 then [] else FirstPages(s, k - 1, pageSize) + PageOf(s, k, pageSize)
  }

  /** Reading pages 1 to `k` yields the first `k * pageSize` elements, each once and in order:
      pages neither overlap nor leave gaps. */
  lemma {:induction false} FirstPagesArePrefix<T>(s: seq<T>, k: nat, pageSize: nat)
    ensures FirstPages(s, k, pageSize) == Window(s, 0, k * pageSize)
  {
    if k > 0 {
      FirstPagesArePrefix(s, k - 1, pageSize);
      assert (k - 1) * pageSize + pageSize == k * pageSize;
      WindowsAdjacent(s, 0, (k - 1) * pageSize, pageSize);
    }
  }

  /** Every element of a page is an element of the whole. */
  lemma PageWithin<T>(s: seq<T>, pageNumber: nat, pageSize: nat)
    requires pageNumber >= 1
    ensures forall k :: 0 <= k < |PageOf(s, pageNumber, pageSize)| ==> PageOf(s, pageNumber, pageSize)[k] in s
  {
  }

  /** A sequence no longer than a page is entirely on page 1. */
  lemma FirstPageIsAll<T>(s: seq<T>, pageSize: nat)
    requires |s| <= pageSize
    ensures PageOf(s, 1, pageSize) == s
  {
    assert |PageOf(s, 1, pageSize)| == |s|;
  }

  // ---------------------------------------------------------------- queries

  /** One page of the tools owned by `userId`, in storage order. */
  function GetUsersTools(db: Db, userId: Id, pageNumber: nat, pageSize: nat): (r: seq<Tool>)
    reads db
    requires pageNumber >= 1
    ensures |r| <= pageSize
    ensures forall t :: t in r ==> t in db.tools && t.userId == userId
    ensures var owned, skip := Filter(db.tools, ToolOfUser(userId)), Skip(pageNumber, pageSize);
      && |r| == WindowLength(|owned|, skip, pageSize)
      && forall i :: 0 <= i < |r| ==> r[i] == owned[skip + i]
  {
    var owned := Filter(db.tools, ToolOfUser(userId));
    PageWithin(owned, pageNumber, pageSize);
    PageOf(owned, pageNumber, pageSize)
  }

  function GetTool(db: Db, id: Id): (r: Option<Tool>)
    reads db
    ensures r.None? <==> forall t :: t in db.tools ==> t.id != id
    ensures r.Some? ==> r.value in db.tools && r.value.id == id
  {
    FindFirst(db.tools, ToolWithId(id))
  }

  /** A member row of the community, together with that member's tools. */
  datatype MemberTools = MemberTools(member: MemberRow, tools: seq<Tool>)

  /** One of the caller's membership rows, with the community's other members and their tools. */
  datatype MembershipTools = MembershipTools(membership: MemberRow, members: seq<MemberTools>)

  /** The `where` of the nested include: members of `communityId` other than `userId`. */
  function OtherMemberOf(communityId: Id, userId: Id): MemberRow -> bool {
    (m: MemberRow) => m.communityId == communityId && m.userId != userId
  }

  /** A member row with all of that member's tools, in storage order. */
  function WithToolsOf(tools: seq<Tool>): MemberRow -> MemberTools {
    (m: MemberRow) => MemberTools(m, Filter(tools, ToolOfUser(m.userId)))
  }

  /** The member rows of a list of members with their tools. */
  function RowsOf(xs: seq<MemberTools>): seq<MemberRow> {
    Map(xs, (x: MemberTools) => x.member)
  }

  /** Attaching tools to member rows keeps the rows as they are. */
  lemma RowsOfWithTools(rows: seq<MemberRow>, tools: seq<Tool>)
    ensures RowsOf(Map(rows, WithToolsOf(tools))) == rows
  {
    var xs := Map(rows, WithToolsOf(tools));
    assert forall k :: 0 <= k < |rows| ==> RowsOf(xs)[k] == rows[k];
  }

  /** The members of `communityId` other than `userId`, in storage order, each with their tools. */
  function OtherMembers(members: seq<MemberRow>, tools: seq<Tool>, userId: Id, communityId: Id): seq<MemberTools> {
    Map(Filter(members, OtherMemberOf(communityId, userId)), WithToolsOf(tools))
  }

  lemma OtherMembersSound(members: seq<MemberRow>, tools: seq<Tool>, userId: Id, communityId: Id)
    ensures forall x :: x in OtherMembers(members, tools, userId, communityId) ==>
      && x.member in members
      && x.member.communityId == communityId
      && x.member.userId != userId
      && (forall t :: t in x.tools <==> t in tools && t.userId == x.member.userId)
  {
    var others := Filter(members, OtherMemberOf(communityId, userId));
    var xs := OtherMembers(members, tools, userId, communityId);
    forall x | x in xs ensures x.member in others && x.tools == Filter(tools, ToolOfUser(x.member.userId)) {
      var k :| 0 <= k < |xs| && xs[k] == x;
    }
  }

  lemma OtherMembersComplete(members: seq<MemberRow>, tools: seq<Tool>, userId: Id, communityId: Id)
    ensures forall m :: m in members && m.communityId == communityId && m.userId != userId ==>
      exists x :: x in OtherMembers(members, tools, userId, communityId) && x.member == m
  {
    var others := Filter(members, OtherMemberOf(communityId, userId));
    var xs := OtherMembers(members, tools, userId, communityId);
    forall m | m in members && m.communityId == communityId && m.userId != userId
      ensures exists x :: x in xs && x.member == m
    {
      var k :| 0 <= k < |others| && others[k] == m;
      assert xs[k] in xs;
    }
  }

  lemma OtherMembersCounted(members: seq<MemberRow>, tools: seq<Tool>, userId: Id, communityId: Id)
    ensures forall m: MemberRow :: m.communityId == communityId && m.userId != userId ==>
      multiset(RowsOf(OtherMembers(members, tools, userId, communityId)))[m] == multiset(members)[m]
  {
    RowsOfWithTools(Filter(members, OtherMemberOf(communityId, userId)), tools);
    forall m: MemberRow | m.communityId == communityId && m.userId != userId
      ensures multiset(RowsOf(OtherMembers(members, tools, userId, communityId)))[m] == multiset(members)[m]
    {
      FilterCount(members, OtherMemberOf(communityId, userId), m);
    }
  }

  /** What the include attaches to one membership row: every member of its community except
      `userId`, each as often as its row is stored, with all of that member's tools. */
  function WithOtherMembers(members: seq<MemberRow>, tools: seq<Tool>, userId: Id, membership: MemberRow): (r: MembershipTools)
    ensures r.membership == membership
    ensures forall x :: x in r.members ==>
      && x.member in members
      && x.member.communityId == membership.communityId
      && x.member.userId != userId
      && (forall t :: t in x.tools <==> t in tools && t.userId == x.member.userId)
    ensures forall m :: m in members && m.communityId == membership.communityId && m.userId != userId ==>
      exists x :: x in r.members && x.member == m
    ensures forall m: MemberRow :: m.communityId == membership.communityId && m.userId != userId ==>
      multiset(RowsOf(r.members))[m] == multiset(members)[m]
  {
    OtherMembersSound(members, tools, userId, membership.communityId);
    OtherMembersComplete(members, tools, userId, membership.communityId);
    OtherMembersCounted(members, tools, userId, membership.communityId);
    MembershipTools(membership, OtherMembers(members, tools, userId, membership.communityId))
  }

  /** One page of `userId`'s membership rows, each with the other members of its community and their tools. */
  function GetAllBorrowableTools(db: Db, userId: Id, pageNumber: nat, pageSize: nat): (r: seq<MembershipTools>)
    reads db
    requires pageNumber >= 1
    ensures |r| <= pageSize
    ensures forall k :: 0 <= k < |r| ==> r[k].membership in db.members && r[k].membership.userId == userId
    ensures forall k :: 0 <= k < |r| ==> r[k] == WithOtherMembers(db.members, db.tools, userId, r[k].membership)
    ensures var page := MembershipPage(db.members, userId, pageNumber, pageSize);
      |r| == |page| && forall k :: 0 <= k < |r| ==> r[k].membership == page[k]
  {
    var ms, ts := db.members, db.tools;
    var memberships := MembershipPage(ms, userId, pageNumber, pageSize);
    Map(memberships, WithOtherMembersOf(ms, ts, userId))
  }

  /** The include, as a function of the membership row. */
  function WithOtherMembersOf(members: seq<MemberRow>, tools: seq<Tool>, userId: Id): MemberRow -> MembershipTools {
    (m: MemberRow) => WithOtherMembers(members, tools, userId, m)
  }

  /** One page of the membership rows of `userId`. */
  function MembershipPage(members: seq<MemberRow>, userId: Id, pageNumber: nat, pageSize: nat): (r: seq<MemberRow>)
    requires pageNumber >= 1
    ensures |r| <= pageSize
    ensures forall k :: 0 <= k < |r| ==> r[k] in members && r[k].userId == userId
  {
    var mine := Filter(members, MemberOfUser(userId));
    PageWithin(mine, pageNumber, pageSize);
    PageOf(mine, pageNumber, pageSize)
  }

  /** Page `pageNumber` of the memberships is the `skip`/`take` window of `userId`'s rows in storage order. */
  lemma MembershipPageIsWindow(members: seq<MemberRow>, userId: Id, pageNumber: nat, pageSize: nat)
    requires pageNumber >= 1
    ensures var r, mine, skip := MembershipPage(members, userId, pageNumber, pageSize),
                                 Filter(members, MemberOfUser(userId)), Skip(pageNumber, pageSize);
      && |r| == WindowLength(|mine|, skip, pageSize)
      && forall i :: 0 <= i < |r| ==> r[i] == mine[skip + i]
  {
  }

  /** When the caller has no more membership rows than fit on a page, page 1 holds all of them. */
  lemma SinglePageHoldsAllMemberships(members: seq<MemberRow>, userId: Id, pageSize: nat)
    requires |Filter(members, MemberOfUser(userId))| <= pageSize
    ensures forall m :: m in members && m.userId == userId ==> m in MembershipPage(members, userId, 1, pageSize)
  {
    FirstPageIsAll(Filter(members, MemberOfUser(userId)), pageSize);
  }

  // ---------------------------------------------------------------- image upload

  /** The environment the upload reads: `AWS_S3_ACCESS_KEY_ID`, `AWS_S3_SECRET_ACCESS_KEY`, `AWS_REGION`,
      `AWS_S3_IMAGE_BUCKET_NAME`; None for an unset variable. */
  datatype Env = Env(accessKeyId: Option<string>, secretAccessKey: Option<string>, region: Option<string>, bucketName: Option<string>)

  /** JavaScript truthiness of an optional string: set and non-empty. */
  predicate Truthy(v: Option<string>) {
    v.Some? && |v.value| > 0
  }

  predicate EnvReady(env: Env) {
    Truthy(env.accessKeyId) && Truthy(env.secretAccessKey) && Truthy(env.region) && Truthy(env.bucketName)
  }

  const KeyPrefix: string := "toolImages/"

  /** The object key of an uploaded image: `toolImages/{userId}_{n}_{filename}`. */
  function StorageKey(userId: Id, n: nat, filename: string): (key: string)
    ensures |KeyPrefix| + |filename| < |key|
    ensures key[..|KeyPrefix|] == KeyPrefix && key[|key| - |filename|..] == filename
  {
    KeyPrefix + Decimal(userId) + "_" + Decimal(n) + "_" + filename
  }

  datatype KeyParts = KeyParts(userId: Id, n: nat, filename: string)

  /** Reads a key of the form `toolImages/{digits}_{digits}_{rest}` back into its parts. */
  function ParseStorageKey(key: string): Option<KeyParts> {
    if |key| < |KeyPrefix| || key[..|KeyPrefix|] != KeyPrefix then None
    else match SplitFirst(key[|KeyPrefix|..], '_')
      case None => None
      case Some((user, rest)) =>
        if !IsDigits(user) then None
        else match SplitFirst(rest, '_')
          case None => None
          case Some((n, filename)) =>
            if !IsDigits(n) then None else Some(KeyParts(ParseDecimal(user), ParseDecimal(n), filename))
  }

  /** A key determines the user, the random number and the filename it was built from,
      even when the filename itself contains underscores. */
  lemma StorageKeyRoundTrip(userId: Id, n: nat, filename: string)
    ensures ParseStorageKey(StorageKey(userId, n, filename)) == Some(KeyParts(userId, n, filename))
  {
    var u, d := Decimal(userId), Decimal(n);
    var key := StorageKey(userId, n, filename);
    assert key[|KeyPrefix|..] == u + "_" + (d + "_" + filename);
    assert '_' !in u;
    assert '_' !in d;
    SplitFirstAfter(u, '_', d + "_" + filename);
    SplitFirstAfter(d, '_', filename);
    ParseDecimalOfDecimal(userId);
    ParseDecimalOfDecimal(n);
  }

  /** What the storage client reported. `"Location" in response` separates a completed upload
      from an aborted one; an exception from the client is `Threw`. */
  datatype UploadResponse = UploadResponse(location: Option<string>)
  datatype UploadOutcome = Responded(response: UploadResponse) | Threw

  predicate IsSuccess(response: UploadResponse) {
    response.location.Some?
  }

  /** One request sent to object storage. */
  datatype PutRequest = PutRequest(bucket: string, key: string, contentType: string, body: seq<bv8>)

  /** The object storage, seen through the requests it receives. */
  class ObjectStorage {
    var requests: seq<PutRequest>

    constructor ()
      ensures requests == []
    {
      requests := [];
    }

    /** Sends one upload request; what storage answers is not decided here. */
    method Put(request: PutRequest)
      modifies this
      ensures requests == old(requests) + [request]
    {
      requests := requests + [request];
    }
  }

  /** `undefined` (nothing to upload), the uploaded image's location, or one of the two exceptions:
      the env invariant failing, or the single "Image upload error". */
  datatype UploadResult = NoUpload | Uploaded(location: string) | ConfigurationError | ImageUploadError

  /** Streams an image to object storage. Without a stream or a filename nothing is sent; with an
      incomplete environment it fails before building a key or a client; otherwise it sends exactly one
      request under `toolImages/{userId}_{n}_{filename}` for some n in 0..1000, and answers the reported
      Location, or "Image upload error" for every other outcome. */
  method UploadToolImage(storage: ObjectStorage, env: Env, stream: Option<seq<bv8>>, filename: Option<string>,
                         mimetype: string, userId: Id, outcome: UploadOutcome) returns (r: UploadResult)
    modifies storage
    ensures !(stream.Some? && Truthy(filename)) ==> r == NoUpload && storage.requests == old(storage.requests)
    ensures stream.Some? && Truthy(filename) && !EnvReady(env) ==>
      r == ConfigurationError && storage.requests == old(storage.requests)
    ensures stream.Some? && Truthy(filename) && EnvReady(env) ==>
      && (exists n :: 0 <= n <= 1000 &&
            storage.requests == old(storage.requests) +
              [PutRequest(env.bucketName.value, StorageKey(userId, n, filename.value), mimetype, stream.value)])
      && (outcome.Responded? && IsSuccess(outcome.response) ==> r == Uploaded(outcome.response.location.value))
      && (!(outcome.Responded? && IsSuccess(outcome.response)) ==> r == ImageUploadError)
  {
    if stream.None? || !Truthy(filename) {
      return NoUpload;
    }
    if !EnvReady(env) {
      return ConfigurationError;
    }
    // Math.round(Math.random() * 1000): any whole number from 0 to 1000.
    var n :| 0 <= n <= 1000;
    var key := StorageKey(userId, n, filename.value);
    storage.Put(PutRequest(env.bucketName.value, key, mimetype, stream.value));
    if outcome.Responded? && IsSuccess(outcome.response) {
      r := Uploaded(outcome.response.location.value);
    } else {
      r := ImageUploadError;
    }
  }

  // ---------------------------------------------------------------- creation

  /** Stores a tool with exactly the five given fields; looking its id up afterwards finds it. */
  method CreateTool(db: Db, name: string, description: string, subCategoryId: string, userId: Id,
                    imageUrl: Option<string>, now: Time) returns (t: Tool)
    requires db.Valid()
    modifies db
    ensures db.Valid()
    ensures t == Tool(old(db.nextId), name, description, subCategoryId, userId, imageUrl, now)
    ensures db.tools == old(db.tools) + [t]
    ensures db.users == old(db.users) && db.passwords == old(db.passwords) && db.communities == old(db.communities)
    ensures db.members == old(db.members) && db.invites == old(db.invites)
    ensures GetTool(db, t.id) == Some(t)
  {
    var id := db.FreshId();
    t := Tool(id, name, description, subCategoryId, userId, imageUrl, now);
    AddToolConsistent(db.users, db.communities, db.members, db.invites, db.tools, id, t);
    FindFirstAppended(db.tools, t, ToolWithId(id));
    db.tools := db.tools + [t];
  }
}
