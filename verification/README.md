# toolshared — a verified model of communities, invitations and tool sharing

toolshared is a Remix web application where neighbours form communities, invite each other by
email and lend tools to the other members of their communities. This project models its core
in Dafny:

- the data layer: users with password hashes, communities, membership rows, invitations and tools;
- the operations on that store: creating communities, invitations, tools and users, answering an
  invitation, deleting a user, login, the paged queries, and the image upload to object storage;
- the route handlers built on them: the communities page, the new-community form, the borrowable
  tools list and the new-tool form. The new-tool form covers the subcategory lookup, the
  multipart upload, field validation and tool creation.

The database is one class, `Db.Db`. Its tables are sequences in insertion order, and its ids are
natural numbers handed out by a counter. `Db.Db.Valid` holds on every store the operations
produce:
- ids are below the counter;
- no two invitations share an id;
- no two users share an email;
- every member row and invitation refers to an existing community;
- every community has an Admin row.

Operations that write the store are methods with `modifies db`. Each states the new contents of
every table and keeps `Valid`. Queries are functions. The list queries, by their contracts or a lemma
beside them, return every matching row as often as it is stored, and the paged ones the `skip`/`take`
window of those rows; the lookups by key return a stored row with that key, or None exactly when
there is none. Lemmas connect the writes to the queries. For example, looking up a newly created community
shows its creator as its only Admin, and logging in after registering finds the registered user.

Modules, one per source file where the source has one:

| file | module | source |
|---|---|---|
| wrappers.dfy | Wrappers | `Option` and `Result` |
| seqs.dfy | Seqs | filter, find-first, map, flatten, skip/take, with their algebra |
| text.dfy | Text | decimal rendering and parsing, splitting at a separator |
| entities.dfy | Entities | the records of the data model and the two enums of the seed data |
| db.dfy | Db | the store, its consistency invariant and one preservation lemma per kind of write |
| http.dfy | Http | form data, responses, redirect locations |
| community_server.dfy | CommunityServer | app/models/community.server.ts |
| tools_server.dfy | ToolsServer | app/models/tools.server.ts |
| user_server.dfy | UserServer | app/models/user.server.ts |
| route_community.dfy | RouteCommunity | app/routes/community.tsx |
| route_community_new.dfy | RouteCommunityNew | app/routes/community/new.tsx |
| route_tool_index.dfy | RouteToolIndex | app/routes/tool/index.tsx |
| route_tool_manage_new.dfy | RouteToolManageNew | app/routes/tool/manage/new.tsx |

## Model

| member | source | states |
|---|---|---|
| CommunityServer.GetCommunity | app/models/community.server.ts:22-44 | None exactly when no community has the id; otherwise that community with every member row and every invitation that refers to it, each as often as it is stored, and no others |
| CommunityServer.GetInvitesByUserEmail | app/models/community.server.ts:75-90 | exactly the invitations addressed to the email, each as many times as it is stored |
| CommunityServer.GetInviteById | app/models/community.server.ts:92-107 | None exactly when no invitation has the id; otherwise a stored invitation with that id |
| CommunityServer.CreateCommunity | app/models/community.server.ts:46-69 | an unknown creator is refused (RecordNotFound) and nothing changes; otherwise one community and one Admin row for the creator are appended, nothing else changes, and looking the new id up gives the community with just that Admin row and no invitations |
| CommunityServer.CreateInvite | app/models/community.server.ts:109-128 | an unknown community is refused and nothing changes; otherwise one Open invitation for the email is appended with both timestamps set to now, and looking it up by id finds it |
| CommunityServer.ActionInvite | app/models/community.server.ts:130-163 | an unknown id is refused and nothing changes; otherwise the one invitation with that id (ids are distinct) is replaced in place by a copy with status Accepted or Rejected and a new lastUpdatedAt, whatever its prior status; every other invitation is unchanged; and a Member row for the caller is appended even on a rejection |
| CommunityServer.RewriteIsSingleRowUpdate | app/models/community.server.ts:138-146 | because invitation ids are distinct, the update by id rewrites exactly one position of the table |
| ToolsServer.PageOf | app/models/tools.server.ts:64-65 | page n holds at most pageSize elements, and its i-th element is element (n-1)*pageSize+i of the whole |
| ToolsServer.ConsecutivePages | app/models/tools.server.ts:64-65 | page n+1 starts exactly where page n ends |
| ToolsServer.FirstPagesArePrefix | app/models/tools.server.ts:64-65 | pages 1 to k read in turn give the first k*pageSize elements, with no overlap and no gap |
| ToolsServer.FirstPageIsAll | app/models/tools.server.ts:82-83 | a result no longer than a page is entirely on page 1 |
| ToolsServer.GetUsersTools | app/models/tools.server.ts:51-67 | the `skip`/`take` window of the user's tools in storage order: exactly as many as the window holds, each the user's tool at position skip + i |
| ToolsServer.GetTool | app/models/tools.server.ts:30-49 | None exactly when no tool has the id; otherwise a stored tool with that id |
| ToolsServer.WithOtherMembers | app/models/tools.server.ts:84-104 | the included members are exactly the rows of the membership's community whose user is not the caller, each as often as it is stored, with exactly that member's tools |
| ToolsServer.MembershipPage | app/models/tools.server.ts:78-83 | at most pageSize rows, each a stored membership row of the caller |
| ToolsServer.MembershipPageIsWindow | app/models/tools.server.ts:78-83 | page n of the memberships is the `skip`/`take` window of the caller's rows in storage order |
| ToolsServer.GetAllBorrowableTools | app/models/tools.server.ts:69-107 | one entry per row of the caller's membership page, in page order, each holding that row and the other members of its community with their tools |
| ToolsServer.SinglePageHoldsAllMemberships | app/models/tools.server.ts:78-83 | when the caller has at most pageSize rows, page 1 holds every one of them |
| ToolsServer.StorageKey | app/models/tools.server.ts:144-146 | the key starts with "toolImages/" and ends with the file name |
| ToolsServer.StorageKeyRoundTrip | app/models/tools.server.ts:144-146 | a key splits back into the user id, the random number and the file name it was built from |
| ToolsServer.ObjectStorage.Put | app/models/tools.server.ts:150-158 | exactly one upload request is sent |
| ToolsServer.UploadToolImage | app/models/tools.server.ts:117-168 | no stream, or a missing or empty file name, gives "nothing uploaded" with no request; an unset or empty environment value fails before any request; otherwise exactly one request is sent with key toolImages/{userId}_{n}_{filename} for some n in 0..1000, and the answer is the reported Location when there is one and "Image upload error" for every other outcome |
| ToolsServer.CreateTool | app/models/tools.server.ts:170-189 | appends one tool holding exactly the five given fields, changes nothing else, and looking up its id gives that same tool, image URL included |
| UserServer.GetUserById | app/models/user.server.ts:8-10 | None exactly when no user has the id; otherwise a stored user with that id |
| UserServer.GetUserByEmail | app/models/user.server.ts:12-14 | None exactly when no user has the email; otherwise a stored user with that email |
| UserServer.EmailIdentifiesUser | app/models/user.server.ts:12-14 | in a consistent store, looking up a user's email finds that very user |
| UserServer.CommunitiesOf | app/models/user.server.ts:27 | one community per membership row, in row order, each the community that row refers to |
| UserServer.GetCommunitiesByUserId | app/models/user.server.ts:16-28 | None exactly for an unknown user; otherwise one stored community per membership row of the user, in row order |
| UserServer.GetUserWithPassword | app/models/user.server.ts:64-69 | the user with that email joined with its password row, which is present exactly when the user has one |
| UserServer.VerifyLogin | app/models/user.server.ts:60-87 | a user is returned exactly when a user has the email, has a password row, and the comparison accepts the password against the stored hash; the user returned is the stored record for that email, without the hash |
| UserServer.CreateUser | app/models/user.server.ts:30-54 | a taken email is refused (UniqueViolation) and nothing changes; otherwise the user is appended, its password row holds the hash of the password, and looking up the email finds the new user |
| UserServer.LoginAfterRegistration | app/models/user.server.ts:60-87 | after registration, login succeeds with the registered user exactly when the comparison accepts the password against its own hash |
| UserServer.DeleteUserByEmail | app/models/user.server.ts:56-58 | an unknown email is refused and nothing changes; otherwise exactly that user is removed, the others stay in order, no user with that email remains, and the other tables are unchanged |
| UserServer.RemovingUser | app/models/user.server.ts:56-58 | when emails are unique, deleting by email removes exactly the one row holding that email, keeps the rest in order, and leaves no row with that email |
| Http.Get | app/routes/community/new.tsx:21 | a value is returned exactly when the form has the field, and it is the submitted value |
| Http.PathTo | app/routes/community/new.tsx:32 | the location is the prefix followed by the id's digits |
| Http.PathRoundTrip | app/routes/community/new.tsx:32 | the route parameter read from a redirect location is the id that was redirected to |
| RouteCommunity.Loader | app/routes/community.tsx:17-23 | the communities are getCommunitiesByUserId's answer or the empty list: for a known user one per membership row, in order, each the community that row refers to; the invitations are getInvitesByUserEmail's answer, exactly those sent to the user's email, each as often as it is stored |
| RouteCommunity.OpenInvites | app/routes/community.tsx:27 | exactly the invitations whose status is Open, each as many times as given |
| RouteCommunity.OpenInvitesInOrder | app/routes/community.tsx:27 | filtering keeps the invitations' order: the open ones of a later batch come after those of an earlier one |
| RouteCommunity.PendingAreOpenInvitesToUser | app/routes/community.tsx:17-27 | the pending list shows exactly the Open invitations addressed to the user |
| RouteCommunityNew.NewCommunityAction | app/routes/community/new.tsx:17-33 | a missing, non-text or empty name gives 400 with "Name is required" and nothing changes; otherwise the community is created with the caller as its only new Admin row, no other table changes, and the answer redirects to "/community/" followed by its id |
| RouteToolIndex.BorrowableToolList | app/routes/tool/index.tsx:18-22 | a tool is listed exactly when it belongs to a member included in one of the memberships |
| RouteToolIndex.BorrowableToolListInOrder | app/routes/tool/index.tsx:18-22 | the list follows the order of the memberships: the list for a + b is the list for a followed by the list for b |
| RouteToolIndex.BorrowableToolListLength | app/routes/tool/index.tsx:18-22 | the list is exactly as long as the total number of tools of the included members, so nothing is filtered out |
| RouteToolIndex.ToolsAreNotDeduplicated | app/routes/tool/index.tsx:20-21 | a member who shares two communities with the caller is listed under both memberships, so each of their tools is listed twice |
| RouteToolIndex.Loader | app/routes/tool/index.tsx:15-24 | every listed tool is a stored tool of another user who shares a community with the caller |
| RouteToolIndex.ListedToolIsBorrowable | app/routes/tool/index.tsx:18-22 | on any page of the query, every tool in the flattened list is borrowable by the caller |
| RouteToolIndex.LoaderListsAllBorrowable | app/routes/tool/index.tsx:15-24 | when the caller has at most 20 memberships, every tool of every other member of the caller's communities is listed |
| RouteToolManageNew.Loader | app/routes/tool/manage/new.tsx:39-53 | the categories are passed through; the lookup has a key for exactly the categories that have subcategories, and each key holds exactly that category's subcategories in input order |
| RouteToolManageNew.AppendKeepsLookup | app/routes/tool/manage/new.tsx:43-48 | one step of the reduce (push onto the category's list, starting an empty list if needed) turns the lookup of the first i subcategories into the lookup of the first i+1 |
| RouteToolManageNew.GroupedIsLookup | app/routes/tool/manage/new.tsx:43-48 | the reduce over all subcategories yields a lookup keyed by exactly the categories that have subcategories, each holding them in input order |
| RouteToolManageNew.NoBucketOutsideCategories | app/routes/tool/manage/new.tsx:44 | a category with no subcategory has an empty list |
| RouteToolManageNew.BucketSizesSum | app/routes/tool/manage/new.tsx:42-50 | over distinct categories that cover every subcategory, the list sizes add up to the number of subcategories |
| RouteToolManageNew.LookupSizesSum | app/routes/tool/manage/new.tsx:42-50 | the sizes of the lookup's lists add up to the number of subcategories, whatever order its keys are taken in |
| RouteToolManageNew.PickerShowsCategory | app/routes/tool/manage/new.tsx:128-131 | after a category is picked, the options are exactly its subcategories in order, and none for a category without subcategories |
| RouteToolManageNew.ParsedForm | app/routes/tool/manage/new.tsx:58-63 | the parse fails exactly when the upload handler throws; otherwise every text field is kept as sent, and the only field added is the file field, holding the uploaded location |
| RouteToolManageNew.ParseMultipart | app/routes/tool/manage/new.tsx:57-66 | the parsed form is the one the upload handler's answer decides; exactly one storage request is sent when the handler uploads, and none otherwise |
| RouteToolManageNew.FieldErrorOf | app/routes/tool/manage/new.tsx:73-92 | no error exactly when name, description and subCategory are all non-empty text; otherwise the error names the first of them that fails, with its message |
| RouteToolManageNew.ImageUrlOf | app/routes/tool/manage/new.tsx:99 | no image URL exactly when the image field is absent; a text value is used as it is |
| RouteToolManageNew.NewToolAction | app/routes/tool/manage/new.tsx:55-103 | a failed upload gives 500 with the upload flag and creates no tool; a failed check gives 400 with the first failing field's message and creates no tool; otherwise exactly one tool with the form's fields and the caller as owner is created, no other table changes, and the answer redirects to "/tool/" followed by its id; the image is uploaded, as one request under the user's key, before the checks run |
| RouteToolManageNew.UploadedLocationIsImageUrl | app/routes/tool/manage/new.tsx:94-100 | the location of a successful upload becomes the tool's image URL |
| RouteToolManageNew.NoFileNoImage | app/routes/tool/manage/new.tsx:94-100 | with no file, or a file part without a file name, the tool gets no image URL |

## Left out

- Rendering: JSX, React state and effects, focus handling and app/components are not modelled. The page components are modelled only where they compute something: the Open filter and the category picker.
- Sessions: `requireUser` and `requireUserId` are not modelled. The signed-in user or user id is a parameter.
- The `include`/`select` shapes of the queries are not modelled. Joined records are reduced to the rows they are built from. For example, getTool's subcategory, category and owner name, and the community name attached to an invitation, are left out.
- getMemberPermissions, getCategories and getSubCategories only read reference data. Permissions are the `Permission` datatype, and categories and subcategories are inputs to the new-tool loader.
- Database constraints beyond those the code relies on are not modelled, because the schema is not part of this model. These include cascades when a user is deleted and uniqueness of member rows. Connecting a missing record is refused, and so is a second user with the same email.
- Ids are natural numbers from a counter, not generated strings. Redirect locations render them in decimal.
- Timestamps are a `now` parameter. Nothing in the model sets an invitation to Expired.
- Object storage is seen only through the requests it receives. Streaming, the S3 client and its credentials are not modelled. The service's answer is a parameter, and `Math.random` is any whole number from 0 to 1000.
- Multipart parsing internals are not modelled. A body is its text fields (one value per name) plus at most one file part.
- bcrypt is a pair of function parameters: a hash and a comparison.
- ToolsServer.PageOf: requires pageNumber >= 1. The source also accepts 0 or a negative page, which would give a negative skip. No caller passes one, so it is not modelled.
- ToolsServer.GetUsersTools: requires pageNumber >= 1, for the same reason as PageOf.
- ToolsServer.GetAllBorrowableTools: requires pageNumber >= 1, for the same reason as PageOf.
- The two writes in actionInvite (the status update, then the member row) are one step here. A failure between them is not modelled.
- CommunityServer.ActionInvite: actionInvite adds the Member row on every answer, a rejection included, and the model does the same.
