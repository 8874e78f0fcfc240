/** Creating a community from the form (app/routes/community/new.tsx). */
module RouteCommunityNew {
  import opened Wrappers
  import opened Entities
  import opened Db
  import opened Http
  import opened CommunityServer

  const CommunityPrefix: string := "/community/"

  /** The action for the signed-in `userId`: a missing, non-text or empty `name` is answered with
      400 and changes nothing; otherwise the community is created with the caller as its admin and
      the browser is sent to its page. A `userId` with no user makes the creation throw. */
  method NewCommunityAction(db: Db, userId: Id, form: FormData, now: Time) returns (resp: Response)
    requires db.Valid()
    modifies db
    ensures db.Valid()
    ensures !IsNonEmptyText(Get(form, "name")) ==>
      resp == Json(400, FieldError("name", "Name is required")) && unchanged(db)
    ensures IsNonEmptyText(Get(form, "name")) && (forall u :: u in old(db.users) ==> u.id != userId) ==>
      resp == Thrown && unchanged(db)
    ensures IsNonEmptyText(Get(form, "name")) && (exists u :: u in old(db.users) && u.id == userId) ==>
      var c := Community(old(db.nextId), form["name"].text, now);
      && resp == Redirect(PathTo(CommunityPrefix, c.id))
      && db.communities == old(db.communities) + [c]
      && db.members == old(db.members) + [MemberRow(userId, c.id, Admin)]
      && db.invites == old(db.invites) && db.users == old(db.users)
      && db.tools == old(db.tools) && db.passwords == old(db.passwords)
      && GetCommunity(db, c.id) == Some(CommunityEnriched(c, [MemberRow(userId, c.id, Admin)], []))
  {
    var name := Get(form, "name");
    if !IsNonEmptyText(name) {
      return Json(400, FieldError("name", "Name is required"));
    }
    var created := CreateCommunity(db, name.value.text, userId, now);
    if created.Failure? {
      return Thrown;
    }
    resp := Redirect(PathTo(CommunityPrefix, created.value.id));
  }
}
