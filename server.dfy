/** Routes that change state: the role gate of the route table runs first, and
    only a permitted request reaches its handler. The gate's replies are
    401 "Unauthorized" without a valid token and 403 "Forbidden" for a role
    outside the route's list. */
module Server {
  import opened Base
  import opened Policy
  import opened Tables
  import opened Text
  import Content
  import Users
  import Media

  const NoToken := "Unauthorized"
  const WrongRole := "Forbidden"

  /** The reply of a gate that stops the request. */
  function Refusal<T>(d: Decision): (r: Outcome<T>)
    requires d != Permit
    ensures r.Fail? && (r.status == 401 <==> d == Unauthenticated) && (r.status == 403 <==> d == Forbidden)
  {
    match d
    case Unauthenticated => Fail(401, NoToken)
    case Forbidden => Fail(403, WrongRole)
  }

  /** POST /api/content/{kind}: a permitted caller becomes the author. */
  method CreateRoute(store: Content.ContentStore, caller: Option<Claims>, k: Kind, body: Content.CreateBody,
                     authorExists: bool, dbMessage: string, now: int)
    returns (r: Outcome<Content.ContentItem>)
    requires store.Valid()
    modifies store
    ensures store.Valid()
    ensures Decide(caller, CreateContent(k)) != Permit ==>
      r == Refusal(Decide(caller, CreateContent(k))) && store.Tables() == old(store.Tables())
    ensures Decide(caller, CreateContent(k)) == Permit && caller.value.id == "" ==>
      r == Fail(401, Content.Unauthorized) && store.Tables() == old(store.Tables())
    ensures Decide(caller, CreateContent(k)) == Permit && caller.value.id != "" &&
            !(Content.WellFormed(body) && authorExists) ==>
      r == Fail(400, OrElse(Some(dbMessage), Content.CreateFailed)) && store.Tables() == old(store.Tables())
    ensures Decide(caller, CreateContent(k)) == Permit && caller.value.id != "" &&
            Content.WellFormed(body) && authorExists ==>
      r == Ok(201, Content.NewItem(NatToString(old(store.nextId)), caller.value.id, body, now)) &&
      r.value.authorId == caller.value.id &&
      store.Table(k) == old(store.Table(k)) + [r.value] &&
      (forall k' :: k' != k ==> store.Table(k') == old(store.Table(k'))) &&
      store.nextId == old(store.nextId) + 1
    ensures r.Ok? ==> caller.Some? && caller.value.role in {ADMIN, EDITOR, AUTHOR}
  {
    var d := Decide(caller, CreateContent(k));
    if d != Permit {
      return Refusal(d);
    }
    r := store.Create(k, Some(caller.value.id), body, authorExists, dbMessage, now);
  }

  /** PUT /api/content/{kind}/{id}: nothing about the item's author is consulted,
      so any ADMIN or EDITOR may change any item. */
  method UpdateRoute(store: Content.ContentStore, caller: Option<Claims>, k: Kind, id: string,
                     body: Content.UpdateBody, now: int)
    returns (r: Outcome<Content.ContentItem>)
    requires store.Valid()
    modifies store
    ensures store.Valid()
    ensures Decide(caller, UpdateContent(k)) != Permit ==>
      r == Refusal(Decide(caller, UpdateContent(k))) && store.Tables() == old(store.Tables())
    ensures HasRole(caller, {ADMIN, EDITOR}) &&
            (IndexOf(old(store.Table(k)), Content.ItemId, id).None? || !Content.UpdateStatusValid(body)) ==>
      r == Fail(400, Content.UpdateFailed) && store.Tables() == old(store.Tables())
    ensures HasRole(caller, {ADMIN, EDITOR}) && IndexOf(old(store.Table(k)), Content.ItemId, id).Some? &&
            Content.UpdateStatusValid(body) ==>
      var i := IndexOf(old(store.Table(k)), Content.ItemId, id).value;
      r == Ok(200, Content.Patch(old(store.Table(k))[i], body, now)) &&
      store.Table(k) == old(store.Table(k))[i := r.value] &&
      forall k' :: k' != k ==> store.Table(k') == old(store.Table(k'))
  {
    var d := Decide(caller, UpdateContent(k));
    if d != Permit {
      return Refusal(d);
    }
    r := store.Update(k, id, body, now);
  }

  /** DELETE /api/content/{kind}/{id}: administrators only. */
  method DeleteRoute(store: Content.ContentStore, caller: Option<Claims>, k: Kind, id: string)
    returns (r: Outcome<string>)
    requires store.Valid()
    modifies store
    ensures store.Valid()
    ensures Decide(caller, DeleteContent(k)) != Permit ==>
      r == Refusal(Decide(caller, DeleteContent(k))) && store.Tables() == old(store.Tables())
    ensures HasRole(caller, {ADMIN}) && IndexOf(old(store.Table(k)), Content.ItemId, id).None? ==>
      r == Fail(400, Content.DeleteFailed) && store.Tables() == old(store.Tables())
    ensures HasRole(caller, {ADMIN}) && IndexOf(old(store.Table(k)), Content.ItemId, id).Some? ==>
      r == Ok(200, Content.Deleted) &&
      store.Table(k) == RemoveAt(old(store.Table(k)), IndexOf(old(store.Table(k)), Content.ItemId, id).value) &&
      forall k' :: k' != k ==> store.Table(k') == old(store.Table(k'))
    ensures r.Ok? ==> HasRole(caller, {ADMIN})
  {
    var d := Decide(caller, DeleteContent(k));
    if d != Permit {
      return Refusal(d);
    }
    r := store.Delete(k, id);
  }

  /** PUT /api/auth/{id}/role: administrators only. */
  method ChangeRoleRoute(store: Users.UserStore, caller: Option<Claims>, id: string, role: Option<string>)
    returns (r: Outcome<Users.RoleChange>)
    requires store.Valid()
    modifies store
    ensures store.Valid()
    ensures Decide(caller, ChangeUserRole) != Permit ==>
      r == Refusal(Decide(caller, ChangeUserRole)) && store.users == old(store.users)
    ensures r.Ok? ==> HasRole(caller, {ADMIN})
    ensures HasRole(caller, {ADMIN}) &&
            (IndexOf(old(store.users), Users.UserId, id).None? || (role.Some? && ParseRole(role.value).None?)) ==>
      r == Fail(400, Users.UpdateFailed) && store.users == old(store.users)
    ensures HasRole(caller, {ADMIN}) && IndexOf(old(store.users), Users.UserId, id).Some? &&
            (role.None? || ParseRole(role.value).Some?) ==>
      var i := IndexOf(old(store.users), Users.UserId, id).value;
      var newRole := if role.Some? then ParseRole(role.value).value else old(store.users)[i].role;
      store.users == old(store.users)[i := old(store.users)[i].(role := newRole)] &&
      r == Ok(200, Users.RoleChange(id, newRole))
  {
    var d := Decide(caller, ChangeUserRole);
    if d != Permit {
      return Refusal(d);
    }
    r := store.UpdateUserRole(id, role);
  }

  /** POST /api/media/upload: any signed-in caller. */
  method UploadRoute(store: Media.MediaStore, caller: Option<Claims>, part: Option<Media.FilePart>,
                     now: nat, rand: nat)
    returns (r: Outcome<Media.MediaRecord>)
    requires store.Valid() && rand <= Media.MaxRandom
    modifies store
    ensures store.Valid()
    ensures caller.None? ==>
      r == Fail(401, NoToken) && store.records == old(store.records) && store.files == old(store.files)
    ensures caller.Some? && part.None? ==>
      r == Fail(400, Media.NoFile) && store.records == old(store.records) && store.files == old(store.files)
    ensures caller.Some? && part.Some? && part.value.fieldname != Media.UploadField ==>
      r == Fail(500, Media.ServerError) && store.records == old(store.records) && store.files == old(store.files)
    ensures caller.Some? && part.Some? && part.value.fieldname == Media.UploadField ==>
      r == Ok(201, Media.NewRecord(NatToString(old(store.nextId)), part.value, now, rand)) &&
      store.records == old(store.records) + [r.value] &&
      store.files == old(store.files) + {r.value.filename}
    ensures r.Ok? ==> part.Some? && part.value.fieldname == Media.UploadField
  {
    var d := Decide(caller, UploadMedia);
    if d != Permit {
      return Refusal(d);
    }
    r := store.Upload(part, now, rand);
  }

  /** DELETE /api/media/{id}: administrators only; whether the file is still
      referenced by content plays no part. */
  method RemoveMediaRoute(store: Media.MediaStore, caller: Option<Claims>, id: string)
    returns (r: Outcome<string>)
    requires store.Valid()
    modifies store
    ensures store.Valid()
    ensures Decide(caller, RemoveMedia) != Permit ==>
      r == Refusal(Decide(caller, RemoveMedia)) && store.records == old(store.records) && store.files == old(store.files)
    ensures HasRole(caller, {ADMIN}) && IndexOf(old(store.records), Media.MediaId, id).Some? ==>
      var i := IndexOf(old(store.records), Media.MediaId, id).value;
      r == Ok(200, Media.MediaDeleted) &&
      store.records == RemoveAt(old(store.records), i) &&
      store.files == old(store.files) - {old(store.records)[i].filename}
    ensures HasRole(caller, {ADMIN}) && IndexOf(old(store.records), Media.MediaId, id).None? ==>
      r == Fail(404, Media.MediaNotFound) && store.records == old(store.records) && store.files == old(store.files)
  {
    var d := Decide(caller, RemoveMedia);
    if d != Permit {
      return Refusal(d);
    }
    r := store.Delete(id);
  }
}
