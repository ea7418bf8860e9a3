/** Values shared by every part of the CMS model: optional values, HTTP replies,
    the enumerations the database schema declares, and JavaScript truthiness of
    the optional string fields that arrive in a JSON request body. */
module Base {

  datatype Option<+T> = None | Some(value: T)

  /** A handler's reply: a success status with its JSON body, or an error
      status with the text the handler puts under `error`. */
  datatype Outcome<+T> = Ok(status: nat, value: T) | Fail(status: nat, message: string)

  /** The four user roles. */
  datatype Role = ADMIN | EDITOR | AUTHOR | USER

  /** The claims a signed session token carries: the user's id and role. */
  datatype Claims = Claims(id: string, role: Role)

  /** The three content collections; each is a table of its own with the same shape. */
  datatype Kind = Post | Project | Story

  /** The workflow tag of a content item; any value may follow any other. */
  datatype Status = DRAFT | REVIEW | PUBLISHED | ARCHIVED

  /** The `type` tag the server attaches to a content item in merged listings. */
  function KindTag(k: Kind): (tag: string)
    ensures tag in {"post", "project", "story"}
  {
    match k
    case Post => "post"
    case Project => "project"
    case Story => "story"
  }

  function RoleName(r: Role): string {
    match r
    case ADMIN => "ADMIN"
    case EDITOR => "EDITOR"
    case AUTHOR => "AUTHOR"
    case USER => "USER"
  }

  /** The database accepts a role only under one of its four enum spellings. */
  function ParseRole(s: string): (r: Option<Role>)
    ensures r.Some? <==> s in {"ADMIN", "EDITOR", "AUTHOR", "USER"}
    ensures r.Some? ==> RoleName(r.value) == s
  {
    if s == "ADMIN" then Some(ADMIN)
    else if s == "EDITOR" then Some(EDITOR)
    else if s == "AUTHOR" then Some(AUTHOR)
    else if s == "USER" then Some(USER)
    else None
  }

  function StatusName(st: Status): string {
    match st
    case DRAFT => "DRAFT"
    case REVIEW => "REVIEW"
    case PUBLISHED => "PUBLISHED"
    case ARCHIVED => "ARCHIVED"
  }

  /** The database accepts a status only under one of its four enum spellings. */
  function ParseStatus(s: string): (st: Option<Status>)
    ensures st.Some? <==> s in {"DRAFT", "REVIEW", "PUBLISHED", "ARCHIVED"}
    ensures st.Some? ==> StatusName(st.value) == s
  {
    if s == "DRAFT" then Some(DRAFT)
    else if s == "REVIEW" then Some(REVIEW)
    else if s == "PUBLISHED" then Some(PUBLISHED)
    else if s == "ARCHIVED" then Some(ARCHIVED)
    else None
  }

  lemma NamesRoundTrip(r: Role, st: Status)
    ensures ParseRole(RoleName(r)) == Some(r)
    ensures ParseStatus(StatusName(st)) == Some(st)
  {
  }

  /** JavaScript truthiness of an optional string: absent and "" are falsy. */
  predicate Truthy(s: Option<string>) {
    s.Some? && s.value != ""
  }

  /** The expression `s || fallback` on an optional string. */
  function OrElse(s: Option<string>, fallback: string): (r: string)
    ensures Truthy(s) ==> r == s.value
    ensures !Truthy(s) ==> r == fallback
  {
    if Truthy(s) then s.value else fallback
  }
}
