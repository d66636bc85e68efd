/** `GET /api/profiles/me` and `PUT /api/profiles/me`: the caller's own
    `users` row, overlaid for organizations with its `organization_profiles`
    row, and the partial update of both. */
module Profiles {
  import opened Http
  import Auth

  /** A JSON value of a response body. */
  datatype Value = JsonNull | Str(s: string) | Num(n: int) | Bool(b: bool)

  /** A JSON object: the response body of `GET /me` is one. */
  type JsonObject = map<string, Value>

  /** A row of `organization_profiles`, keyed by the user's id. */
  datatype OrgProfile = OrgProfile(
    registrationNumber: Option<string>,
    contactPerson: Option<string>,
    addressLine1: Option<string>,
    city: Option<string>,
    zipCode: Option<string>,
    isVerified: bool)

  /** The columns `GET /me` selects from `users`: the hash is not among them. */
  const USER_COLUMNS: set<string> := {"id", "email", "name", "user_type", "phone_number", "created_at"}

  /** The columns `GET /me` selects from `organization_profiles`. */
  const ORG_COLUMNS: set<string> := {"registration_number", "contact_person", "address_line_1", "city", "zip_code", "is_verified"}

  function Nullable(v: Option<string>): Value
  {
    if v.Some? then Str(v.value) else JsonNull
  }

  /** The selected `users` columns of a row, as a JSON object. */
  function UserJson(u: Auth.User): (j: JsonObject)
    ensures j.Keys == USER_COLUMNS
  {
    map["id" := Num(u.id), "email" := Str(u.email), "name" := Str(u.name), "user_type" := Str(u.userType),
        "phone_number" := Nullable(u.phoneNumber), "created_at" := Num(u.createdAt)]
  }

  /** The selected `organization_profiles` columns of a row, as a JSON object. */
  function OrgJson(o: OrgProfile): (j: JsonObject)
    ensures j.Keys == ORG_COLUMNS
  {
    map["registration_number" := Nullable(o.registrationNumber), "contact_person" := Nullable(o.contactPerson),
        "address_line_1" := Nullable(o.addressLine1), "city" := Nullable(o.city),
        "zip_code" := Nullable(o.zipCode), "is_verified" := Bool(o.isVerified)]
  }

  /** No selected column is the password hash, and the two tables' selected
      columns do not collide, so the spread loses no user field. */
  lemma ColumnsApart()
    ensures "password_hash" !in USER_COLUMNS + ORG_COLUMNS
    ensures USER_COLUMNS !! ORG_COLUMNS
  {
  }

  /** What `{ ...user, ...org }` holds. */
  lemma Overlay(user: JsonObject, org: JsonObject)
    requires user.Keys == USER_COLUMNS && org.Keys == ORG_COLUMNS
    ensures (user + org).Keys == USER_COLUMNS + ORG_COLUMNS
    ensures forall c :: c in USER_COLUMNS ==> (user + org)[c] == user[c]
    ensures forall c :: c in ORG_COLUMNS ==> (user + org)[c] == org[c]
  {
    ColumnsApart();
  }

  /** `GET /me`: 404 without a user row; otherwise the user's public columns,
      and for an organization caller with an org row, that row's columns
      spread over them (`{ ...user, ...org }`). */
  function GetProfile(users: map<Id, Auth.User>, orgs: map<Id, OrgProfile>, caller: Identity): (r: Response<JsonObject>)
    ensures r.Err? <==> caller.id !in users
    ensures r.Err? ==> r.error == NotFound("User profile not found.")
    ensures r.Ok? ==> r.code == 200 && "password_hash" !in r.value
    ensures r.Ok? ==> r.value.Keys == USER_COLUMNS + (if caller.userType == ORGANIZATION && caller.id in orgs then ORG_COLUMNS else {})
    ensures r.Ok? ==> forall c :: c in USER_COLUMNS ==> r.value[c] == UserJson(users[caller.id])[c]
    ensures r.Ok? && caller.userType == ORGANIZATION && caller.id in orgs ==>
              forall c :: c in ORG_COLUMNS ==> r.value[c] == OrgJson(orgs[caller.id])[c]
  {
    if caller.id !in users then
      Err(NotFound("User profile not found."))
    else
      var profile := UserJson(users[caller.id]);
      ColumnsApart();
      if caller.userType == ORGANIZATION && caller.id in orgs then
        Overlay(profile, OrgJson(orgs[caller.id]));
        Ok(200, profile + OrgJson(orgs[caller.id]))
      else
        Ok(200, profile)
  }

  /** The body of `PUT /me`. */
  datatype ProfileUpdate = ProfileUpdate(
    name: Field<string>,
    phoneNumber: Field<string>,
    registrationNumber: Field<string>,
    contactPerson: Field<string>,
    addressLine1: Field<string>,
    city: Field<string>,
    zipCode: Field<string>)

  /** `orgFields.some(field => field !== undefined)`: an explicit null counts as supplied. */
  predicate OrgFieldsSupplied(req: ProfileUpdate)
  {
    || req.registrationNumber != Absent || req.contactPerson != Absent || req.addressLine1 != Absent
    || req.city != Absent || req.zipCode != Absent
  }

  /** The `UPDATE users` of `PUT /me`: name and phone number COALESCE-merged. */
  function UpdatedUser(u: Auth.User, req: ProfileUpdate, now: nat): (r: Auth.User)
    ensures r.(name := u.name, phoneNumber := u.phoneNumber, updatedAt := u.updatedAt) == u
    ensures r.updatedAt == now
    ensures r.name == (if req.name.Given? then req.name.value else u.name)
    ensures r.phoneNumber == (if req.phoneNumber.Given? then Some(req.phoneNumber.value) else u.phoneNumber)
  {
    u.(name := Coalesce(Param(req.name), u.name),
       phoneNumber := CoalesceNullable(Param(req.phoneNumber), u.phoneNumber),
       updatedAt := now)
  }

  /** The `INSERT ... ON CONFLICT (user_id) DO UPDATE` of `PUT /me`: a new
      row holds the supplied values (NULL for the others, `is_verified` at
      its default, false); an existing row COALESCE-merges them. */
  function Upserted(existing: Option<OrgProfile>, req: ProfileUpdate): (r: OrgProfile)
    ensures existing.Some? ==> r.isVerified == existing.value.isVerified
    ensures existing.None? ==> !r.isVerified
    ensures var prior := if existing.Some? then existing.value else OrgProfile(None, None, None, None, None, false);
            && r.registrationNumber == (if req.registrationNumber.Given? then Some(req.registrationNumber.value) else prior.registrationNumber)
            && r.contactPerson == (if req.contactPerson.Given? then Some(req.contactPerson.value) else prior.contactPerson)
            && r.addressLine1 == (if req.addressLine1.Given? then Some(req.addressLine1.value) else prior.addressLine1)
            && r.city == (if req.city.Given? then Some(req.city.value) else prior.city)
            && r.zipCode == (if req.zipCode.Given? then Some(req.zipCode.value) else prior.zipCode)
  {
    match existing
    case None =>
      OrgProfile(Param(req.registrationNumber), Param(req.contactPerson), Param(req.addressLine1),
                 Param(req.city), Param(req.zipCode), false)
    case Some(o) =>
      o.(registrationNumber := CoalesceNullable(Param(req.registrationNumber), o.registrationNumber),
         contactPerson := CoalesceNullable(Param(req.contactPerson), o.contactPerson),
         addressLine1 := CoalesceNullable(Param(req.addressLine1), o.addressLine1),
         city := CoalesceNullable(Param(req.city), o.city),
         zipCode := CoalesceNullable(Param(req.zipCode), o.zipCode))
  }

  function Lookup(rows: map<Id, OrgProfile>, id: Id): Option<OrgProfile>
  {
    if id in rows then Some(rows[id]) else None
  }

  /** The `organization_profiles` table. */
  class OrgProfileTable {
    var rows: map<Id, OrgProfile>

    constructor ()
      ensures rows == map[]
    {
      rows := map[];
    }

    method Upsert(userId: Id, req: ProfileUpdate)
      modifies this
      ensures rows == old(rows)[userId := Upserted(Lookup(old(rows), userId), req)]
    {
      rows := rows[userId := Upserted(Lookup(rows, userId), req)];
    }
  }

  /** `PUT /me`: always 200. The user row, if there is one, gets the merged
      name and phone number; the org row is upserted only for an organization
      caller that supplied at least one org field. */
  method UpdateProfile(users: Auth.UserTable, orgs: OrgProfileTable, caller: Identity, req: ProfileUpdate)
    returns (r: Response<string>)
    requires users.Valid()
    modifies users, orgs
    ensures users.Valid()
    ensures r == Ok(200, "Profile updated successfully.")
    ensures users.nextId == old(users.nextId) && users.clock == old(users.clock) + 1
    ensures users.rows == if caller.id in old(users.rows)
                          then old(users.rows)[caller.id := UpdatedUser(old(users.rows)[caller.id], req, users.clock)]
                          else old(users.rows)
    ensures orgs.rows == if caller.userType == ORGANIZATION && OrgFieldsSupplied(req)
                         then old(orgs.rows)[caller.id := Upserted(Lookup(old(orgs.rows), caller.id), req)]
                         else old(orgs.rows)
  {
    users.clock := users.clock + 1;
    if caller.id in users.rows {
      users.rows := users.rows[caller.id := UpdatedUser(users.rows[caller.id], req, users.clock)];
    }
    if caller.userType == ORGANIZATION && OrgFieldsSupplied(req) {
      orgs.Upsert(caller.id, req);
    }
    r := Ok(200, "Profile updated successfully.");
  }

  /** A body holding only a new name changes the name and nothing else:
      the phone number stays, and no org row is touched. */
  lemma NameOnlyUpdate(u: Auth.User, name: string, now: nat)
    ensures var req := ProfileUpdate(Given(name), Absent, Absent, Absent, Absent, Absent, Absent);
            && UpdatedUser(u, req, now) == u.(name := name, updatedAt := now)
            && !OrgFieldsSupplied(req)
  {
  }

  /** A body whose org fields are all explicitly null passes the upsert
      guard: it inserts an all-NULL row when there is none and leaves an
      existing row as it was. */
  lemma NullOrgFieldsUpsert(existing: Option<OrgProfile>, name: Field<string>, phone: Field<string>)
    ensures var req := ProfileUpdate(name, phone, Null, Null, Null, Null, Null);
            && OrgFieldsSupplied(req)
            && Upserted(existing, req) == if existing.Some? then existing.value else OrgProfile(None, None, None, None, None, false)
  {
  }

  /** A profile read after an update shows what the update stored: the
      merged name and phone, and for an organization the upserted org row. */
  lemma UpdateThenGet(users: map<Id, Auth.User>, orgs: map<Id, OrgProfile>, caller: Identity, req: ProfileUpdate, now: nat)
    requires caller.id in users
    requires caller.userType == ORGANIZATION && OrgFieldsSupplied(req)
    ensures var u := users[caller.id];
            var o := Upserted(Lookup(orgs, caller.id), req);
            var r := GetProfile(users[caller.id := UpdatedUser(u, req, now)], orgs[caller.id := o], caller);
            && r.Ok?
            && r.value["name"] == Str(Coalesce(Param(req.name), u.name))
            && r.value["phone_number"] == Nullable(CoalesceNullable(Param(req.phoneNumber), u.phoneNumber))
            && forall c :: c in ORG_COLUMNS ==> r.value[c] == OrgJson(o)[c]
  {
    var u := users[caller.id];
    var o := Upserted(Lookup(orgs, caller.id), req);
    var r := GetProfile(users[caller.id := UpdatedUser(u, req, now)], orgs[caller.id := o], caller);
    assert "name" in USER_COLUMNS && "phone_number" in USER_COLUMNS;
  }
}
