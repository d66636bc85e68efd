/** The `food_donations` table and the routes under `/api/donations`: a donor
    lists surplus food, an organization claims it, the donor confirms the
    pickup. Create checks the role and then the required fields; update,
    cancel and fulfill check role, existence, ownership and status; claim
    checks role, existence, status and then that the caller is not the
    donor. Each handler writes at most one row, and only after its checks. */
module Donations {
  import opened Http

  datatype Status = Available | Pending | Fulfilled | Cancelled

  /** The text stored in the `status` column, echoed in error messages. */
  function StatusName(s: Status): string
  {
    match s
    case Available => "available"
    case Pending => "pending"
    case Fulfilled => "fulfilled"
    case Cancelled => "cancelled"
  }

  /** A row of `food_donations`; `createdAt` and `updatedAt` read a counter clock. */
  datatype Donation = Donation(
    id: Id,
    donorId: Id,
    organizationId: Option<Id>,
    title: string,
    description: Option<string>,
    quantityDetails: string,
    pickupAddress: string,
    latitude: real,
    longitude: real,
    expiryTime: Option<string>,
    status: Status,
    createdAt: nat,
    updatedAt: nat)

  /** The descriptive fields of a POST or PUT body. */
  datatype DonationInput = DonationInput(
    title: Field<string>,
    description: Field<string>,
    quantityDetails: Field<string>,
    pickupAddress: Field<string>,
    latitude: Field<real>,
    longitude: Field<real>,
    expiryTime: Field<string>)

  const NOT_FOUND: string := "Donation not found."
  const NOT_OWNER: string := "Access denied. You do not own this donation."

  /** An organization is recorded exactly while the donation is pending or
      fulfilled, and it is never the donor. */
  predicate Consistent(d: Donation)
  {
    && (d.organizationId.Some? <==> d.status == Pending || d.status == Fulfilled)
    && (d.organizationId.Some? ==> d.organizationId.value != d.donorId)
  }

  /** The lifecycle: a status stays, or moves along available -> pending ->
      fulfilled, or available -> cancelled. */
  predicate Step(from: Status, to: Status)
  {
    || from == to
    || (from == Available && (to == Pending || to == Cancelled))
    || (from == Pending && to == Fulfilled)
  }

  /** What every handler keeps about the rows that existed before it ran:
      none is removed, each status takes at most one lifecycle step, and the
      owner, the creation time and a recorded organization never change. */
  ghost predicate Evolves(before: map<Id, Donation>, after: map<Id, Donation>)
  {
    forall k :: k in before ==>
      && k in after
      && Step(before[k].status, after[k].status)
      && after[k].donorId == before[k].donorId
      && after[k].createdAt == before[k].createdAt
      && (before[k].organizationId.Some? ==> after[k].organizationId == before[k].organizationId)
  }

  /** No step leads back to available. */
  lemma NoReturnToAvailable(from: Status)
    requires Step(from, Available)
    ensures from == Available
  {
  }

  /** A fulfilled or cancelled donation never changes status again. */
  lemma TerminalStatuses(from: Status, to: Status)
    requires from == Fulfilled || from == Cancelled
    requires Step(from, to)
    ensures to == from
  {
  }

  // ---------------------------------------------------------------------
  // Row updates
  // ---------------------------------------------------------------------

  /** The row `POST /` inserts. Status `available` and a NULL
      `organization_id` are the table's column defaults. */
  function NewDonation(id: Id, donor: Id, input: DonationInput, now: nat): (d: Donation)
    requires input.title.Given? && input.quantityDetails.Given? && input.pickupAddress.Given?
    requires input.latitude.Given? && input.longitude.Given?
    ensures Consistent(d) && d.status == Available && d.donorId == donor
  {
    Donation(id, donor, None, input.title.value, Param(input.description), input.quantityDetails.value,
             input.pickupAddress.value, input.latitude.value, input.longitude.value, Param(input.expiryTime),
             Available, now, now)
  }

  /** `PUT /:id`: each descriptive column is `COALESCE($n, column)`. */
  function MergedRow(d: Donation, input: DonationInput, now: nat): (r: Donation)
    ensures r.id == d.id && r.donorId == d.donorId && r.organizationId == d.organizationId
    ensures r.status == d.status && r.createdAt == d.createdAt && r.updatedAt == now
    ensures r.title == (if input.title.Given? then input.title.value else d.title)
    ensures r.description == (if input.description.Given? then Some(input.description.value) else d.description)
    ensures r.quantityDetails == (if input.quantityDetails.Given? then input.quantityDetails.value else d.quantityDetails)
    ensures r.pickupAddress == (if input.pickupAddress.Given? then input.pickupAddress.value else d.pickupAddress)
    ensures r.latitude == (if input.latitude.Given? then input.latitude.value else d.latitude)
    ensures r.longitude == (if input.longitude.Given? then input.longitude.value else d.longitude)
    ensures r.expiryTime == (if input.expiryTime.Given? then Some(input.expiryTime.value) else d.expiryTime)
    ensures input == DonationInput(Absent, Absent, Absent, Absent, Absent, Absent, Absent) ==> r == d.(updatedAt := now)
    ensures input == DonationInput(Null, Null, Null, Null, Null, Null, Null) ==> r == d.(updatedAt := now)
  {
    d.(title := Coalesce(Param(input.title), d.title),
       description := CoalesceNullable(Param(input.description), d.description),
       quantityDetails := Coalesce(Param(input.quantityDetails), d.quantityDetails),
       pickupAddress := Coalesce(Param(input.pickupAddress), d.pickupAddress),
       latitude := Coalesce(Param(input.latitude), d.latitude),
       longitude := Coalesce(Param(input.longitude), d.longitude),
       expiryTime := CoalesceNullable(Param(input.expiryTime), d.expiryTime),
       updatedAt := now)
  }

  /** Applying the same PUT body twice leaves the row as applying it once. */
  lemma MergeIdempotent(d: Donation, input: DonationInput, now: nat, later: nat)
    ensures MergedRow(MergedRow(d, input, now), input, later) == MergedRow(d, input, later)
  {
  }

  /** `DELETE /:id` sets only the status (and the update time). */
  function CancelledRow(d: Donation, now: nat): (r: Donation)
    ensures r.status == Cancelled && r.(status := d.status, updatedAt := d.updatedAt) == d
  {
    d.(status := Cancelled, updatedAt := now)
  }

  /** `PATCH /:id/claim` sets the status and the claiming organization. */
  function ClaimedRow(d: Donation, org: Id, now: nat): (r: Donation)
    ensures r.status == Pending && r.organizationId == Some(org)
    ensures r.(status := d.status, organizationId := d.organizationId, updatedAt := d.updatedAt) == d
  {
    d.(status := Pending, organizationId := Some(org), updatedAt := now)
  }

  /** `PATCH /:id/fulfill` sets only the status; the organization stays. */
  function FulfilledRow(d: Donation, now: nat): (r: Donation)
    ensures r.status == Fulfilled && r.(status := d.status, updatedAt := d.updatedAt) == d
  {
    d.(status := Fulfilled, updatedAt := now)
  }

  // ---------------------------------------------------------------------
  // Guards
  // ---------------------------------------------------------------------

  /** The checks of `POST /`: role first, then the required fields, which
      must be truthy (so a coordinate of 0 is refused). */
  function CreateCheck(caller: Identity, input: DonationInput): (g: Option<Error>)
    ensures g.None? <==>
              && caller.userType == DONOR
              && Filled(input.title) && Filled(input.pickupAddress) && Filled(input.quantityDetails)
              && NonZero(input.latitude) && NonZero(input.longitude)
    ensures caller.userType != DONOR ==> g == Some(Forbidden("Access denied. Only donors can create a donation."))
    ensures g.Some? && caller.userType == DONOR ==> g.value.BadRequest?
  {
    if caller.userType != DONOR then
      Some(Forbidden("Access denied. Only donors can create a donation."))
    else if !Filled(input.title) || !Filled(input.pickupAddress) || !NonZero(input.latitude)
         || !NonZero(input.longitude) || !Filled(input.quantityDetails) then
      Some(BadRequest("Missing required fields: title, address, coordinates, or quantity details."))
    else
      None
  }

  /** The three handlers reserved to the owning donor. */
  datatype OwnerAction = UpdateAction | CancelAction | FulfillAction
  {
    /** The status the row must have. */
    function Required(): Status
    {
      if this == FulfillAction then Pending else Available
    }

    function RoleDenied(): string
    {
      match this
      case UpdateAction => "Access denied. Only donors can modify donations."
      case CancelAction => "Access denied. Only donors can cancel donations."
      case FulfillAction => "Access denied. Only the donor can confirm fulfillment."
    }

    function StatusRejected(s: Status): string
    {
      match this
      case UpdateAction => "Cannot update donation with status: " + StatusName(s) + "."
      case CancelAction => "Cannot cancel donation with status: " + StatusName(s) + "."
      case FulfillAction => "Donation status is " + StatusName(s) + ". It must be 'pending' to fulfill."
    }
  }

  /** The checks of PUT, DELETE and fulfill: role (403), row (404), owner (403), status (400). */
  function OwnerCheck(rows: map<Id, Donation>, caller: Identity, id: Id, action: OwnerAction): (g: Option<Error>)
    ensures g.None? <==>
              caller.userType == DONOR && id in rows && rows[id].donorId == caller.id && rows[id].status == action.Required()
    ensures caller.userType != DONOR ==> g == Some(Forbidden(action.RoleDenied()))
    ensures caller.userType == DONOR && id !in rows ==> g == Some(NotFound(NOT_FOUND))
    ensures caller.userType == DONOR && id in rows && rows[id].donorId != caller.id ==> g == Some(Forbidden(NOT_OWNER))
    ensures g.Some? && g.value.BadRequest? ==>
              id in rows && g.value.message == action.StatusRejected(rows[id].status) && rows[id].status != action.Required()
    ensures caller.userType == DONOR && id in rows && rows[id].donorId == caller.id && rows[id].status != action.Required()
            ==> g == Some(BadRequest(action.StatusRejected(rows[id].status)))
  {
    if caller.userType != DONOR then Some(Forbidden(action.RoleDenied()))
    else if id !in rows then Some(NotFound(NOT_FOUND))
    else if rows[id].donorId != caller.id then Some(Forbidden(NOT_OWNER))
    else if rows[id].status != action.Required() then Some(BadRequest(action.StatusRejected(rows[id].status)))
    else None
  }

  /** The checks of claim: role (403), row (404), status (400), then self-claim (400). */
  function ClaimCheck(rows: map<Id, Donation>, caller: Identity, id: Id): (g: Option<Error>)
    ensures g.None? <==>
              caller.userType == ORGANIZATION && id in rows && rows[id].status == Available && rows[id].donorId != caller.id
    ensures caller.userType != ORGANIZATION ==> g == Some(Forbidden("Access denied. Only organizations can claim donations."))
    ensures caller.userType == ORGANIZATION && id !in rows ==> g == Some(NotFound(NOT_FOUND))
    ensures caller.userType == ORGANIZATION && id in rows && rows[id].status != Available
            ==> g == Some(BadRequest("Donation is already " + StatusName(rows[id].status) + ". Cannot claim."))
    ensures caller.userType == ORGANIZATION && id in rows && rows[id].status == Available && rows[id].donorId == caller.id
            ==> g == Some(BadRequest("An organization cannot claim a donation from itself."))
  {
    if caller.userType != ORGANIZATION then Some(Forbidden("Access denied. Only organizations can claim donations."))
    else if id !in rows then Some(NotFound(NOT_FOUND))
    else if rows[id].status != Available then
      Some(BadRequest("Donation is already " + StatusName(rows[id].status) + ". Cannot claim."))
    else if rows[id].donorId == caller.id then Some(BadRequest("An organization cannot claim a donation from itself."))
    else None
  }

  /** A successful claim cannot be repeated: the next claim of the same
      donation, by any organization, is refused naming status pending. */
  lemma ClaimNotRepeatable(rows: map<Id, Donation>, first: Identity, second: Identity, id: Id, now: nat)
    requires ClaimCheck(rows, first, id).None?
    requires second.userType == ORGANIZATION
    ensures ClaimCheck(rows[id := ClaimedRow(rows[id], first.id, now)], second, id)
            == Some(BadRequest("Donation is already pending. Cannot claim."))
  {
    ClaimRejectedText();
  }

  /** The claim refusals spelled out for the two statuses a claimed donation can have. */
  lemma ClaimRejectedText()
    ensures "Donation is already " + StatusName(Pending) + ". Cannot claim." == "Donation is already pending. Cannot claim."
    ensures "Donation is already " + StatusName(Fulfilled) + ". Cannot claim." == "Donation is already fulfilled. Cannot claim."
  {
    assert "Donation is already " + "pending" + ". Cannot claim." == "Donation is already pending. Cannot claim.";
    assert "Donation is already " + "fulfilled" + ". Cannot claim." == "Donation is already fulfilled. Cannot claim.";
  }

  // ---------------------------------------------------------------------
  // Reads: GET / and GET /:id
  // ---------------------------------------------------------------------

  /** The rows a caller's list shows: an organization sees what it could
      claim, a donor sees its own donations. */
  predicate Visible(caller: Identity, d: Donation)
  {
    if caller.userType == ORGANIZATION then d.status == Available else d.donorId == caller.id
  }

  /** `k` comes first in `ORDER BY created_at DESC` (ties go to the smaller key). */
  predicate IsNewest(rows: map<Id, Donation>, k: Id)
    requires k in rows
  {
    forall j :: j in rows ==>
      rows[j].createdAt < rows[k].createdAt || (rows[j].createdAt == rows[k].createdAt && k <= j)
  }

  lemma {:induction false} Newest(rows: map<Id, Donation>) returns (k: Id)
    requires rows.Keys != {}
    ensures k in rows && IsNewest(rows, k)
    decreases rows.Keys
  {
    var x :| x in rows;
    if rows.Keys == {x} {
      return x;
    }
    var rest := rows - {x};
    assert rest.Keys == rows.Keys - {x};
    var m := Newest(rest);
    k := if rows[x].createdAt > rows[m].createdAt || (rows[x].createdAt == rows[m].createdAt && x < m) then x else m;
    forall j | j in rows
      ensures rows[j].createdAt < rows[k].createdAt || (rows[j].createdAt == rows[k].createdAt && k <= j)
    {
      if j != x {
        assert j in rest;
      }
    }
  }

  lemma NewestExists(rows: map<Id, Donation>)
    requires rows.Keys != {}
    ensures exists k :: k in rows && IsNewest(rows, k)
  {
    var k := Newest(rows);
  }

  /** `ks` lists every key of `rows` exactly once, newest first. */
  ghost predicate ListsNewestFirst(rows: map<Id, Donation>, ks: seq<Id>)
  {
    && |ks| == |rows|
    && (forall i :: 0 <= i < |ks| ==> ks[i] in rows)
    && (forall k :: k in rows ==> k in ks)
    && (forall i, j :: 0 <= i < j < |ks| ==> ks[i] != ks[j])
    && (forall i, j :: 0 <= i < j < |ks| ==> rows[ks[j]].createdAt <= rows[ks[i]].createdAt)
  }

  /** Putting the newest key in front of a listing of the other keys lists them all. */
  lemma ListsNewestFirstCons(rows: map<Id, Donation>, k: Id, rest: seq<Id>)
    requires k in rows && IsNewest(rows, k)
    requires ListsNewestFirst(rows - {k}, rest)
    ensures ListsNewestFirst(rows, [k] + rest)
  {
    var others := rows - {k};
    assert others.Keys == rows.Keys - {k};
    ConsCovers(rows, k, rest);
    ConsOrdered(rows, k, rest);
  }

  lemma ConsCovers(rows: map<Id, Donation>, k: Id, rest: seq<Id>)
    requires k in rows
    requires forall i :: 0 <= i < |rest| ==> rest[i] in rows - {k}
    requires forall q :: q in rows - {k} ==> q in rest
    ensures forall i :: 0 <= i < |[k] + rest| ==> ([k] + rest)[i] in rows
    ensures forall q :: q in rows ==> q in [k] + rest
  {
    var ks := [k] + rest;
    forall i | 0 <= i < |ks|
      ensures ks[i] in rows
    {
      if i > 0 { assert ks[i] == rest[i - 1]; }
    }
    forall q | q in rows
      ensures q in ks
    {
      if q != k {
        assert q in rows - {k};
      }
    }
  }

  lemma ConsOrdered(rows: map<Id, Donation>, k: Id, rest: seq<Id>)
    requires k in rows && IsNewest(rows, k)
    requires forall i :: 0 <= i < |rest| ==> rest[i] in rows - {k}
    requires forall i, j :: 0 <= i < j < |rest| ==> rest[i] != rest[j]
    requires forall i, j :: 0 <= i < j < |rest| ==> (rows - {k})[rest[j]].createdAt <= (rows - {k})[rest[i]].createdAt
    ensures forall i, j :: 0 <= i < j < |[k] + rest| ==> ([k] + rest)[i] != ([k] + rest)[j]
    ensures forall i, j :: 0 <= i < j < |[k] + rest| ==> rows[([k] + rest)[j]].createdAt <= rows[([k] + rest)[i]].createdAt
  {
    var ks := [k] + rest;
    forall i, j | 0 <= i < j < |ks|
      ensures ks[i] != ks[j] && rows[ks[j]].createdAt <= rows[ks[i]].createdAt
    {
      assert ks[j] == rest[j - 1] && ks[j] in rows - {k};
      if i > 0 {
        assert ks[i] == rest[i - 1] && ks[i] in rows - {k};
      }
    }
  }

  /** The keys of `rows`, each once, newest first. */
  function NewestFirst(rows: map<Id, Donation>): (ks: seq<Id>)
    ensures ListsNewestFirst(rows, ks)
    decreases rows.Keys
  {
    if rows.Keys == {} then []
    else
      NewestExists(rows);
      var k :| k in rows && IsNewest(rows, k);
      var rest := NewestFirst(rows - {k});
      ListsNewestFirstCons(rows, k, rest);
      [k] + rest
  }

  /** The rows a caller's list is drawn from. */
  function Shown(rows: map<Id, Donation>, caller: Identity): (m: map<Id, Donation>)
    ensures forall k :: k in m <==> k in rows && Visible(caller, rows[k])
    ensures forall k :: k in m ==> m[k] == rows[k]
  {
    map k | k in rows && Visible(caller, rows[k]) :: rows[k]
  }

  /** The rows under the keys `ks`, in that order. */
  function RowsAt(m: map<Id, Donation>, ks: seq<Id>): (ds: seq<Donation>)
    requires forall i :: 0 <= i < |ks| ==> ks[i] in m
    ensures |ds| == |ks| && forall i :: 0 <= i < |ks| ==> ds[i] == m[ks[i]]
  {
    seq(|ks|, i requires 0 <= i < |ks| => m[ks[i]])
  }

  /** What a listing drawn from `Shown` in newest-first key order guarantees. */
  lemma ListingFacts(rows: map<Id, Donation>, caller: Identity, ks: seq<Id>)
    requires ListsNewestFirst(Shown(rows, caller), ks)
    ensures var ds := RowsAt(Shown(rows, caller), ks);
      && (forall i :: 0 <= i < |ds| ==> ds[i] in rows.Values && Visible(caller, ds[i]))
      && (forall k :: k in rows && Visible(caller, rows[k]) ==> rows[k] in ds)
      && (forall i, j :: 0 <= i < j < |ds| ==> ds[j].createdAt <= ds[i].createdAt)
  {
    var shown := Shown(rows, caller);
    var ds := RowsAt(shown, ks);
    forall i | 0 <= i < |ds|
      ensures ds[i] in rows.Values && Visible(caller, ds[i])
    {
      assert ks[i] in shown && ds[i] == rows[ks[i]];
    }
    forall k | k in rows && Visible(caller, rows[k])
      ensures rows[k] in ds
    {
      assert k in shown;
      var i :| 0 <= i < |ks| && ks[i] == k;
      assert ds[i] == rows[k];
    }
  }

  /** `GET /`: an organization gets exactly the available rows, a donor
      exactly its own, each once and newest first; any other role gets 403. */
  function ListDonations(rows: map<Id, Donation>, caller: Identity): (r: Response<seq<Donation>>)
    ensures r.Err? <==> caller.userType != ORGANIZATION && caller.userType != DONOR
    ensures r.Err? ==> r.error == Forbidden("Access denied. Invalid user type.")
    ensures r.Ok? ==> r.code == 200 && |r.value| == |Shown(rows, caller)|
    ensures r.Ok? ==> exists ks :: ListsNewestFirst(Shown(rows, caller), ks) && r.value == RowsAt(Shown(rows, caller), ks)
    ensures r.Ok? ==> forall i :: 0 <= i < |r.value| ==> r.value[i] in rows.Values && Visible(caller, r.value[i])
    ensures r.Ok? ==> forall k :: k in rows && Visible(caller, rows[k]) ==> rows[k] in r.value
    ensures r.Ok? ==> forall i, j :: 0 <= i < j < |r.value| ==> r.value[j].createdAt <= r.value[i].createdAt
  {
    if caller.userType != ORGANIZATION && caller.userType != DONOR then
      Err(Forbidden("Access denied. Invalid user type."))
    else
      var ks := NewestFirst(Shown(rows, caller));
      ListingFacts(rows, caller, ks);
      Ok(200, RowsAt(Shown(rows, caller), ks))
  }

  /** `GET /:id`: 404 for a missing row (before any ownership check), 403 for
      a donor who does not own it; every other caller may read any row. */
  function GetDonation(rows: map<Id, Donation>, caller: Identity, id: Id): (r: Response<Donation>)
    ensures r.Ok? <==> id in rows && (caller.userType == DONOR ==> rows[id].donorId == caller.id)
    ensures r.Ok? ==> r == Ok(200, rows[id])
    ensures id !in rows ==> r == Err(NotFound(NOT_FOUND))
    ensures id in rows && r.Err? ==> r == Err(Forbidden("Access denied."))
  {
    if id !in rows then Err(NotFound(NOT_FOUND))
    else if caller.userType == DONOR && rows[id].donorId != caller.id then Err(Forbidden("Access denied."))
    else Ok(200, rows[id])
  }

  // ---------------------------------------------------------------------
  // Writes: POST /, PUT /:id, DELETE /:id, PATCH /:id/claim, PATCH /:id/fulfill
  // ---------------------------------------------------------------------

  /** The `food_donations` table. */
  class DonationTable {
    var rows: map<Id, Donation>
    var nextId: Id
    var clock: nat

    ghost predicate Valid()
      reads this
    {
      forall k :: k in rows ==>
        && k < nextId && rows[k].id == k
        && rows[k].createdAt <= rows[k].updatedAt <= clock
        && Consistent(rows[k])
    }

    constructor ()
      ensures Valid() && rows == map[]
    {
      rows, nextId, clock := map[], 0, 0;
    }

    /** `POST /`. */
    method Create(caller: Identity, input: DonationInput) returns (r: Response<Donation>)
      requires Valid()
      modifies this
      ensures Valid() && Evolves(old(rows), rows)
      ensures CreateCheck(caller, input).Some? ==> r == Err(CreateCheck(caller, input).value) && unchanged(this)
      ensures CreateCheck(caller, input).None? ==>
                && old(nextId) !in old(rows)
                && nextId == old(nextId) + 1 && clock == old(clock) + 1
                && rows == old(rows)[old(nextId) := NewDonation(old(nextId), caller.id, input, clock)]
                && r == Ok(201, rows[old(nextId)])
    {
      var check := CreateCheck(caller, input);
      if check.Some? {
        return Err(check.value);
      }
      var id := nextId;
      clock := clock + 1;
      var d := NewDonation(id, caller.id, input, clock);
      rows := rows[id := d];
      nextId := nextId + 1;
      r := Ok(201, d);
    }

    /** `PUT /:id`: merge the supplied descriptive fields into an available row the caller owns. */
    method Update(caller: Identity, id: Id, input: DonationInput) returns (r: Response<Donation>)
      requires Valid()
      modifies this
      ensures Valid() && Evolves(old(rows), rows)
      ensures OwnerCheck(old(rows), caller, id, UpdateAction).Some? ==>
                r == Err(OwnerCheck(old(rows), caller, id, UpdateAction).value) && unchanged(this)
      ensures OwnerCheck(old(rows), caller, id, UpdateAction).None? ==>
                && nextId == old(nextId) && clock == old(clock) + 1
                && rows == old(rows)[id := MergedRow(old(rows)[id], input, clock)]
                && r == Ok(200, rows[id])
    {
      var check := OwnerCheck(rows, caller, id, UpdateAction);
      if check.Some? {
        return Err(check.value);
      }
      clock := clock + 1;
      var d := MergedRow(rows[id], input, clock);
      rows := rows[id := d];
      r := Ok(200, d);
    }

    /** `DELETE /:id`: cancel, not remove, an available row the caller owns. */
    method Cancel(caller: Identity, id: Id) returns (r: Response<string>)
      requires Valid()
      modifies this
      ensures Valid() && Evolves(old(rows), rows) && rows.Keys == old(rows).Keys
      ensures OwnerCheck(old(rows), caller, id, CancelAction).Some? ==>
                r == Err(OwnerCheck(old(rows), caller, id, CancelAction).value) && unchanged(this)
      ensures OwnerCheck(old(rows), caller, id, CancelAction).None? ==>
                && nextId == old(nextId) && clock == old(clock) + 1
                && rows == old(rows)[id := CancelledRow(old(rows)[id], clock)]
                && r == Ok(200, "Donation successfully cancelled.")
    {
      var check := OwnerCheck(rows, caller, id, CancelAction);
      if check.Some? {
        return Err(check.value);
      }
      clock := clock + 1;
      rows := rows[id := CancelledRow(rows[id], clock)];
      r := Ok(200, "Donation successfully cancelled.");
    }

    /** `PATCH /:id/claim`: an organization takes an available row it does not own. */
    method Claim(caller: Identity, id: Id) returns (r: Response<Donation>)
      requires Valid()
      modifies this
      ensures Valid() && Evolves(old(rows), rows) && rows.Keys == old(rows).Keys
      ensures ClaimCheck(old(rows), caller, id).Some? ==>
                r == Err(ClaimCheck(old(rows), caller, id).value) && unchanged(this)
      ensures ClaimCheck(old(rows), caller, id).None? ==>
                && nextId == old(nextId) && clock == old(clock) + 1
                && rows == old(rows)[id := ClaimedRow(old(rows)[id], caller.id, clock)]
                && r == Ok(200, rows[id])
    {
      var check := ClaimCheck(rows, caller, id);
      if check.Some? {
        return Err(check.value);
      }
      clock := clock + 1;
      var d := ClaimedRow(rows[id], caller.id, clock);
      rows := rows[id := d];
      r := Ok(200, d);
    }

    /** `PATCH /:id/fulfill`: the owner confirms the pickup of a pending row. */
    method Fulfill(caller: Identity, id: Id) returns (r: Response<string>)
      requires Valid()
      modifies this
      ensures Valid() && Evolves(old(rows), rows) && rows.Keys == old(rows).Keys
      ensures OwnerCheck(old(rows), caller, id, FulfillAction).Some? ==>
                r == Err(OwnerCheck(old(rows), caller, id, FulfillAction).value) && unchanged(this)
      ensures OwnerCheck(old(rows), caller, id, FulfillAction).None? ==>
                && nextId == old(nextId) && clock == old(clock) + 1
                && rows == old(rows)[id := FulfilledRow(old(rows)[id], clock)]
                && r == Ok(200, "Donation successfully fulfilled.")
    {
      var check := OwnerCheck(rows, caller, id, FulfillAction);
      if check.Some? {
        return Err(check.value);
      }
      clock := clock + 1;
      rows := rows[id := FulfilledRow(rows[id], clock)];
      r := Ok(200, "Donation successfully fulfilled.");
    }
  }

  /** A donor creates a donation, one organization claims it, the donor
      confirms it; a second organization's claim is then refused naming
      status fulfilled. */
  method LifecycleScenario(donor: Id, first: Id, second: Id, input: DonationInput) returns (last: Response<Donation>)
    requires donor != first
    requires CreateCheck(Identity(donor, DONOR), input).None?
    ensures last == Err(BadRequest("Donation is already fulfilled. Cannot claim."))
  {
    var table := new DonationTable();
    var created := table.Create(Identity(donor, DONOR), input);
    var id := created.value.id;
    var claimed := table.Claim(Identity(first, ORGANIZATION), id);
    assert claimed.value.status == Pending && claimed.value.organizationId == Some(first);
    var fulfilled := table.Fulfill(Identity(donor, DONOR), id);
    assert fulfilled.Ok? && table.rows[id].organizationId == Some(first);
    last := table.Claim(Identity(second, ORGANIZATION), id);
    ClaimRejectedText();
  }

  /** Two claims in a row on the same available donation: the first
      succeeds, the second is refused naming status pending. */
  method ClaimTwice(table: DonationTable, org: Identity, id: Id) returns (first: Response<Donation>, second: Response<Donation>)
    requires table.Valid() && ClaimCheck(table.rows, org, id).None?
    modifies table
    ensures first.Ok? && first.value.organizationId == Some(org.id)
    ensures second == Err(BadRequest("Donation is already pending. Cannot claim."))
  {
    first := table.Claim(org, id);
    second := table.Claim(org, id);
    ClaimRejectedText();
  }
}
