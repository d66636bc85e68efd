# ShareMyThali backend: authorization and donation lifecycle in Dafny

ShareMyThali is a food-donation marketplace. Donors list surplus food and
organizations claim and collect it. Its backend is a REST API over three
tables: `users`, `organization_profiles` and `food_donations`. This project
models the rules that API enforces:

- **Bearer-token guard** (`AuthMiddleware`). It reads the `Authorization`
  header, takes the token after `"Bearer "`, asks the verifier for the
  identity and either admits the request or answers 401.
- **Registration and login** (`Auth`). Register validates the body, keeps
  emails unique and stores only the password hash. Login answers an unknown
  email and a wrong password with the same 401 and issues a token carrying
  `{ id, user_type }` with a one-day lifetime.
- **Donation lifecycle** (`Donations`). A donation is `available`, `pending`,
  `fulfilled` or `cancelled`. Create checks the role and then the required
  fields. Update, cancel and fulfill check role, existence, ownership and
  status, in that order. Claim checks role, existence and status, and then
  refuses a claim of the caller's own donation. Each of them writes at most
  one row, after its checks. List and get are read-only.
- **Profiles** (`Profiles`). GET spreads the organization-profile columns
  over the user columns. PUT does a COALESCE merge into `users` and, for an
  organization that supplied an org field, an upsert into
  `organization_profiles`.

Each table is a class holding a `map` from key to row. `users` and
`food_donations` also hold a key counter and a counter clock for
`created_at` and `updated_at`. `organization_profiles` is keyed by the
user's id and holds neither. Each handler is one
atomic method or function. The caller's decoded identity is an input.
`Http` holds the shared types:
- `Field<T>` for a body field: `Absent`, `Null` or `Given(v)`.
- `Param` for the value SQL receives; `undefined` and `null` both become NULL.
- `Coalesce` for SQL `COALESCE`.
- `Error` and `Response` for the replies. Each error carries the source's
  exact message text.

The table invariant `DonationTable.Valid` holds after every handler. It says
that a donation records an organization exactly while it is `pending` or
`fulfilled`, and that this organization is never the donor. `Evolves` is
the two-state property every donation handler keeps:
- no row is removed;
- each status takes at most one step of available→pending,
  available→cancelled or pending→fulfilled, so nothing returns to
  `available`;
- owner, creation time and a recorded organization never change.

Three behaviours of the code are worth noting:
- A state conflict on a donation (a wrong status, a claim of one's own donation) is answered with 400; the only 409 is for a taken email.
- `GET /:id` lets every caller that is not a donor read any row, whatever its
  user type.
- `PUT /me` treats an org field sent as `null` as supplied, so it still
  creates an org row.

## Model

| member | source | states |
|---|---|---|
| `AuthMiddleware.Split` | api/middleware/authMiddleware.ts:17 | `split(' ')` always yields at least one piece and no piece contains the separator |
| `AuthMiddleware.TakeUntil` | api/middleware/authMiddleware.ts:17 | the result is the longest prefix free of the separator: a prefix without it, followed by the separator or the end |
| `AuthMiddleware.BearerSplit` | api/middleware/authMiddleware.ts:13-17 | a header starting with "Bearer " splits into at least two pieces, and the second runs from after the prefix to the next space |
| `AuthMiddleware.TokenOf` | api/middleware/authMiddleware.ts:17 | the token handed to `jwt.verify` is the text after "Bearer " up to the next space, and holds no space |
| `AuthMiddleware.Authenticate` | api/middleware/authMiddleware.ts:10-28 | admits exactly when the header is present, starts with "Bearer " and the verifier accepts the token, and then carries the decoded identity. Every refusal is 401: "No token provided." for a missing or wrong-scheme header, "Invalid token." when verification fails |
| `AuthMiddleware.TokenRoundTrip` | api/middleware/authMiddleware.ts:13-17 | for any token without spaces, the header "Bearer " + token hands back exactly that token |
| `AuthMiddleware.ExtraSpaceGivesEmptyToken` | api/middleware/authMiddleware.ts:17 | "Bearer  x" (two spaces) hands the verifier the empty string |
| `AuthMiddleware.WrongSchemeIsMissingToken` | api/middleware/authMiddleware.ts:13-15 | a header without the exact "Bearer " prefix gets the same reply as no header |
| `Auth.FindByEmail` | api/routes/auth.ts:59-63 | the email lookup finds a row with that email exactly when one exists, the least key if there are several |
| `Auth.RegisterCheck` | api/routes/auth.ts:13-25 | registration passes exactly when all four fields are truthy, user_type is donor or organization and the email is unused. A missing field gives 400 "All fields are required." before anything else. With all fields present, a user_type other than donor or organization gives 400 "Invalid user type.". 409 comes exactly when the fields are valid and the email is taken |
| `Auth.UserTable.Register` | api/routes/auth.ts:9-50 | on a failed check, answers with its error and changes nothing. Otherwise it adds exactly one row under a fresh key holding the hash of the password, answers 201 with id, email, name and user_type only, and keeps emails unique |
| `Auth.Login` | api/routes/auth.ts:52-96 | a missing email or password gives 400, and every other failure gives the same 401 "Invalid credentials.". Success means a row with that email whose hash matches, and the reply carries a token with that row's id and user_type, lifetime "1d", and the public fields only. With unique emails, a matching row always succeeds |
| `Auth.NoUserExistenceLeak` | api/routes/auth.ts:66-74 | a wrong password for an existing email gets exactly the reply an unknown email gets |
| `Auth.RegisterThenLogin` | api/routes/auth.ts:27-90 | after a successful registration, logging in with the same email and password returns a token for the new row's id and user_type |
| `Auth.RegisterTwiceConflicts` | api/routes/auth.ts:21-25 | once an email is stored, registering it again with otherwise valid fields gives 409 |
| `Donations.NoReturnToAvailable` | api/routes/donations.ts:162 | no lifecycle step leads into `available` from another status |
| `Donations.TerminalStatuses` | api/routes/donations.ts:158-162 | `fulfilled` and `cancelled` never change |
| `Donations.NewDonation` | api/routes/donations.ts:26-30 | a created row belongs to the caller, is `available` and has no organization |
| `Donations.MergedRow` | api/routes/donations.ts:116-127 | each descriptive column (title, description, quantity, address, latitude, longitude, expiry) takes the supplied value when one is given, and keeps the stored value when the field is absent or null. Id, donor, organization, status and creation time are kept. A body that is all absent, or all null, changes nothing but `updated_at` |
| `Donations.MergeIdempotent` | api/routes/donations.ts:116-127 | applying the same PUT body twice gives the same row as applying it once |
| `Donations.CancelledRow` | api/routes/donations.ts:162 | cancelling sets status `cancelled` and changes no column except `updated_at` |
| `Donations.ClaimedRow` | api/routes/donations.ts:194-197 | claiming sets status `pending` and the organization to the caller, and changes nothing else except `updated_at` |
| `Donations.FulfilledRow` | api/routes/donations.ts:232 | fulfilling sets status `fulfilled` and leaves the organization set by the claim |
| `Donations.CreateCheck` | api/routes/donations.ts:16-22 | create passes exactly for a donor whose title, address and quantity are non-empty and whose coordinates are non-zero. A non-donor gets 403 first, anything else 400 |
| `Donations.OwnerCheck` | api/routes/donations.ts:98-114 | update, cancel and fulfill pass exactly for the owning donor of an existing row in the required status (`available`, or `pending` for fulfill). In order: a non-donor gets 403, a missing row 404, a non-owner 403, and the owner of a row in the wrong status gets 400 naming the current status |
| `Donations.ClaimCheck` | api/routes/donations.ts:176-192 | claim passes exactly for an organization on an existing available row it does not own. In order: a non-organization gets 403, a missing row 404, a non-available row 400 naming its status, and only then a claim of the caller's own available row 400 "An organization cannot claim a donation from itself." |
| `Donations.ClaimNotRepeatable` | api/routes/donations.ts:187-197 | after a successful claim, any organization's next claim on that donation gets 400 "Donation is already pending. Cannot claim." |
| `Donations.NewestFirst` | api/routes/donations.ts:52-55 | lists every key of the table exactly once, in non-increasing `created_at` order |
| `Donations.ListDonations` | api/routes/donations.ts:43-68 | an organization gets exactly the available rows and a donor exactly its own, as many as there are, newest first. The list is the visible rows taken in a newest-first order of their keys, so each visible row appears once. Any other user type gets 403 |
| `Donations.GetDonation` | api/routes/donations.ts:70-91 | succeeds with the row exactly when it exists and the caller is not a donor or owns it. A missing row gives 404 before any ownership check; a non-owning donor gets 403 |
| `Donations.DonationTable.Create` | api/routes/donations.ts:11-41 | on a failed check, answers with its error and changes nothing. Otherwise it inserts one row under a fresh key, answers 201 with it, and keeps `Valid` and `Evolves` |
| `Donations.DonationTable.Update` | api/routes/donations.ts:93-138 | on a failed check, answers with its error and changes nothing. Otherwise only that row becomes its COALESCE merge with the body, answered with 200 |
| `Donations.DonationTable.Cancel` | api/routes/donations.ts:140-170 | on a failed check, answers with its error and changes nothing. Otherwise the row stays in the table with status `cancelled` and nothing else changes |
| `Donations.DonationTable.Claim` | api/routes/donations.ts:172-208 | on a failed check, answers with its error and changes nothing. Otherwise only that row becomes `pending` with the caller as its organization |
| `Donations.DonationTable.Fulfill` | api/routes/donations.ts:210-240 | on a failed check, answers with its error and changes nothing. Otherwise only that row becomes `fulfilled` |
| `Donations.LifecycleScenario` | api/routes/donations.ts:172-240 | after a create, a claim by one organization and the donor's fulfill, a further claim, by any organization, even one with the donor's id, gets 400 "Donation is already fulfilled. Cannot claim." |
| `Donations.ClaimTwice` | api/routes/donations.ts:181-197 | two claims in sequence on an available donation: the first succeeds and records the caller, the second gets 400 naming status pending |
| `Http.Coalesce` | api/routes/profiles.ts:63-70 | a NULL parameter keeps the stored value and a present one replaces it |
| `Http.CoalesceNullable` | api/routes/profiles.ts:79-86 | the same merge for a nullable column |
| `Profiles.UserJson` | api/routes/profiles.ts:21-24 | the user part of a profile has exactly the six selected columns |
| `Profiles.OrgJson` | api/routes/profiles.ts:35-38 | the org part has exactly the six selected columns |
| `Profiles.ColumnsApart` | api/routes/profiles.ts:21-38 | no selected column is the password hash, and the user and org columns are disjoint |
| `Profiles.Overlay` | api/routes/profiles.ts:31-41 | `{ ...user, ...org }` holds both column sets, each with its own table's values |
| `Profiles.GetProfile` | api/routes/profiles.ts:15-50 | a missing user row gives 404. Otherwise the body has exactly the six user columns, plus the six org columns when the caller is an organization with an org row, and never `password_hash` |
| `Profiles.UpdatedUser` | api/routes/profiles.ts:63-70 | name and phone number take the supplied value when one is given and keep the stored value when the field is absent or null. Nothing else changes except `updated_at` |
| `Profiles.Upserted` | api/routes/profiles.ts:79-88 | a new org row holds each supplied value and NULL for every absent or null field, and starts unverified. An existing row takes each supplied value, keeps its stored value for every absent or null field, and keeps its verification flag |
| `Profiles.OrgProfileTable.Upsert` | api/routes/profiles.ts:78-88 | the caller's org row becomes the upsert of its previous row, if any, with the body; other rows stay |
| `Profiles.UpdateProfile` | api/routes/profiles.ts:56-98 | always answers 200. It merges name and phone into the caller's user row only if that row exists. It upserts the org row exactly when the caller is an organization that sent at least one org field other than `undefined`; otherwise no org row changes |
| `Profiles.NameOnlyUpdate` | api/routes/profiles.ts:63-77 | a body with only a name changes the name and nothing else, and does not reach the org upsert |
| `Profiles.NullOrgFieldsUpsert` | api/routes/profiles.ts:73-88 | org fields that are all explicitly null pass the guard: an all-NULL row is created when none exists, and an existing row is left as it was |
| `Profiles.UpdateThenGet` | api/routes/profiles.ts:15-88 | a profile read after an organization's update shows the merged name and phone, and all six org columns as the upserted row holds them |

## Left out

- Express wiring, the pg connection pool and every 500 reply: these come from database or driver failures, and the model has none.
- The foreign key from `organization_profiles.user_id` to `users` is not in the source, so it is not modelled. With it, an upsert for a caller without a user row would fail with 500. The model writes the org row.
- The UNIQUE constraint on `users.email` is not in the source either. `UserTable.Valid` keeps emails unique because `Register` checks them, and `FindByEmail` takes the least key if duplicates exist.
- These column defaults are not visible in the source and are assumed: a new donation is `available` with a NULL `organization_id`, and a new org row has `is_verified` false.
- Concurrency is not modelled: each handler is atomic. The read-then-write race between two concurrent claims cannot occur in the model.
- Timestamps are a per-table counter clock, used only for ordering. Newest-first ties on `created_at` break towards the smaller key, where PostgreSQL leaves their order unspecified.
- Body fields are typed. A value of the wrong JSON type (a number as title, a string as latitude) and a NaN coordinate are not modelled. Truthiness is `Filled` for strings and `NonZero` for numbers.
- bcrypt is a pair of functions, `hash(password, salt)` and `matches`. Its cost factor is not modelled, and its random salt is an input. The only property relied on is `Auth.Sound`: a password matches its own hash.
- jsonwebtoken is not modelled. Signing produces the claims and the "1d" lifetime as a value. Verification is an arbitrary partial function handed to the middleware, so expiry, signatures and the link between a signed token and what verification accepts are not modelled.
- Error replies keep the source's message text, but the JSON envelope around it (`{ message }`) is not modelled. Success replies carry only their payload.
- Request parameters that are not valid keys (a non-numeric `:id`) are not modelled. They end in a database error, which is a 500.
