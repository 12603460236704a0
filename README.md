# Massage booking backend — a verified model of its API core

This project models the server side of a massage-booking platform. The platform is a set of
Next.js API routes over a Prisma database. The model covers:

- the booking route: guards, the interval-overlap check against the provider's non-cancelled
  bookings, the insert, and the filtered, date-ordered list;
- the access gate (middleware): it protects paths by prefix and turns a verified session token
  into identity headers;
- login: the credential check, the token claims and the cookie;
- service creation;
- the image-upload rules and the public-URL helper;
- the provider gallery;
- client, administrator and service-provider registration;
- the provider list.

The database is a class `Tables.Store` with one sequence per table and one autoincrement
counter per table. Its `Valid()` states what the schema guarantees:

- ids lie below their counter, and user ids are distinct;
- foreign keys resolve;
- e-mail addresses are unique;
- each user has at most one provider profile.

Each route that writes is a module-level method that takes the store. Only the `Create*`
inserts are methods of `Store` itself. Each route method states every reply in guard order,
the exact row it appends and the new value of the id counter, and that nothing changes on
failure. Each read is a function on the table contents.

The central property is `Schedule.AdmitKeepsDisjoint`. If no two non-cancelled bookings of a
provider overlap, and the route's check admits a new booking, then that still holds after the
append. `Bookings.PostBooking` carries this as a postcondition.

A booking's end time comes from the **current** duration of its service (a join made when the
check runs). Nothing stored on the booking fixes it. `Services.PostService` is proved to keep
the invariant. `Schedule.LiveJoinDrift` shows that changing a service's duration could break
the invariant. Such a change happens only in a route outside this model.

The gate lives at `src/app/middleware.js`. Next.js loads middleware only from the project root
or from `src/middleware.js`, so as the repository is laid out the gate probably never runs, and
the identity headers the routes trust are then whatever the client sends. The model states what
the gate does when it runs.

The gate copies the incoming headers and overwrites only the identity headers it derives.
`Gate.Middleware` states that every other header keeps the caller's value. This includes
`x-service-provider-id` when the token carries no provider claim. The gate writes the header
values under the rules of the Fetch standard for `Headers.set`. A value with a character
outside Latin-1 or a NUL anywhere throws, and so does one with CR or LF inside it once the
surrounding HTTP whitespace is trimmed; a CR or LF at either end is trimmed away. That throw ends
in the same 401 as a bad token, so a user whose name has any character above U+00FF (a Chinese
name, say) is refused on every protected path (`Gate.NonLatinNameRefused`).
The gallery routes are outside the gate altogether (`Gate.GalleryIsUnprotected`). So the provider id they read is
whatever the caller sent.

Collaborators the model does not contain are parameters:

- the password-hash check and the password hash;
- the token signer and the token verifier;
- the `JWT_SECRET` setting;
- the clock and the random text of file names;
- the random profile color;
- the error text of a refused database insert.

Request fields arrive already parsed, as `Option` values. `None` stands for an absent or falsy
field, as each datatype's comment says.

## Model

| member | source | states |
|---|---|---|
| Common.Find | src/app/api/bookings/route.js:93-95 | A lookup by key returns a row of the table with that key, the first such row. It returns none exactly when no row has the key. |
| Common.FilterCount | src/app/api/bookings/route.js:21-22 | A `where` query keeps each row that satisfies it, as often as the table holds it, and drops every other row. |
| Common.FilterMembers | src/app/api/clients/route.js:9-12 | A row is in the query result iff it is in the table and satisfies the condition. |
| Common.SortByCorrect | src/app/api/bookings/route.js:54-56 | `orderBy ... 'asc'` returns the same rows, as a multiset, in non-decreasing key order. |
| Common.NatToString | src/app/middleware.js:26 | An id's `toString()` is a non-empty run of decimal digits with no leading zero (for ids below 10^21). |
| Common.DecimalRoundTrip | src/app/middleware.js:26 | Reading an id's decimal text back gives the id. |
| Helpers.FileExtension | src/lib/helpers.js:45 | `split('.').pop()` gives the dot-free suffix after the last dot. It gives the whole name iff the name has no dot. |
| Helpers.ImageFileNameShape | src/lib/helpers.js:43-46 | The generated file name starts with `img_` and ends with a dot and the original extension. |
| Helpers.SaveImage | src/lib/helpers.js:16-30 | A missing part, an empty text or an empty file gives null before any check. A non-empty text field sent in place of the file throws the `TypeError` of reading its missing `type`. Otherwise a non-`image/` type is rejected first, then a size above 5·1024·1024 is rejected; exactly 5 MiB passes. Each case holds iff its condition holds. A saved file gets the generated name. |
| Helpers.GetImageUrl | src/lib/helpers.js:59-62 | The URL is null iff the file name is missing or empty. Otherwise it is `/uploads/` followed by the name, and removing the prefix gives the name back. |
| Helpers.StoredImageUrl | src/lib/helpers.js:17-19 | When `saveImage` does not throw, the stored picture has a URL iff a non-empty file was sent. A saved picture is served at `/uploads/<generated name>`. |
| Schedule.CandidatesExact | src/app/api/bookings/route.js:105-111 | The conflict query returns exactly the provider's bookings whose status is not `cancelled`. |
| Schedule.ConflictIffBlockingOverlap | src/app/api/bookings/route.js:122-128 | A conflict is reported iff some non-cancelled booking of that provider overlaps `[start, end)`. |
| Schedule.NonBlockingIgnored | src/app/api/bookings/route.js:105-111 | A cancelled booking, or another provider's booking, never changes the decision. |
| Schedule.TouchingNeverOverlaps | src/app/api/bookings/route.js:127 | The comparison is strict, so intervals that only touch do not conflict. |
| Schedule.ZeroLengthRequest | src/app/api/bookings/route.js:127 | A zero-length request strictly inside a booking conflicts. One at the booking's start does not. |
| Schedule.OverlapsSymmetric | src/app/api/bookings/route.js:127 | The overlap test is symmetric in its two intervals. |
| Schedule.AdmitKeepsDisjoint | src/app/api/bookings/route.js:101-143 | Appending a booking the check admitted keeps every provider's non-cancelled bookings pairwise non-overlapping. |
| Schedule.InsertServiceKeepsEnds | src/app/api/bookings/route.js:112-124 | When every booking's service exists, appending any service leaves every booking's end time unchanged: the lookup finds the first service with the id. |
| Schedule.InsertServiceKeepsDisjoint | src/app/api/bookings/route.js:112-124 | Hence a service insert keeps the schedule disjoint. |
| Schedule.LiveJoinDrift | src/app/api/bookings/route.js:112-124 | Two back-to-back 30-minute bookings are disjoint. They overlap once the service's duration reads 45 minutes. |
| Tables.Store.CreateUser | src/app/api/clients/route.js:67-92 | The insert is refused iff the e-mail address is taken. Otherwise it appends the user with the next id and keeps the store valid. |
| Tables.Store.CreateUserWithProvider | src/app/api/signup/service-provider/route.js:52-80 | The transaction appends both a user and a provider pointing at it, or neither. It is refused iff the e-mail address is taken. |
| Tables.Store.CreateService | src/app/api/services/route.js:64-87 | The insert is refused iff the provider does not exist. Otherwise it appends the service row with the next id. |
| Tables.Store.CreateBooking | src/app/api/bookings/route.js:137-176 | The insert is refused iff the user, the service or the provider does not exist. Otherwise it appends the row; the database makes no overlap check. |
| Tables.Store.CreateImage | src/app/api/gallery-images/route.js:49-54 | The insert is refused iff the provider does not exist. Otherwise it appends the image row. |
| Bookings.PostBooking | src/app/api/bookings/route.js:66-183 | Replies 401, 403, 400 and 404 in that guard order. Replies 409 iff the slot conflicts and 500 if the insert is refused. Success holds iff every guard passes; it appends exactly one booking with status defaulting to `pending`. Nothing changes on failure, and disjointness is preserved. |
| Bookings.AdmitOutcomeKeepsDisjoint | src/app/api/bookings/route.js:122-143 | The row the route appends after an empty conflict check keeps the schedule disjoint. |
| Bookings.ListBookings | src/app/api/bookings/route.js:5-59 | The result is exactly the bookings matching the given user and provider filters, each as often as stored, in ascending date order. |
| Bookings.ListAllIsPermutation | src/app/api/bookings/route.js:11-22 | Without filters the list is a permutation of the whole table. |
| Services.PostService | src/app/api/services/route.js:31-94 | Replies 401, then 403, then 400 for a missing provider id, then 400 for a missing name, description or price. On success the row takes its provider id from the header, never the body, with duration 60 and status `active` by default. A refused insert replies 500 with the database's message. Disjointness is preserved. |
| Services.ServiceInsertOutcome | src/app/api/services/route.js:64-87 | A service insert cannot make the booking schedule overlap. |
| Gallery.GalleryRows | src/app/api/gallery-images/route.js:12-15 | The rows are exactly that provider's images, newest first. |
| Gallery.ListGallery | src/app/api/gallery-images/route.js:6-28 | Replies 401 iff the provider header is missing, and succeeds iff it is present, with the provider's images newest first, each with `url = getImageUrl(filename)`. |
| Gallery.PostGalleryImage | src/app/api/gallery-images/route.js:31-66 | Replies 401, then 400 when the part is missing or an empty text, then 400 with the upload error, a text field's `TypeError` included. A refused insert replies 500. On success it appends one row; a zero-size file stores a null filename and a null URL. |
| Clients.PostClient | src/app/api/clients/route.js:36-99 | Replies 400 for missing fields, then 400 for a taken e-mail address. Success holds iff neither applies. It appends one CLIENT user whose status defaults to `active` only when omitted. The reply has no password, and e-mail addresses stay unique. |
| Clients.ListClients | src/app/api/clients/route.js:7-28 | One record per CLIENT user, in table order, each the user without its password. So a value is listed iff it is a client's public record. |
| AdminSignup.PostAdminSignup | src/app/api/signup/admin/route.js:6-81 | Replies 400 for missing fields, then 400 for a taken e-mail address, then 400 with the upload error. Success holds iff none applies. It appends one ADMIN user whose status falls back to `active` when absent or empty. The reply has no password and shows the picture as its URL. |
| ProviderAccounts.Refusal | src/app/api/signup/service-provider/route.js:22-49 | The refusal of a registration is 400 with the message of the first failed check: fields, then e-mail address, then picture. |
| ProviderAccounts.Register | src/app/api/signup/service-provider/route.js:51-91 | Success holds iff every check passes. A SERVICE_PROVIDER user (status `active`) and its provider profile are appended together. The reply merges them, with the provider's id as `id`. |
| ProviderSignup.PostProviderSignup | src/app/api/signup/service-provider/route.js:6-97 | The same outcomes, with the merged record as `data.user`. |
| ServiceProviders.PostServiceProvider | src/app/api/service-providers/route.js:65-178 | The same outcomes, with the merged record as `data`. |
| ServiceProviders.UserOf | src/app/api/service-providers/route.js:9-24 | A provider's `user` is a user row whose id is the provider's `user_id`. |
| ServiceProviders.ListProviders | src/app/api/service-providers/route.js:6-53 | One record per provider, in table order. Each merges the provider with its user, keeps the provider's `id` and `user_id`, and drops the user's id and password. |
| ServiceProviders.ListedUserFields | src/app/api/service-providers/route.js:40-48 | With distinct user ids, each record shows its own user's e-mail address, name, role, status and picture URL. |
| Tokens.JwtSecret | src/app/api/login/route.js:43 | The secret is `JWT_SECRET` when that is set and non-empty, and `your-secret-key` otherwise. |
| Login.PostLogin | src/app/api/login/route.js:6-73 | Replies 400 iff the e-mail address or the password is missing. An unknown address and a wrong password both give the identical 401 `Invalid credentials.`. The reply is 200 iff the address is known and the password matches. On success the claims hold the user's id, e-mail address, role and name, and expire 86400 s after issue. `service_provider_id` is present iff the role is SERVICE_PROVIDER and a profile exists. The HTTP-only cookie has maxAge 86400. The returned user has no password and carries the user's provider profile, if any. |
| Gate.Middleware | src/app/middleware.js:9-47 | An unprotected path passes with its headers untouched. A missing or empty token gives 401 `Authentication required.`. An unverifiable token, or a role, e-mail address or name that `Headers.set` refuses, gives 401 `Invalid or expired token.`. Otherwise the four identity headers are set from the claims (text values normalized), and `x-service-provider-id` only when the claim is truthy. Every other header, including a client-sent provider id, keeps its value. |
| Gate.NormalizeStripsEnds | src/app/middleware.js:27-29 | A stored text header is the original with only its leading and trailing whitespace removed. |
| Gate.IdValueAccepted | src/app/middleware.js:25-34 | The decimal text of an id is always accepted and stored unchanged, so the id headers never make the gate throw. |
| Gate.NonLatinNameRefused | src/app/middleware.js:29 | Every claims value whose name has a character above U+00FF fails the header check, so by `Gate.Middleware` the request is refused with 401. |
| Gate.MatcherPathsAreProtected | src/app/middleware.js:49-51 | Every path the matcher hands to the gate is protected by the prefix test. |
| Gate.PrefixIsNotSegment | src/app/middleware.js:13 | The prefix test is textual: `/api/servicesX` counts as protected, though the matcher never selects it. |
| Gate.GalleryIsUnprotected | src/app/middleware.js:49-51 | No gallery path is protected or matched. |
| Gate.IdHeaderParses | src/app/middleware.js:26 | The id header the gate writes reads back to the claim's id. |

## Left out

- Hashing and signing are parameters, not models: bcrypt (hash and compare) and JWT signing
  and verification with HS256.
- `Login.PostLogin`: the `jwtVerify` partner of the signer is not tied to it. The model states
  the claims that are signed. It does not state that the gate will accept the token.
- Writing the uploaded file: `mkdir`, `writeFile` and the upload directory are I/O.
- `Date.now()` and the `Math.random()` text of file names are taken as parameters. The model
  does not cut the random text to 13 characters.
- `generateProfileColor` uses floating-point randomness. Its result is a parameter.
- Parsing is not modelled: `parseInt` of headers and identifiers, `parseFloat(price)` and
  `new Date(...)`. Fields arrive parsed, so a non-numeric header, or one that parses to NaN,
  is outside the model.
- `created_at` and `updated_at` are left out, except the gallery's `created_at`, which is a
  parameter. So is which table's timestamps win in the two merges that differ only there.
- The `include`/`select` joins that only shape replies are left out: a booking's user,
  provider and service; a service's provider; a provider's `services` list.
- GET `/api/services` lists the services with their provider. This is a plain read that only
  shapes its reply, so it is not modelled.
- Catch-all 500 replies that come from errors other than a refused insert are left out: JSON
  parse errors, and errors raised by the database client for other reasons.
- `Schedule.DurationOf`: it falls back to 0 for a service that does not exist. A valid store
  never uses the fallback, because bookings keep a foreign key to their service.
- `Bookings.PostBooking`: one request runs at a time. A second booking that passes its check
  between the first's check and its insert (a check-then-act race) is not modelled.
- Routes under `[id]` are not part of this model: reschedule, status change, deletion, and
  edits of a service's duration. `Schedule.LiveJoinDrift` shows why such an edit can break
  disjointness.
- `src/lib/cors.js` is not part of this model. No modelled route calls it.
- A booking's end time follows the code: it is read through the service's current duration
  when the check runs, not from a copy of the duration stored with the booking.
- Headers are a map with lower-case names. The case-insensitivity of HTTP header names is not
  modelled.
- `Gate.Middleware`: only the header values are validated. The five header names are fixed
  and valid.
- `Common.NatToString`: JavaScript writes numbers of 10^21 and more with an exponent. The model
  always writes plain digits, which matches only for ids below that.
