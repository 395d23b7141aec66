# SpendWise: authentication, password reset and per-user access rules

A Dafny model of the security-relevant core of the SpendWise expense tracker
(a Next.js application over Prisma):

- **Bearer identity** (`lib/auth.ts`): bcrypt hashing and comparison, JWT
  issue and verification with a seven-day expiry, and `getUserFromRequest`,
  which turns the `Authorization` header into a user id or nothing.
- **Password reset** (`forgot-password` and `reset-password` routes): a state
  machine over the user table (email → user) and the grant table (token →
  email and expiry). A request supersedes the email's earlier grants and
  stores a new one-hour grant. A consume validates the grant, rehashes the
  password, updates the user and then deletes the grant.
- **Expenses and categories** (`GET`/`POST` of `/api/expenses` and
  `/api/categories`): owner filtering, inclusive date bounds, newest-first
  ordering, the category-ownership check, the per-user duplicate-name check,
  and the defaults-then-own category listing.

Every handler is a pure function from the request, the context and the store
to a response and the new store. bcrypt and jsonwebtoken are datatypes of
functions (`Auth.Hasher`, `Auth.Codec`). The properties the application relies
on are ghost predicates (`SoundHasher`, `SoundCodec`, `UnforgeableCodec`) that
the lemmas take as hypotheses. The inputs are the clock (`now`, in
milliseconds), the 32 random bytes of `crypto.randomBytes`, the bcrypt salt,
the ids Prisma generates, zod's email and datetime checks, JavaScript's
`new Date(s)` (a separate input from zod's datetime check) and `NODE_ENV`.

Files: `wrappers.dfy` (Option), `seqs.dfy` (order-preserving filter),
`validation.dfy` (JSON bodies, zod checks and messages, UTF-16 length),
`http.dfy` (request, response, context), `hex.dfy` (`toString('hex')`),
`auth.dfy`, `reset.dfy`, `records.dfy` (tables), `expenses.dfy`,
`categories.dfy`.

A consequence of the code as written: a reset grant whose expiry equals `now`
is still accepted, because `reset-password/route.ts:23` rejects only
`expiresAt < now` (`PasswordReset.UnknownAndExpiredAreAlike`).

In this model handlers run one at a time, and under that assumption
supersession is exact: a second request for an email leaves the first token
useless (`PasswordReset.SecondRequestSupersedesFirst`). The code does not
guarantee this. `forgot-password/route.ts:36-46` runs `deleteMany` and then
`create` outside a transaction, so two concurrent requests for one email can
leave two grants (see "## Left out").

## Model

| member | source | states |
|---|---|---|
| Auth.HashPassword | SpendWise/lib/auth.ts:10-13 | under the bcrypt axiom, the digest made for a password compares equal to that password, whatever the salt |
| Auth.ComparePassword | SpendWise/lib/auth.ts:18-23 | `bcrypt.compare` of a password against a digest: under the bcrypt axiom it is true for any digest bcrypt made from that password, whatever the salt |
| Auth.GenerateToken | SpendWise/lib/auth.ts:28-30 | the token decodes to the claim `userId` with `iat` the issue second and `exp` seven days (604800 s) later |
| Auth.VerifyToken | SpendWise/lib/auth.ts:35-42 | yields the payload only for a well-signed token whose `exp` is after the current second; malformed, forged and expired tokens all give the one result None |
| Auth.ExpiryBoundary | SpendWise/lib/auth.ts:35-42 | a token is rejected in the very second its `exp` names |
| Auth.GetUserFromRequest | SpendWise/lib/auth.ts:47-56 | no header, or a header without the exact prefix "Bearer ", gives None; any result is non-empty and is the `userId` of the verified token after the 7-character prefix |
| Auth.BearerRoundTrip | SpendWise/lib/auth.ts:49-55 | `"Bearer " + t` resolves exactly when `t` verifies with a non-empty userId, and then to that userId |
| Auth.PrefixAloneIsRejected | SpendWise/lib/auth.ts:49-54 | the header "Bearer " alone verifies the empty token and gives None |
| Auth.IssuedTokenResolves | SpendWise/lib/auth.ts:28-55 | a generated token for `u`, sent as a bearer header, resolves to `u` exactly until the start of the second seven days after issue, and to None afterwards or when `u` is empty |
| Auth.ResolvedTokensAreIssued | SpendWise/lib/auth.ts:35-55 | with unforgeable signatures, every header that resolves to `u` carries a token signed for `u` that has not expired |
| Validation.JsLength | SpendWise/app/api/auth/reset-password/route.ts:8-11 | zod's length is in UTF-16 code units: between the number of characters and twice it, and zero only for the empty string |
| Validation.JsLengthCountsAstral | SpendWise/app/api/auth/reset-password/route.ts:10 | the length zod's `min` reads is the number of characters plus the number of characters outside the Basic Multilingual Plane, each of which UTF-16 writes as two units |
| Validation.JsLengthConcat | SpendWise/app/api/auth/reset-password/route.ts:10 | the UTF-16 length of a concatenation is the sum of the lengths |
| Validation.ThreeEmojiAreSixUnits | SpendWise/app/api/auth/reset-password/route.ts:10 | a password of three emoji is three characters but six UTF-16 units, so it passes `min(6)` |
| Validation.NullIfEmpty | SpendWise/app/api/expenses/route.ts:94 | JavaScript's `value or null` on an optional string: absent and empty strings become null, others are kept |
| Hex.ToHex | SpendWise/app/api/auth/forgot-password/route.ts:31 | the hex rendering has two lower-case hex digits per byte |
| Hex.FromToHex | SpendWise/app/api/auth/forgot-password/route.ts:31 | decoding the rendering gives the bytes back |
| Hex.ToHexInjective | SpendWise/app/api/auth/forgot-password/route.ts:31 | two byte strings give the same token exactly when they are equal |
| PasswordReset.IssuedToken | SpendWise/app/api/auth/forgot-password/route.ts:31 | the reset token is 64 lower-case hex characters |
| PasswordReset.Supersede | SpendWise/app/api/auth/forgot-password/route.ts:36-38 | after the delete the email has no grant, and every grant for another email is kept unchanged |
| PasswordReset.ParseForgot | SpendWise/app/api/auth/forgot-password/route.ts:8-15 | the body passes exactly when it is an object whose `email` is a string accepted by the email check |
| PasswordReset.ForgotPassword | SpendWise/app/api/auth/forgot-password/route.ts:12-73 | a malformed body gives 500 and an invalid one gives 400 "Validation error", both with the store unchanged; an unregistered email gets the generic 200 and nothing changes; the user table is never written; other emails' grants are untouched; every success carries the same message, and outside development no token |
| PasswordReset.ForgotIssuesSingleGrant | SpendWise/app/api/auth/forgot-password/route.ts:31-58 | for any body that parses to a registered email, extra keys included since zod drops them, and a fresh token, the email afterwards has exactly one grant, the new token, expiring `now` + 1 hour; all earlier tokens for it are gone; the token is echoed exactly in development |
| PasswordReset.ForgotKeepsOneGrantPerEmail | SpendWise/app/api/auth/forgot-password/route.ts:22-46 | if no email has two grants before a request, none has after it, in every branch |
| PasswordReset.ParseReset | SpendWise/app/api/auth/reset-password/route.ts:8-16 | the body passes exactly when `token` is a non-empty string and `password` a string of at least 6 UTF-16 units |
| PasswordReset.ResetPassword | SpendWise/app/api/auth/reset-password/route.ts:13-61 | every failure leaves the store unchanged; a malformed body gives 500 and an invalid one 400 "Validation error"; a parsed body naming a known grant with `expiresAt >= now` whose user exists succeeds; an unknown token or a grant with `expiresAt < now` gives 400 "Invalid or expired reset token"; a success needs exactly a live grant whose user exists, removes exactly that grant, and sets exactly that user's digest to the hash of the new password |
| PasswordReset.UnknownAndExpiredAreAlike | SpendWise/app/api/auth/reset-password/route.ts:19-28 | for any body that parses, whatever other keys it has, an unknown token and a grant with `expiresAt < now` give the identical 400 "Invalid or expired reset token" and change nothing; a grant expiring exactly at `now` is accepted |
| PasswordReset.ResetRewritesOnlyItsUser | SpendWise/app/api/auth/reset-password/route.ts:30-42 | for any body that parses, after a success the new password compares equal to the user's stored digest; the user keeps its id; other users and other grants are unchanged; the used token is gone |
| PasswordReset.FailedUpdateKeepsGrant | SpendWise/app/api/auth/reset-password/route.ts:33-42 | the update runs before the delete: when the grant's user is missing, the answer is 500 and the grant is still stored |
| PasswordReset.GrantsAreSingleUse | SpendWise/app/api/auth/reset-password/route.ts:19-42 | after a successful reset, presenting the same token again, in any body that parses, gives 400 "Invalid or expired reset token" with no change |
| PasswordReset.SecondRequestSupersedesFirst | SpendWise/app/api/auth/forgot-password/route.ts:31-46 | after a second request for the same email with different random bytes, the first token resets nothing, whatever bodies carry the requests |
| PasswordReset.RequestThenConsume | SpendWise/app/api/auth/reset-password/route.ts:19-46 | the token a request issues, used within the hour in any body that parses, resets the password to one that verifies and leaves the email with no grant |
| Records.FindCategory | SpendWise/app/api/expenses/route.ts:71-73 | finds a category with the given id exactly when the table holds one |
| Expenses.ParseQuery | SpendWise/app/api/expenses/route.ts:22-37 | each date bound applies exactly when its parameter is present and non-empty, and then is `new Date` of it; an Invalid Date bound makes the query fail; the category filter applies exactly for a non-empty `categoryId` |
| Expenses.SortNewestFirst | SpendWise/app/api/expenses/route.ts:44-46 | the result is a permutation of its input, ordered by date, newest first |
| Expenses.ListExpenses | SpendWise/app/api/expenses/route.ts:15-57 | no valid bearer gives 401 whatever the store; an Invalid Date bound gives 500; otherwise the answer is 200, newest first, holding each expense owned by the requester and within the inclusive bounds and category filter, as often as the table does, and no other |
| Expenses.ListedExpensesMatch | SpendWise/app/api/expenses/route.ts:29-37 | an expense is listed exactly when it is in the table, owned by the requester and matches the given bounds |
| Expenses.ParseExpense | SpendWise/app/api/expenses/route.ts:7-12 | the body passes exactly when amount is a positive number, description an optional string, date an optional string zod's datetime check accepts, and categoryId a non-empty string; a rejection carries the message of the first failing field in schema order (a non-object body gives "Expected object, received ..."); the parsed fields are the body's |
| Expenses.CreateExpense | SpendWise/app/api/expenses/route.ts:60-122 | no bearer gives 401 and a bad body gives 400 with the first issue's message; a missing and a foreign category give the same 404 "Category not found"; a date zod accepts but `new Date` reads as Invalid Date gives 500, because Prisma refuses it at insert; a usable category, an unused id and a readable or absent date give 201; every failure leaves the store unchanged; a success appends exactly one expense with the fresh id, the requester as owner, a usable category, the amount, the description or null, and `new Date` of the date, or `now` when the date is absent or empty |
| Expenses.CreateExpenseKeepsInvariants | SpendWise/app/api/expenses/route.ts:71-102 | creating an expense keeps expense ids unique, keeps every expense on a category its owner may use, and leaves categories unchanged |
| Categories.ListingShape | SpendWise/app/api/categories/route.ts:20-38 | the listing puts no default after a custom category and holds exactly the defaults and the requester's custom categories, with their multiplicities |
| Categories.ListCategories | SpendWise/app/api/categories/route.ts:13-46 | no valid bearer gives 401; otherwise the answer is 200 with the defaults (owner null, `isDefault` true) before the requester's custom categories (owner the requester, `isDefault` false), each as often as the table holds it, and nothing else |
| Categories.ListedCategoriesAreVisible | SpendWise/app/api/categories/route.ts:21-34 | a listed category is in the table and is a default or the requester's own custom category, so never another user's |
| Categories.ParseCategory | SpendWise/app/api/categories/route.ts:7-10 | the body passes exactly when name is a non-empty string and color an optional string; a rejection carries zod's message for the first failing field: "Expected object, received ..." for a non-object, "Required" for a missing name, "Expected string, received ..." for a non-string name, "Category name is required" for an empty name, and "Expected string, received ..." for a non-string color after a valid name |
| Categories.CreateCategory | SpendWise/app/api/categories/route.ts:49-108 | no bearer gives 401 and a bad body gives 400 with the first issue; "Category with this name already exists" is answered exactly when the requester already owns that name or the insert hits a unique-key violation (P2002), and any other parsed body gives 201; every failure leaves the store unchanged; a success appends exactly one category owned by the requester, not default, with color or null |
| Categories.DefaultNamesMayBeReused | SpendWise/app/api/categories/route.ts:59-72 | a name held only by default categories or by other users' categories can be created |
| Categories.CreateCategoryKeepsInvariants | SpendWise/app/api/categories/route.ts:59-82 | creating a category keeps ids unique and the per-owner name uniqueness, and leaves expenses unchanged |

## Left out

- bcrypt and jsonwebtoken internals: foreign libraries. The model states only the properties above. It does not assume that different passwords never share a digest, because bcrypt looks only at the first 72 bytes of a password. The fallback signing secret is deployment configuration.
- Entropy of `crypto.randomBytes`: the bytes are an input. A token that clashes with a stored one is modelled as Prisma's unique violation, which gives 500 after the delete has run. The lemmas assume the token is fresh.
- The wall clock: `now` is an input. `setHours(getHours() + 1)` works in local time; the model adds exactly 3,600,000 ms and does not model daylight-saving transitions.
- Prisma I/O, transactions and concurrency: tables are maps and sequences, and handlers run one at a time. The race between two concurrent requests for the same email is not modelled: forgot-password runs `deleteMany` and `create` outside a transaction, so in the running system supersession can fail and an email can hold two grants.
- Order of rows a `findMany` without `orderBy` returns: the category listing keeps table order within each group. The expense listing is fixed only up to the order of expenses with equal dates, which the source leaves to the database.
- zod's `details` array in the reset routes' 400 body is not modelled; only the error string is. zod's email and ISO datetime checks, and JavaScript's `new Date(s)`, are inputs; the datetime check and `new Date(s)` are separate, so a string zod accepts but `new Date` cannot read is represented.
- Expenses.ListExpenses: the `include: { category: true }` join on listed and created expenses is not modelled; the records are returned without their category.
- The dashboard, stats, export and PDF routes; the currency route; the seed script; the single-record expense and category routes; pages, components and the client API library: outside this model.
- The login and register handlers and the auth context are not part of this model.
- Non-finite amounts: `JSON.parse` reads an overflowing number literal such as `1e400` as `Infinity`, which `z.number().positive()` accepts; JSON numbers are reals here, so that case is not represented.
- JWT payloads without `exp` or `userId`: every token the application signs has both. A token signed elsewhere with the same secret is not modelled.
