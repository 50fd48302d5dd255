# Tenant scoping for a multi-tenant user pool, modelled in Dafny

The system tags each user of an identity-provider user pool with the company
(tenant) the user belongs to, and carries that tag into every token the pool
issues. It has three parts, and each one is modelled here:

- **The pre-token-generation hook** (`claims_hook.dfy`, module `ClaimsHook`).
  At each sign-in the pool passes this hook an event. The hook copies the
  principal's `custom:ownerId` and `custom:customerId` attributes into
  `response.claimsOverrideDetails.claimsToAddOrOverride`. It keeps every other
  claim. It copies `claimsToSuppress` and `groupOverrideDetails` only when they
  were already there. It returns the same event.
  - The event is a class whose fields the `Handler` method updates in place.
  - A JSON key that is absent is told apart from one that is present with the
    value null (`Wrappers.Slot`), because the code treats the two differently.
- **Tenant-name resolution** (`tenant_directory.dfy`, module `TenantDirectory`).
  Both scripts turn a company name into its id through the tenant-record
  GraphQL service.
  - The attribute-update script uses two tiers: an exact-name query, then a
    stripped, case-insensitive filter over the first page (1000 records) of a
    listing query.
  - The user-setup script uses the exact query only.
  - The service's answers are inputs. `Post` models `appsync_post`'s check:
    a non-200 status or a non-empty `errors` list is an error.
  - The two scripts read the `data` path differently. One is lenient (`.get`
    with defaults); the other is strict (indexing). Each reading is modelled.
  - A resolution also reports which queries it sent.
- **The identity reconciler.**
  - `identity_provider.dfy` (module `IdentityProvider`) models the four admin
    calls on a `UserPool` class. The pool holds three things:
    - the users, as a map from username to attributes and credential;
    - the log of calls issued, in order;
    - `faults`, a schedule of the errors the service adds on its own
      (throttling, password policy and so on), keyed by the call's position in
      the log.
  - `Run` is the pure reference: the users after a sequence of calls to a
    service that adds no errors of its own.
  - `setup_new_user.dfy` (module `SetupNewUser`) models the user-setup script.
    It covers the create and password helpers and the mode × existence branch
    logic of its `main`.
    - `SetUpUser` is proved against `ProvisionCalls`, the call sequence each
      branch issues, and against `Run`.
    - Re-running with the same input converges (`ProvisionConverges`,
      `SetUpUserTwice`).
  - `upsert_user_attr.dfy` (module `UpsertUserAttr`) models the
    attribute-update script. It covers attribute-name normalisation, the
    existence check, the two-tier lookup and the single attribute update,
    in the script's order.
- `text.dfy` (module `Text`) gives Python's `str.strip()` and `str.lower()` as
  the scripts use them.
- `scenarios.dfy` (module `Scenarios`) works examples end to end:
  1. "SBS" resolves to "tenant-123";
  2. alice@example.com is set up as its owner with a temporary password;
  3. her first sign-in carries the owner claim and nothing else.

  It also shows a non-destructive merge, a case-variant name that the
  single-tier resolver misses, and an attribute update for a spelling of
  `customer`.

Command-line arguments, credentials and service answers are parameters of the
drivers (`SetUpUser`, `SetCompanyAttribute`). An exit of the script is an
`Outcome`.

Four behaviours of the code are worth knowing when reading the model:
- A permanent-mode create refused because the user already exists is
  ignored; the run then sets the password and writes no attributes
  (`PermanentRaceKeepsAttributes`).
- A failed password reset ends the run before the attribute update is
  issued; the reset or create calls that succeeded before a refused call
  stay in place (`Provisioned`).
- The single-tier resolver has no case-insensitive fallback.
- The attribute-update script probes the user's existence before it looks
  up the company.

## Model

| member | source | states |
|---|---|---|
| ClaimsHook.UserAttributes | amplify/functions/set-company-id/handler.py:13 | an absent or null `request` or `userAttributes` reads as no attributes; otherwise the attributes given |
| ClaimsHook.WithResponse | amplify/functions/set-company-id/handler.py:8 | afterwards `response` is there: an absent one becomes an empty object, and one already there, even null, is kept |
| ClaimsHook.Stamp | amplify/functions/set-company-id/handler.py:14-18 | a tenant claim gets a value exactly when the attribute is present and not the empty string, and the value is the attribute's |
| ClaimsHook.Stamped | amplify/functions/set-company-id/handler.py:14-25 | the claims written are exactly the two tenant claims whose attribute has a value, each carrying the attribute's value |
| ClaimsHook.Augmented | amplify/functions/set-company-id/handler.py:9-34 | keys out = keys in plus the stamped tenant claims; unrelated claims keep their values; a tenant claim with a value is overwritten; a tenant claim without one is left as it was, neither added nor removed; `claimsToSuppress` and `groupOverrideDetails` are copied verbatim iff present; no other key appears |
| ClaimsHook.Handler | amplify/functions/set-company-id/handler.py:4-37 | the same event is returned; `response` is created if absent; only `response.claimsOverrideDetails` changes, becoming `Augmented` of the incoming details and attributes; `request` and all other fields are unchanged; the one failure is a null `response`, which changes nothing |
| ClaimsHook.StampedWrites | amplify/functions/set-company-id/handler.py:14-25 | the two guarded writes, owner then customer, add exactly the stamped tenant claims to the incoming claim map |
| ClaimsHook.AugmentedIdempotent | amplify/functions/set-company-id/handler.py:9-36 | applying the hook to its own output with the same attributes gives the same override details |
| ClaimsHook.AbsenceIsNeutral | amplify/functions/set-company-id/handler.py:17-27 | with neither tenant attribute set, the outgoing claim map equals the incoming one |
| Text.IsSpace | python/upsert_user_attr.py:83 | the characters `str.strip()` removes: those for which Python's `str.isspace()` holds |
| Text.TrimStart | python/upsert_user_attr.py:83 | the result is a suffix whose first character is not white space, and everything removed is white space |
| Text.TrimEnd | python/upsert_user_attr.py:83 | the result is a prefix whose last character is not white space, and everything removed is white space |
| Text.Trim | python/upsert_user_attr.py:123 | the stripped string neither starts nor ends with white space |
| Text.LowerChar | python/upsert_user_attr.py:123 | lower-casing a character neither creates nor removes white space, leaves no ASCII capital or Kelvin sign, and keeps every character that is neither |
| Text.Lower | python/upsert_user_attr.py:123 | lower-casing keeps the length and maps every character by `LowerChar` |
| Text.Fold | python/upsert_user_attr.py:83 | the comparison key is no longer than the input, has no white space at either end and no ASCII capital or Kelvin sign left |
| Text.TrimKeeps | python/upsert_user_attr.py:83 | a string with no white space at either end is not changed by stripping |
| Text.TrimIdempotent | python/upsert_user_attr.py:83 | stripping twice is stripping once |
| Text.LowerIdempotent | python/upsert_user_attr.py:83 | lower-casing twice is lower-casing once |
| Text.FoldIdempotent | python/upsert_user_attr.py:123 | strip-then-lower applied to its own result changes nothing |
| TenantDirectory.Post | python/upsert_user_attr.py:44-52 | success iff status 200 and `errors` absent, null or empty; then `data` is handed back; a non-200 status gives an HTTP error and a non-empty `errors` list gives a GraphQL error |
| TenantDirectory.LenientItems | python/upsert_user_attr.py:67 | a missing or null `listCompanies` or `items` reads as no items; only a null `data` cannot be read; an `items` list that is there is exactly what is returned |
| TenantDirectory.StrictItems | python/setup_new_user.py:51 | success iff `data` and `listCompanies` are present and not null and `items` is present; a null `items` reads as no items; an `items` list that is there is exactly what is returned |
| TenantDirectory.ReadItems | python/upsert_user_attr.py:66-67 | the answer as the attribute-update script reads it: a service error is passed on, a null `data` fails, an answer listing items yields exactly those items, and any items returned are the ones the answer lists |
| TenantDirectory.ReadItemsStrict | python/setup_new_user.py:50-51 | the exact-name answer as the user-setup script reads it: a service error is passed on, an answer listing items yields exactly those items, and any items returned are the ones the answer lists |
| TenantDirectory.Keep | python/upsert_user_attr.py:83 | the filter never yields more items than it was given |
| TenantDirectory.KeepMembers | python/upsert_user_attr.py:83 | the filter keeps exactly the items satisfying the predicate |
| TenantDirectory.KeepNone | python/upsert_user_attr.py:83-85 | when no item satisfies the predicate, the filter yields nothing |
| TenantDirectory.KeepUnique | python/upsert_user_attr.py:83-88 | when exactly one index satisfies the predicate, the filter yields that item alone |
| TenantDirectory.KeptTwoHasTwo | python/upsert_user_attr.py:83-87 | two or more items kept come from two different indices that satisfy the predicate |
| TenantDirectory.TwoHasKeptTwo | python/upsert_user_attr.py:83-87 | two indices that satisfy the predicate leave two or more items kept |
| TenantDirectory.KeepTwo | python/upsert_user_attr.py:83-87 | two or more items are kept iff two indices satisfy the predicate |
| TenantDirectory.KeepCount | python/upsert_user_attr.py:84-88 | the filter yields none iff no index satisfies the predicate, one iff exactly one does (and then that item), and more than one iff two indices do |
| TenantDirectory.CaseInsensitiveMatches | python/upsert_user_attr.py:83 | the comparison fails iff some listed name is null, and then as a malformed response; otherwise its matches are exactly the listed items whose stripped, lower-cased name equals the stripped, lower-cased query |
| TenantDirectory.NamelessMatchesBlank | python/upsert_user_attr.py:83 | an item with no `name` key compares as `""`, so it matches only a query that is blank after stripping |
| TenantDirectory.Fallback | python/upsert_user_attr.py:73-88 | a listing error is passed on; an id returned is that of a listed item whose name matches the query; otherwise the failure is a malformed response, not found or case-insensitively ambiguous |
| TenantDirectory.ResolveTwoTier | python/upsert_user_attr.py:54-88 | the queries sent are the exact query alone, or the exact query followed by the listing query with limit 1000; an error from the exact query is passed on with only the exact query sent |
| TenantDirectory.ExactHitSkipsFallback | python/upsert_user_attr.py:66-69 | one exact item: its id is returned and the listing query is not sent |
| TenantDirectory.ExactDuplicatesSkipFallback | python/upsert_user_attr.py:70-71 | several exact items: ambiguous (case-sensitive), and the listing query is not sent |
| TenantDirectory.FallbackDecides | python/upsert_user_attr.py:81-88 | no exact item: the listing is sent once; its error propagates; a null name fails; otherwise success iff exactly one item matches, and then it is that item's id; not found iff none matches; ambiguous iff two match |
| TenantDirectory.ResolvedIdMatches | python/upsert_user_attr.py:84-88 | any id returned is that of the single exact item or of a listed item whose name matched |
| TenantDirectory.ResolveSingleTier | python/setup_new_user.py:41-56 | success iff exactly one strict item, and then with its id; not found iff no item; ambiguous iff more than one; read and service errors propagate |
| TenantDirectory.TiersAgreeOnExactHits | python/setup_new_user.py:50-56 | when the exact query finds something, both resolvers give the same answer |
| TenantDirectory.SingleTierHasNoFallback | python/setup_new_user.py:52-53 | no exact item: the single-tier resolver reports not found, whatever a listing would hold |
| IdentityProvider.Respond | python/setup_new_user.py:58-65 | a create of an existing user is refused with `UsernameExistsException`; any other call on a missing user is refused with `UserNotFoundException`; every other call is accepted |
| IdentityProvider.Effect | python/setup_new_user.py:67-113 | an accepted call adds at most its own user and changes no other user; a probe changes nothing |
| IdentityProvider.Step | python/setup_new_user.py:58-113 | one call to a service with no faults of its own deletes no user, adds at most the call's own user, changes no other user, and a probe changes nothing |
| IdentityProvider.Run | python/setup_new_user.py:179-213 | calls issued in order delete no user and leave every user no call names unchanged |
| IdentityProvider.RunShort | python/setup_new_user.py:179-213 | issuing one or two calls in a row is applying them one after the other |
| IdentityProvider.UserPool.Issue | python/setup_new_user.py:58-113 | a call is logged at the end, answered by the fault schedule or else by the user map, and applied exactly when accepted |
| IdentityProvider.UserPool.AdminGetUser | python/setup_new_user.py:60 | `admin_get_user` is logged and answered and leaves the users unchanged |
| IdentityProvider.UserPool.AdminCreateUser | python/setup_new_user.py:80 | `admin_create_user` with the given attributes, temporary password and message action is logged, answered and applied |
| IdentityProvider.UserPool.AdminSetUserPassword | python/setup_new_user.py:100-102 | `admin_set_user_password` with the given permanence is logged, answered and applied |
| IdentityProvider.UserPool.AdminUpdateUserAttributes | python/setup_new_user.py:187-191 | `admin_update_user_attributes` is logged, answered and applied |
| IdentityProvider.Existence | python/setup_new_user.py:58-65 | the probe reads true iff the call succeeded and false iff it failed with `UserNotFoundException`; any other error is passed on with its code |
| IdentityProvider.UserExists | python/upsert_user_attr.py:90-97 | exactly one `admin_get_user` is issued; the users are unchanged; the verdict is `Existence` of its reply |
| IdentityProvider.WritesNames | python/setup_new_user.py:73-75 | the attributes an attribute list writes are exactly the names it carries |
| IdentityProvider.WritesLastWins | python/setup_new_user.py:73-75 | a name written by an attribute list takes the value of its last entry |
| IdentityProvider.WritesAppend | python/setup_new_user.py:73-75 | writing a list of attributes is writing its front, then its back |
| IdentityProvider.UpdateIdempotent | python/setup_new_user.py:187-191 | repeating an attribute update leaves the attributes as one update does |
| SetupNewUser.RoleAttributes | python/setup_new_user.py:169-173 | exactly one attribute carrying the company id: `custom:ownerId` iff the role is owner, `custom:customerId` iff it is customer |
| SetupNewUser.CreateAttributes | python/setup_new_user.py:73-75 | a create call sends `email`, then `email_verified="true"`, then the role attributes, in that order |
| SetupNewUser.MessageAction | python/setup_new_user.py:78-79 | `MessageAction` is present iff suppression is on, and is then `"SUPPRESS"` |
| SetupNewUser.ProvisionCalls | python/setup_new_user.py:182-212 | one or two calls, all on the given user; a create is issued iff the probe found no user, and then first and once; an existing user is never created and ends with an attribute update; a new user gets no separate attribute update |
| SetupNewUser.CreateUserWithTempPassword | python/setup_new_user.py:67-80 | exactly one create call, carrying the temporary password and the message action for `suppress` |
| SetupNewUser.CreateUserAndSetPermanentPassword | python/setup_new_user.py:82-102 | a create call without a password; if it succeeds or is refused with `UsernameExistsException`, a permanent password is set next and its reply is returned; any other refusal ends it with that reply and no change |
| SetupNewUser.SetTempPasswordForExistingUser | python/setup_new_user.py:104-108 | one set-password call with `Permanent=False` |
| SetupNewUser.SetPermanentPasswordForExistingUser | python/setup_new_user.py:110-113 | one set-password call with `Permanent=True` |
| SetupNewUser.SetPasswordThenUpdate | python/setup_new_user.py:183-191 | the password is set with the mode's permanence; only if that succeeds is the attribute update issued and its reply returned; a refused password call ends it with no change |
| SetupNewUser.Provision | python/setup_new_user.py:182-213 | the mode is tested first, then the verdict; the calls issued are a non-empty prefix of `ProvisionCalls` stopping at the first refusal, except that a permanent-mode create refused with `UsernameExistsException` does not end the run and the password set follows; any other refusal of the first call returns that reply with nothing changed; when every call was issued, the reply returned is the last call's answer; a success means all were issued and the users are `Run` of them; a refused call returns its reply and leaves what earlier calls did in place; only that user changes; on a service with no faults of its own and a correct verdict, it succeeds |
| SetupNewUser.ProvisionTemp | python/setup_new_user.py:182-198 | the temporary-password branch meets `Provisioned` for its plan, so a refused reset returns its reply with no update issued and a refused create is reported as refused; it succeeds on a quiet service with a correct verdict |
| SetupNewUser.ProvisionPermanent | python/setup_new_user.py:200-213 | the permanent-password branch meets `Provisioned` for its plan, so a create refused because the user exists is swallowed and the password set is still issued; it succeeds on a quiet service with a correct verdict |
| SetupNewUser.SetUpUser | python/setup_new_user.py:115-219 | missing credentials and a failed lookup end the run before any pool call; then the probe is issued first; a probe error ends the run unchanged; after a successful probe at least the first call of `ProvisionCalls` is issued, then the rest in order up to the first refusal (a permanent-mode create refused with `UsernameExistsException` does not end the run: the password set follows), which ends the run with that reply's code and leaves what earlier calls did in place; the outcome is `Done` exactly when the last call that counts was accepted, so a refused call never reports success; success means all were issued and the users are `Run` of them; on a service with no faults of its own, success; only that user changes |
| SetupNewUser.ProvisionedUser | python/setup_new_user.py:182-212 | after a successful run the user exists with the mode's password; an existing user's attributes are updated by the role attributes; a new user holds the create attributes |
| SetupNewUser.ExistingPathSettled | python/setup_new_user.py:182-207 | a user who already holds the mode's password and every attribute written is left unchanged by the existing-user calls |
| SetupNewUser.ProvisionConverges | python/setup_new_user.py:182-212 | a second run with the same input, which takes the existing-user path, leaves the users exactly as the first run left them |
| SetupNewUser.PermanentRaceKeepsAttributes | python/setup_new_user.py:94-102 | if the user appears between probe and create in permanent mode, the run sets the permanent password and leaves the user's attributes, tenant attribute included, as they were |
| SetupNewUser.SetUpUserTwice | python/setup_new_user.py:115-219 | two runs with the same input on a service with no faults of its own both succeed; the user exists and ends as after the first run |
| UpsertUserAttr.NormaliseAttribute | python/upsert_user_attr.py:123-130 | after strip and lower: `owner`/`ownerid` gives `custom:ownerId`, `customer`/`customerid` gives `custom:customerId`, anything else is rejected |
| UpsertUserAttr.NormaliseIgnoresCase | python/upsert_user_attr.py:123 | the argument's surrounding white space and letter case do not matter |
| UpsertUserAttr.UpdateUserAttribute | python/upsert_user_attr.py:99-104 | one update call writing exactly the one `(attribute, value)` pair |
| UpsertUserAttr.UpdateWritesOneAttribute | python/upsert_user_attr.py:99-104 | an accepted one-pair update sets that attribute of that user and changes nothing else |
| UpsertUserAttr.AttachCompany | python/upsert_user_attr.py:137-156 | existence is probed before the lookup; a probe error, a missing user or a failed lookup issue no update and change nothing; otherwise exactly one update with the company id, whose refusal is reported with that reply's code; success sets that attribute of an existing user and nothing else |
| UpsertUserAttr.SetCompanyAttribute | python/upsert_user_attr.py:108-156 | a bad attribute name or missing credentials end the run before any call; with a valid name and credentials the run meets `Attached`, the probe-then-lookup-then-update contract of `AttachCompany`; success means a valid name, a resolved company and an existing user whose one attribute now holds the id, all else unchanged; every failure leaves the users unchanged |
| Scenarios.CustomerSpelling | python/upsert_user_attr.py:126-127 | `Customer` names the customer attribute |
| Scenarios.SbsResolves | python/upsert_user_attr.py:66-69 | "SBS" resolves to "tenant-123" with the exact query alone, in both resolvers |
| Scenarios.CaseVariantMissedBySingleTier | python/setup_new_user.py:52-53 | the single-tier resolver reports `sbs` not found when the exact query finds nothing, with no fallback |
| Scenarios.SignUp | python/setup_new_user.py:193-197 | alice@example.com, absent before, is created with her temporary password, her email, the verified flag and `custom:ownerId = tenant-123` |
| Scenarios.OwnerSignInClaims | amplify/functions/set-company-id/handler.py:9-36 | with those attributes and no earlier override details, the hook writes exactly the owner claim and no `claimsToSuppress` or `groupOverrideDetails` |
| Scenarios.SignUpThenSignIn | python/setup_new_user.py:193-197 | after her setup, Alice's first sign-in yields exactly the owner claim and no `claimsToSuppress` |
| Scenarios.MergeIsNonDestructive | amplify/functions/set-company-id/handler.py:10-32 | an unrelated claim stays, the owner claim is added, no customer claim appears, and `claimsToSuppress` is copied |
| Scenarios.AttachCustomer | python/upsert_user_attr.py:108-156 | setting `Customer` for "SBS" on an existing user adds `custom:customerId = tenant-123` and keeps her credential and other attributes |

## Left out

- HTTP transport, SigV4 signing and credential lookup are not modelled. Whether credentials are available is a boolean parameter. The service's answers are parameters of type `GraphQLResponse`, and the identity provider is the `UserPool` model.
- Pagination is not modelled. The fallback reads the first page only, as the code does; `nextToken` is never followed.
- `argparse`, `print`, logging and `sys.exit` are not modelled. A run yields an `Outcome` instead of an exit code. An argument value outside argparse's `choices` is not representable.
- The environment tables (endpoint URLs, pool ids) and the unreachable "incorrect user pool" branch are configuration and are left out.
- python/setup_new_company.py and the Amplify/CDK resource files are not part of this model.
- The provider's own rules are not modelled: password policy, attribute validation, and what a temporary password forces at sign-in. Only the user map and the two exceptions the scripts look at are modelled. Any other refusal comes from the `faults` schedule.
- Text.Lower: only the ASCII capitals and the Kelvin sign are lower-cased. Other Unicode case mappings are not modelled.
- Text.LowerChar: states only that no ASCII capital or Kelvin sign is left, not that the result has no upper-case letter at all, since other Unicode case mappings are not modelled.
- Text.Fold: its key is free of ASCII capitals and the Kelvin sign only, for the same reason.
- A null element of `items` is not representable: an item is always an object. In the code such an element fails the lookup when it is indexed or compared (python/upsert_user_attr.py:69, :83 and python/setup_new_user.py:56).
- Company ids: the `items { id name }` selection is assumed to return a string id; a null or missing `id` is not modelled.
- Attribute values in the hook's `userAttributes` are strings. A non-string or null value is not modelled.
- ClaimsHook.Handler: the copy of `claimsToAddOrOverride` and the resulting guarantee that the caller's map is not mutated hold by value semantics. Aliasing between the event and other objects is not modelled.
- A traceback is not told apart from a reported error. In the attribute-update script, a probe error other than "user not found" escapes uncaught; here it is the outcome `ProbeFailed`.
