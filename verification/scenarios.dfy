/**
 * Worked examples that tie the three parts together: a company named "SBS"
 * with id "tenant-123", a user alice@example.com who signs up as its owner,
 * and her first sign-in.
 */
module Scenarios {
  import opened Wrappers
  import opened IdentityProvider
  import opened TenantDirectory
  import Text
  import ClaimsHook
  import SetupNewUser
  import UpsertUserAttr

  const Alice: string := "alice@example.com"
  const AlicePassword: string := "Temp#2024"

  /** The service's answer to the exact-name query for "SBS": one company. */
  function SbsExact(): GraphQLResponse {
    GraphQLResponse(200, Absent, Given(Payload(Given(Connection(Given([CompanyItem("tenant-123", Given("SBS"))]))))))
  }

  /** An answer with no company in it. */
  function NoHits(): GraphQLResponse {
    GraphQLResponse(200, Absent, Given(Payload(Given(Connection(Given([]))))))
  }

  /** The attribute argument is read without regard to letter case. */
  lemma CustomerSpelling()
    ensures UpsertUserAttr.NormaliseAttribute("Customer") == Some(CustomerIdAttribute)
  {
    Text.TrimKeeps("Customer");
    var l := Text.Lower("Customer");
    assert l[0] == 'c' && l[1] == 'u' && l[2] == 's' && l[3] == 't';
    assert l[4] == 'o' && l[5] == 'm' && l[6] == 'e' && l[7] == 'r';
  }

  /** Both resolvers find "SBS" with the exact query alone. */
  lemma SbsResolves(listing: GraphQLResponse)
    ensures ResolveSingleTier("SBS", SbsExact()) == Success("tenant-123")
    ensures ResolveTwoTier("SBS", SbsExact(), listing) == Resolution(Success("tenant-123"), [FindByName("SBS")])
  {
    ExactHitSkipsFallback("SBS", SbsExact(), listing, CompanyItem("tenant-123", Given("SBS")));
  }

  /**
   * The single-tier resolver has no fallback: a name in another case, which
   * the exact query does not find, is reported missing.
   */
  lemma CaseVariantMissedBySingleTier()
    ensures ResolveSingleTier("sbs", NoHits()) == Failure(NotFound("sbs"))
  {
    SingleTierHasNoFallback("sbs", NoHits());
  }

  /** The attributes Alice has once she is set up as the owner of "SBS". */
  function AliceOwnerAttributes(): map<string, string> {
    map["email" := Alice, "email_verified" := "true", OwnerIdAttribute := "tenant-123"]
  }

  /**
   * Alice does not exist yet; setting her up as the owner of "SBS" with a
   * temporary password creates her with that password and the company id.
   */
  method SignUp() returns (user: User)
    ensures user == User(AliceOwnerAttributes(), Temporary(AlicePassword))
  {
    var pool := new UserPool(map[], map[]);
    var outcome, queries := SetupNewUser.SetUpUser(pool, Alice, AlicePassword, "SBS", SetupNewUser.Owner,
                                                   SetupNewUser.TempPassword, false, true, SbsExact());
    SbsResolves(NoHits());
    SetupNewUser.ProvisionedUser(map[], SetupNewUser.TempPassword, Alice, AlicePassword,
                                 SetupNewUser.RoleAttributes(SetupNewUser.Owner, "tenant-123"), true);
    user := pool.users[Alice];
  }

  /**
   * A first sign-in with Alice's attributes and no earlier override details
   * carries the owner claim and nothing else: no customer claim and no
   * suppression list.
   */
  lemma OwnerSignInClaims()
    ensures ClaimsHook.Augmented(None, AliceOwnerAttributes())
         == ClaimsHook.OverrideDetails(Some(map[OwnerIdAttribute := "tenant-123"]), None, None, map[])
  {
    TenantAttributesDistinct();
    var attrs := AliceOwnerAttributes();
    assert ClaimsHook.Stamped(attrs) == map[OwnerIdAttribute := "tenant-123"];
    assert ClaimsHook.IncomingClaims(None) + ClaimsHook.Stamped(attrs) == map[OwnerIdAttribute := "tenant-123"];
  }

  /** Alice signs up, then signs in: her token carries the owner claim alone. */
  method SignUpThenSignIn() returns (user: User, details: Option<ClaimsHook.OverrideDetails>)
    ensures user.credential == Temporary(AlicePassword)
    ensures user.attributes == map["email" := Alice, "email_verified" := "true", OwnerIdAttribute := "tenant-123"]
    ensures details == Some(ClaimsHook.OverrideDetails(Some(map[OwnerIdAttribute := "tenant-123"]), None, None, map[]))
  {
    user := SignUp();
    var event := new ClaimsHook.Event(Some(ClaimsHook.Request(Some(user.attributes), map[])),
                                      Given(ClaimsHook.Response(None, map[])),
                                      map["triggerSource" := JStr("TokenGeneration_Authentication")]);
    var result := ClaimsHook.Handler(event);
    details := event.response.value.claimsOverrideDetails;
    OwnerSignInClaims();
  }

  /**
   * The hook does not destroy what an earlier stage put in: with only the
   * owner attribute on the principal, unrelated claims stay, the owner claim
   * is set, no customer claim appears, and the suppression list is kept.
   */
  lemma MergeIsNonDestructive()
    ensures var before := ClaimsHook.OverrideDetails(Some(map["department" := "ops"]),
                                                      Some(JArr([JStr("email")])), None, map[]);
            var after := ClaimsHook.Augmented(Some(before), map[OwnerIdAttribute := "tenant-123"]);
      && after.claimsToAddOrOverride == Some(map["department" := "ops", OwnerIdAttribute := "tenant-123"])
      && after.claimsToSuppress == Some(JArr([JStr("email")]))
      && after.groupOverrideDetails.None?
  {
    TenantAttributesDistinct();
    var attrs := map[OwnerIdAttribute := "tenant-123"];
    assert ClaimsHook.Stamped(attrs) == map[OwnerIdAttribute := "tenant-123"];
    assert map["department" := "ops"] + map[OwnerIdAttribute := "tenant-123"]
        == map["department" := "ops", OwnerIdAttribute := "tenant-123"];
  }

  /**
   * Updating Alice's customer attribute with the attribute-update script:
   * the argument's spelling is normalised, and the attribute is written
   * next to the ones she has.
   */
  method AttachCustomer() returns (before: User, after: User)
    ensures after.credential == before.credential
    ensures after.attributes == before.attributes[CustomerIdAttribute := "tenant-123"]
  {
    before := User(map["email" := Alice, OwnerIdAttribute := "tenant-123"], Temporary(AlicePassword));
    var pool := new UserPool(map[Alice := before], map[]);
    CustomerSpelling();
    SbsResolves(NoHits());
    var outcome, queries := UpsertUserAttr.SetCompanyAttribute(pool, Alice, "Customer", "SBS", true,
                                                               SbsExact(), NoHits());
    after := pool.users[Alice];
  }
}
