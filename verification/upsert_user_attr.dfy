/**
 * The attribute-update script: it sets one tenant attribute of an existing
 * user to the id of a company looked up by name, with the two-tier
 * resolver.
 */
module UpsertUserAttr {
  import opened Wrappers
  import Text
  import opened IdentityProvider
  import opened TenantDirectory

  datatype UpsertError =
    | BadAttribute
    | NoCredentials
    /** the existence probe failed with an error other than "user not found" */
    | ProbeFailed(code: string)
    | UserNotFound(username: string)
    | LookupFailed(lookup: LookupError)
    | UpdateFailed(code: string)

  /** How a run of the script ends. */
  datatype Outcome = Done | Failed(error: UpsertError)

  /**
   * The attribute argument, stripped and lower-cased, names one of the two
   * tenant attributes: `owner` or `ownerid`, `customer` or `customerid`.
   */
  function NormaliseAttribute(attribute: string): (r: Option<string>)
    ensures r == Some(OwnerIdAttribute) <==> Text.Fold(attribute) == "owner" || Text.Fold(attribute) == "ownerid"
    ensures r == Some(CustomerIdAttribute) <==>
              Text.Fold(attribute) == "customer" || Text.Fold(attribute) == "customerid"
    ensures r.Some? ==> r == Some(OwnerIdAttribute) || r == Some(CustomerIdAttribute)
  {
    TenantAttributesDistinct();
    var key := Text.Fold(attribute);
    if key == "owner" || key == "ownerid" then Some(OwnerIdAttribute)
    else if key == "customer" || key == "customerid" then Some(CustomerIdAttribute)
    else None
  }

  /** The spelling of the argument matters only up to surrounding white space and letter case. */
  lemma NormaliseIgnoresCase(attribute: string)
    ensures NormaliseAttribute(Text.Fold(attribute)) == NormaliseAttribute(attribute)
  {
    Text.FoldIdempotent(attribute);
  }

  /** `update_user_attribute`: one update call writing exactly one attribute. */
  method UpdateUserAttribute(pool: UserPool, username: string, name: string, value: string) returns (reply: Reply)
    modifies pool
    ensures var call := UpdateAttributes(username, [Attribute(name, value)]);
      && pool.log == old(pool.log) + [call]
      && reply == old(pool.NextReply(call))
      && pool.users == After(old(pool.users), call, reply)
  {
    reply := pool.AdminUpdateUserAttributes(username, [Attribute(name, value)]);
  }

  /** An accepted update of one attribute sets that attribute of that user and changes nothing else. */
  lemma UpdateWritesOneAttribute(users: map<string, User>, username: string, name: string, value: string)
    requires username in users
    ensures Step(users, UpdateAttributes(username, [Attribute(name, value)]))
         == users[username := users[username].(attributes := users[username].attributes[name := value])]
  {
    assert Writes([Attribute(name, value)]) == map[name := value] by {
      assert [Attribute(name, value)][1..] == [];
    }
    var before := users[username].attributes;
    assert before + map[name := value] == before[name := value];
  }

  /**
   * What the part of a run after the argument checks did, for the tenant
   * attribute `name`: the user's existence is probed, then the company is
   * looked up, then the one update is issued. `exact` and `listing` are the
   * service's answers to the exact-name and the listing query, and
   * `queries` lists the queries actually sent.
   */
  twostate predicate Attached(pool: UserPool, username: string, name: string, companyName: string,
                              exact: GraphQLResponse, listing: GraphQLResponse,
                              outcome: Outcome, queries: seq<Query>)
    reads pool
  {
    var probe := Existence(old(pool.NextReply(GetUser(username))));
    var resolution := ResolveTwoTier(companyName, exact, listing);
    && (probe.Failure? ==>
          outcome == Failed(ProbeFailed(probe.error)) && queries == []
          && pool.log == old(pool.log) + [GetUser(username)])
    && (probe == Success(false) ==>
          outcome == Failed(UserNotFound(username)) && queries == []
          && pool.log == old(pool.log) + [GetUser(username)])
    && (probe == Success(true) ==> queries == resolution.issued)
    && (probe == Success(true) && resolution.result.Failure? ==>
          outcome == Failed(LookupFailed(resolution.result.error))
          && pool.log == old(pool.log) + [GetUser(username)])
    && (probe == Success(true) && resolution.result.Success? ==>
          var call := UpdateAttributes(username, [Attribute(name, resolution.result.value)]);
          var answer := Answer(pool.faults, |old(pool.log)| + 1, old(pool.users), call);
          && pool.log == old(pool.log) + [GetUser(username), call]
          && (outcome.Done? <==> answer.Ok?)
          && (answer.Error? ==> outcome == Failed(UpdateFailed(answer.code))))
    && (old(pool.Quiet(2)) && username in old(pool.users) && resolution.result.Success? ==> outcome.Done?)
    // a successful run sets exactly the one attribute of an existing user to the id found
    && (outcome.Done? ==>
          && resolution.result.Success?
          && username in old(pool.users)
          && var before := old(pool.users)[username];
             pool.users == old(pool.users)[username := before.(attributes :=
               before.attributes[name := resolution.result.value])])
    && (outcome.Failed? ==> pool.users == old(pool.users))
  }

  /** The part of a run after the argument checks, for the tenant attribute `name`. */
  method AttachCompany(pool: UserPool, username: string, name: string, companyName: string,
                       exact: GraphQLResponse, listing: GraphQLResponse)
    returns (outcome: Outcome, queries: seq<Query>)
    modifies pool
    ensures Attached(pool, username, name, companyName, exact, listing, outcome, queries)
  {
    // the user must exist
    ghost var users0 := pool.users;
    var present := UserExists(pool, username);
    if present.Failure? {
      return Failed(ProbeFailed(present.error)), [];
    }
    if !present.value {
      return Failed(UserNotFound(username)), [];
    }

    // the company id
    var resolution := ResolveTwoTier(companyName, exact, listing);
    queries := resolution.issued;
    if resolution.result.Failure? {
      return Failed(LookupFailed(resolution.result.error)), queries;
    }

    // the update
    var reply := UpdateUserAttribute(pool, username, name, resolution.result.value);
    if reply.Error? {
      return Failed(UpdateFailed(reply.code)), queries;
    }
    UpdateWritesOneAttribute(users0, username, name, resolution.result.value);
    outcome := Done;
  }

  /**
   * A run of the script after argument parsing. `hasCredentials` says
   * whether signing credentials are available. A bad attribute name and
   * missing credentials end the run before any call; otherwise the run is
   * `AttachCompany` for the normalised attribute.
   */
  method SetCompanyAttribute(pool: UserPool, username: string, attribute: string, companyName: string,
                             hasCredentials: bool, exact: GraphQLResponse, listing: GraphQLResponse)
    returns (outcome: Outcome, queries: seq<Query>)
    modifies pool
    ensures NormaliseAttribute(attribute).None? ==>
              outcome == Failed(BadAttribute) && queries == [] && pool.log == old(pool.log)
    ensures NormaliseAttribute(attribute).Some? && !hasCredentials ==>
              outcome == Failed(NoCredentials) && queries == [] && pool.log == old(pool.log)
    ensures NormaliseAttribute(attribute).Some? && hasCredentials ==>
              Attached(pool, username, NormaliseAttribute(attribute).value, companyName, exact, listing,
                       outcome, queries)
    // a successful run sets exactly the one attribute of an existing user to the id found
    ensures outcome.Done? ==>
              && NormaliseAttribute(attribute).Some? && hasCredentials
              && ResolveTwoTier(companyName, exact, listing).result.Success?
              && username in old(pool.users)
              && var before := old(pool.users)[username];
                 pool.users == old(pool.users)[username := before.(attributes :=
                   before.attributes[NormaliseAttribute(attribute).value :=
                                     ResolveTwoTier(companyName, exact, listing).result.value])]
    ensures outcome.Failed? ==> pool.users == old(pool.users)
    ensures NormaliseAttribute(attribute).Some? && hasCredentials && old(pool.Quiet(2)) &&
            username in old(pool.users) && ResolveTwoTier(companyName, exact, listing).result.Success? ==>
              outcome.Done?
  {
    // normalise the attribute argument
    var cognitoAttr := NormaliseAttribute(attribute);
    if cognitoAttr.None? {
      return Failed(BadAttribute), [];
    }

    // signing credentials
    if !hasCredentials {
      return Failed(NoCredentials), [];
    }

    outcome, queries := AttachCompany(pool, username, cognitoAttr.value, companyName, exact, listing);
  }
}
