/**
 * The user-setup script: it resolves a company name to its id, then creates
 * the user or brings an existing one up to date, with a temporary or a
 * permanent password and the company id under the attribute of its role.
 */
module SetupNewUser {
  import opened Wrappers
  import opened IdentityProvider
  import opened TenantDirectory

  /** The `role` argument. */
  datatype Role = Owner | Customer

  /** The `--mode` argument: a temporary password (the default) or a permanent one. */
  datatype PasswordMode = TempPassword | PermanentPassword

  datatype SetupError =
    | NoCredentials
    | LookupFailed(lookup: LookupError)
    | ProviderError(code: string)

  /** How a run of the script ends. */
  datatype Outcome = Done | Failed(error: SetupError)

  /** The tenant attribute a role is tagged with. */
  function RoleAttributes(role: Role, companyId: string): (attrs: seq<Attribute>)
    ensures |attrs| == 1 && attrs[0].value == companyId
    ensures attrs[0].name == OwnerIdAttribute <==> role.Owner?
    ensures attrs[0].name == CustomerIdAttribute <==> role.Customer?
  {
    TenantAttributesDistinct();
    if role.Owner? then [Attribute(OwnerIdAttribute, companyId)]
    else [Attribute(CustomerIdAttribute, companyId)]
  }

  /** The attributes a create call sends: the email, the email as verified, then the role's attributes. */
  function CreateAttributes(email: string, attributes: seq<Attribute>): (attrs: seq<Attribute>)
    ensures |attrs| == |attributes| + 2
    ensures attrs[0] == Attribute("email", email) && attrs[1] == Attribute("email_verified", "true")
    ensures attrs[2..] == attributes
  {
    [Attribute("email", email), Attribute("email_verified", "true")] + attributes
  }

  /** `MessageAction` of a create call: `"SUPPRESS"` exactly when the invitation is suppressed. */
  function MessageAction(suppress: bool): (action: Option<string>)
    ensures action.Some? <==> suppress
    ensures action.Some? ==> action.value == "SUPPRESS"
  {
    if suppress then Some("SUPPRESS") else None
  }

  /**
   * The calls a run issues after the existence probe, when each of them
   * succeeds (or, for the permanent-mode create, reports that the user
   * already exists). A create call is issued exactly when the probe found
   * no user, and then first; an existing user is never created, and a new
   * one never gets a separate attribute update.
   */
  function ProvisionCalls(mode: PasswordMode, present: bool, email: string, password: string,
                          attributes: seq<Attribute>, suppress: bool): (plan: seq<Call>)
    ensures 1 <= |plan| <= 2
    ensures forall i :: 0 <= i < |plan| ==> plan[i].username == email
    ensures present ==> forall i :: 0 <= i < |plan| ==> !plan[i].CreateUser?
    ensures present ==> plan[|plan| - 1] == UpdateAttributes(email, attributes)
    ensures !present ==> plan[0].CreateUser? && plan[0].attributes == CreateAttributes(email, attributes)
    ensures !present ==> forall i :: 0 <= i < |plan| ==> !plan[i].UpdateAttributes?
    ensures !present ==> forall i :: 0 < i < |plan| ==> !plan[i].CreateUser?
  {
    match (mode, present)
    case (TempPassword, true) =>
      [SetPassword(email, password, false), UpdateAttributes(email, attributes)]
    case (TempPassword, false) =>
      [CreateUser(email, CreateAttributes(email, attributes), Some(password), MessageAction(suppress))]
    case (PermanentPassword, true) =>
      [SetPassword(email, password, true), UpdateAttributes(email, attributes)]
    case (PermanentPassword, false) =>
      [CreateUser(email, CreateAttributes(email, attributes), None, MessageAction(suppress)),
       SetPassword(email, password, true)]
  }

  /** `create_user_with_temp_password`: one create call carrying the temporary password. */
  method CreateUserWithTempPassword(pool: UserPool, email: string, tempPassword: string,
                                    attributes: seq<Attribute>, suppress: bool)
    returns (reply: Reply)
    modifies pool
    ensures var call := CreateUser(email, CreateAttributes(email, attributes), Some(tempPassword), MessageAction(suppress));
      && pool.log == old(pool.log) + [call]
      && reply == old(pool.NextReply(call))
      && pool.users == After(old(pool.users), call, reply)
  {
    var messageAction := None;
    if suppress {
      messageAction := Some("SUPPRESS");
    }
    reply := pool.AdminCreateUser(email, CreateAttributes(email, attributes), Some(tempPassword), messageAction);
  }

  /**
   * `create_user_and_set_permanent_password`: a create call without a
   * password, whose `UsernameExistsException` is ignored, then a permanent
   * password. Any other error of the create call ends it.
   */
  method CreateUserAndSetPermanentPassword(pool: UserPool, email: string, password: string,
                                           attributes: seq<Attribute>, suppress: bool)
    returns (reply: Reply)
    modifies pool
    ensures var create := CreateUser(email, CreateAttributes(email, attributes), None, MessageAction(suppress));
            var setCall := SetPassword(email, password, true);
            var first := old(pool.NextReply(create));
            var mid := After(old(pool.users), create, first);
      if first.Ok? || first == Error(UsernameExistsException) then
        && pool.log == old(pool.log) + [create, setCall]
        && reply == Answer(pool.faults, |old(pool.log)| + 1, mid, setCall)
        && pool.users == After(mid, setCall, reply)
      else
        && pool.log == old(pool.log) + [create]
        && reply == first
        && pool.users == old(pool.users)
  {
    var messageAction := None;
    if suppress {
      messageAction := Some("SUPPRESS");
    }
    reply := pool.AdminCreateUser(email, CreateAttributes(email, attributes), None, messageAction);
    if reply.Error? && reply.code != UsernameExistsException {
      return;
    }
    reply := pool.AdminSetUserPassword(email, password, true);
  }

  /** `set_temp_password_for_existing_user`. */
  method SetTempPasswordForExistingUser(pool: UserPool, email: string, tempPassword: string) returns (reply: Reply)
    modifies pool
    ensures var call := SetPassword(email, tempPassword, false);
      && pool.log == old(pool.log) + [call]
      && reply == old(pool.NextReply(call))
      && pool.users == After(old(pool.users), call, reply)
  {
    reply := pool.AdminSetUserPassword(email, tempPassword, false);
  }

  /** `set_permanent_password_for_existing_user`. */
  method SetPermanentPasswordForExistingUser(pool: UserPool, email: string, password: string) returns (reply: Reply)
    modifies pool
    ensures var call := SetPassword(email, password, true);
      && pool.log == old(pool.log) + [call]
      && reply == old(pool.NextReply(call))
      && pool.users == After(old(pool.users), call, reply)
  {
    reply := pool.AdminSetUserPassword(email, password, true);
  }

  /**
   * The existing-user branch of either mode: the password is set with the
   * mode's permanence, then, only if that succeeded, the attributes are
   * updated. A refused password call ends it.
   */
  method SetPasswordThenUpdate(pool: UserPool, email: string, password: string, permanent: bool,
                               attributes: seq<Attribute>)
    returns (reply: Reply)
    modifies pool
    ensures var setCall := SetPassword(email, password, permanent);
            var update := UpdateAttributes(email, attributes);
            var first := old(pool.NextReply(setCall));
            var mid := After(old(pool.users), setCall, first);
      if first.Ok? then
        && pool.log == old(pool.log) + [setCall, update]
        && reply == Answer(pool.faults, |old(pool.log)| + 1, mid, update)
        && pool.users == After(mid, update, reply)
      else
        && pool.log == old(pool.log) + [setCall]
        && reply == first
        && pool.users == old(pool.users)
  {
    if permanent {
      reply := SetPermanentPasswordForExistingUser(pool, email, password);
    } else {
      reply := SetTempPasswordForExistingUser(pool, email, password);
    }
    if reply.Ok? {
      reply := pool.AdminUpdateUserAttributes(email, attributes);
    }
  }

  /**
   * A run of the script after argument parsing. `hasCredentials` says
   * whether signing credentials are available and `exact` is the service's
   * answer to the exact-name query; `queries` lists the queries sent to the
   * tenant-record service. The lookup comes before any call on the pool, the
   * probe before any change, and the calls that follow are those of
   * `ProvisionCalls` for the mode and the probe's verdict, in that order,
   * up to the first one that fails.
   */
  method SetUpUser(pool: UserPool, email: string, password: string, companyName: string, role: Role,
                   mode: PasswordMode, sendInvite: bool, hasCredentials: bool, exact: GraphQLResponse)
    returns (outcome: Outcome, queries: seq<Query>)
    modifies pool
    // no other user is touched
    ensures pool.users - {email} == old(pool.users) - {email}
    ensures !hasCredentials ==>
              && outcome == Failed(NoCredentials) && queries == []
              && pool.log == old(pool.log) && pool.users == old(pool.users)
    ensures hasCredentials ==> queries == [FindByName(companyName)]
    ensures hasCredentials && ResolveSingleTier(companyName, exact).Failure? ==>
              && outcome == Failed(LookupFailed(ResolveSingleTier(companyName, exact).error))
              && pool.log == old(pool.log) && pool.users == old(pool.users)
    ensures hasCredentials && ResolveSingleTier(companyName, exact).Success? ==>
              var probe := Existence(old(pool.NextReply(GetUser(email))));
              var plan := if probe.Success?
                          then ProvisionCalls(mode, probe.value, email, password,
                                              RoleAttributes(role, ResolveSingleTier(companyName, exact).value),
                                              !sendInvite)
                          else [];
              && old(pool.log) + [GetUser(email)] <= pool.log <= old(pool.log) + [GetUser(email)] + plan
              && (probe.Failure? ==> outcome == Failed(ProviderError(probe.error)) && pool.users == old(pool.users))
              // after a successful probe, at least the first call of the plan is issued
              && (probe.Success? ==> old(pool.log) + [GetUser(email)] < pool.log)
              && (outcome.Failed? ==> outcome.error.ProviderError?)
              // a refused call after the probe ends the run with its code; what came before it stays
              && (probe.Success? && outcome.Failed? ==>
                    var first := Answer(pool.faults, |old(pool.log)| + 1, old(pool.users), plan[0]);
                    var mid := After(old(pool.users), plan[0], first);
                    && (pool.log == old(pool.log) + [GetUser(email), plan[0]] ==>
                          first.Error? && outcome == Failed(ProviderError(first.code)) && pool.users == old(pool.users))
                    && (|plan| == 2 && (first.Ok? || (plan[0].CreateUser? && first == Error(UsernameExistsException))) ==>
                          pool.log == old(pool.log) + [GetUser(email)] + plan)
                    && (|plan| == 2 && pool.log == old(pool.log) + [GetUser(email)] + plan ==>
                          var last := Answer(pool.faults, |old(pool.log)| + 2, mid, plan[1]);
                          last.Error? && outcome == Failed(ProviderError(last.code)) && pool.users == mid))
              // success means every call that counts was accepted
              && (probe.Success? ==>
                    var first := Answer(pool.faults, |old(pool.log)| + 1, old(pool.users), plan[0]);
                    var mid := After(old(pool.users), plan[0], first);
                    && (first.Error? && !(|plan| == 2 && plan[0].CreateUser? && first == Error(UsernameExistsException)) ==>
                          && pool.log == old(pool.log) + [GetUser(email), plan[0]]
                          && outcome == Failed(ProviderError(first.code)) && pool.users == old(pool.users))
                    && (|plan| == 1 ==> (outcome.Done? <==> first.Ok?))
                    && (|plan| == 2 && pool.log == old(pool.log) + [GetUser(email)] + plan ==>
                          (outcome.Done? <==> Answer(pool.faults, |old(pool.log)| + 2, mid, plan[1]).Ok?)))
              && (outcome.Done? ==>
                    && pool.log == old(pool.log) + [GetUser(email)] + plan
                    && pool.users == Run(old(pool.users), plan))
              && (old(pool.Quiet(3)) ==> outcome.Done?)
  {
    // 1) look up the company id; the credentials are fetched first
    if !hasCredentials {
      return Failed(NoCredentials), [];
    }
    queries := [FindByName(companyName)];
    var lookup := ResolveSingleTier(companyName, exact);
    if lookup.Failure? {
      return Failed(LookupFailed(lookup.error)), queries;
    }

    // 2) the role's attribute
    var attributes := RoleAttributes(role, lookup.value);

    // 3) create or update the user according to the mode
    var suppress := !sendInvite;
    var present := UserExists(pool, email);
    if present.Failure? {
      return Failed(ProviderError(present.error)), queries;
    }
    var reply := Provision(pool, email, password, mode, present.value, attributes, suppress);
    outcome := if reply.Ok? then Done else Failed(ProviderError(reply.code));
  }

  /**
   * What the calls of `plan` issued on `pool` after the existence probe did:
   * only the user `email` changes; the calls issued are a non-empty prefix
   * of the plan and stop at the first refusal. When the last reply is a
   * success, all were issued and the users are `Run` of them. A refused call
   * is the last one, its reply is the one returned, and what the calls
   * before it did stays in place.
   */
  twostate predicate Provisioned(pool: UserPool, email: string, plan: seq<Call>, reply: Reply)
    reads pool
  {
    && 1 <= |plan|
    && pool.users - {email} == old(pool.users) - {email}
    && old(pool.log) < pool.log <= old(pool.log) + plan
    && (reply.Ok? ==> pool.log == old(pool.log) + plan && pool.users == Run(old(pool.users), plan))
    && var first := old(pool.NextReply(plan[0]));
       var mid := After(old(pool.users), plan[0], first);
       && (reply.Error? && pool.log == old(pool.log) + [plan[0]] ==>
             reply == first && pool.users == old(pool.users))
       && (reply.Error? && |plan| == 2 && pool.log == old(pool.log) + plan ==>
             reply == Answer(pool.faults, |old(pool.log)| + 1, mid, plan[1]) && pool.users == mid)
       // the second call follows an accepted first one, and a create refused because the user exists
       && (|plan| == 2 && (first.Ok? || (plan[0].CreateUser? && first == Error(UsernameExistsException))) ==>
             pool.log == old(pool.log) + plan)
       // any other refusal of the first call ends the run with that reply and changes nothing
       && (first.Error? && !(|plan| == 2 && plan[0].CreateUser? && first == Error(UsernameExistsException)) ==>
             pool.log == old(pool.log) + [plan[0]] && reply == first && pool.users == old(pool.users))
       // a one-call plan answers with that call's reply
       && (|plan| == 1 ==> reply == first && pool.users == mid)
       // when both calls were issued, the second call's reply is the one returned
       && (|plan| == 2 && pool.log == old(pool.log) + plan ==>
             var last := Answer(pool.faults, |old(pool.log)| + 1, mid, plan[1]);
             reply == last && pool.users == After(mid, plan[1], last))
  }

  /**
   * The calls of a temporary-password run after the existence probe: a
   * password reset and an attribute update for an existing user, one create
   * call for a new one.
   */
  method ProvisionTemp(pool: UserPool, email: string, password: string, present: bool,
                       attributes: seq<Attribute>, suppress: bool)
    returns (reply: Reply)
    modifies pool
    ensures Provisioned(pool, email, ProvisionCalls(TempPassword, present, email, password, attributes, suppress), reply)
    ensures old(pool.Quiet(2)) && (present <==> email in old(pool.users)) ==> reply.Ok?
  {
    ghost var users0 := pool.users;
    ghost var plan := ProvisionCalls(TempPassword, present, email, password, attributes, suppress);
    if present {
      assert plan == [SetPassword(email, password, false), UpdateAttributes(email, attributes)];
      reply := SetPasswordThenUpdate(pool, email, password, false, attributes);
      RunShort(users0, plan[0], plan[1]);
    } else {
      assert plan == [CreateUser(email, CreateAttributes(email, attributes), Some(password), MessageAction(suppress))];
      reply := CreateUserWithTempPassword(pool, email, password, attributes, suppress);
      RunShort(users0, plan[0], plan[0]);
    }
  }

  /**
   * The calls of a permanent-password run after the existence probe: a
   * password set and an attribute update for an existing user, a create
   * call followed by a password set for a new one.
   */
  method ProvisionPermanent(pool: UserPool, email: string, password: string, present: bool,
                            attributes: seq<Attribute>, suppress: bool)
    returns (reply: Reply)
    modifies pool
    ensures Provisioned(pool, email, ProvisionCalls(PermanentPassword, present, email, password, attributes, suppress),
                        reply)
    ensures old(pool.Quiet(2)) && (present <==> email in old(pool.users)) ==> reply.Ok?
  {
    ghost var users0 := pool.users;
    ghost var plan := ProvisionCalls(PermanentPassword, present, email, password, attributes, suppress);
    if present {
      assert plan == [SetPassword(email, password, true), UpdateAttributes(email, attributes)];
      reply := SetPasswordThenUpdate(pool, email, password, true, attributes);
    } else {
      assert plan == [CreateUser(email, CreateAttributes(email, attributes), None, MessageAction(suppress)),
                      SetPassword(email, password, true)];
      reply := CreateUserAndSetPermanentPassword(pool, email, password, attributes, suppress);
    }
    RunShort(users0, plan[0], plan[1]);
  }

  /**
   * The calls of a run after the existence probe, by mode and then by the
   * probe's verdict `present`. Against a service that adds no errors of its
   * own, with a verdict that matches the pool, none fails.
   */
  method Provision(pool: UserPool, email: string, password: string, mode: PasswordMode, present: bool,
                   attributes: seq<Attribute>, suppress: bool)
    returns (reply: Reply)
    modifies pool
    ensures Provisioned(pool, email, ProvisionCalls(mode, present, email, password, attributes, suppress), reply)
    ensures old(pool.Quiet(2)) && (present <==> email in old(pool.users)) ==> reply.Ok?
  {
    if mode == TempPassword {
      reply := ProvisionTemp(pool, email, password, present, attributes, suppress);
    } else {
      reply := ProvisionPermanent(pool, email, password, present, attributes, suppress);
    }
  }

  /** The credential a run leaves the user with. */
  function Target(mode: PasswordMode, password: string): Credential {
    if mode == PermanentPassword then Permanent(password) else Temporary(password)
  }

  /**
   * What one successful run leaves behind: the user exists, holds the
   * mode's password, and holds the attributes written, over those it had
   * or, for a new user, over nothing but its email.
   */
  lemma ProvisionedUser(users: map<string, User>, mode: PasswordMode, email: string,
                        password: string, attributes: seq<Attribute>, suppress: bool)
    ensures var once := Run(users, ProvisionCalls(mode, email in users, email, password, attributes, suppress));
      && email in once
      && once.Keys == users.Keys + {email}
      && once[email].credential == Target(mode, password)
      && (email in users ==> once[email].attributes == users[email].attributes + Writes(attributes))
      && (email !in users ==> once[email].attributes == Writes(CreateAttributes(email, attributes)))
      && once[email].attributes + Writes(attributes) == once[email].attributes
  {
    var plan := ProvisionCalls(mode, email in users, email, password, attributes, suppress);
    var prefix := [Attribute("email", email), Attribute("email_verified", "true")];
    if email in users {
      RunShort(users, plan[0], plan[1]);
      UpdateIdempotent(users[email].attributes, attributes);
    } else {
      if mode == TempPassword {
        RunShort(users, plan[0], plan[0]);
      } else {
        RunShort(users, plan[0], plan[1]);
      }
      WritesAppend(prefix, attributes);
      UpdateIdempotent(Writes(prefix), attributes);
    }
  }

  /**
   * The existing-user path changes nothing for a user that already holds
   * the mode's password and every attribute the run writes.
   */
  lemma ExistingPathSettled(users: map<string, User>, mode: PasswordMode, email: string,
                            password: string, attributes: seq<Attribute>, suppress: bool)
    requires email in users && users[email].credential == Target(mode, password)
    requires users[email].attributes + Writes(attributes) == users[email].attributes
    ensures Run(users, ProvisionCalls(mode, true, email, password, attributes, suppress)) == users
  {
    var again := ProvisionCalls(mode, true, email, password, attributes, suppress);
    RunShort(users, again[0], again[1]);
    var u := users[email];
    assert Step(users, again[0]) == users by {
      assert u.(credential := Target(mode, password)) == u;
    }
    assert Step(users, again[1]) == users by {
      assert u.(attributes := u.attributes + Writes(attributes)) == u;
    }
  }

  /**
   * Re-running the script with the same input converges: after one
   * successful run the user exists, and the calls of a second run (which
   * then takes the existing-user path) leave every user as the first run
   * left them.
   */
  lemma ProvisionConverges(users: map<string, User>, mode: PasswordMode, email: string,
                           password: string, attributes: seq<Attribute>, suppress: bool)
    ensures var once := Run(users, ProvisionCalls(mode, email in users, email, password, attributes, suppress));
      && email in once
      && Run(once, ProvisionCalls(mode, true, email, password, attributes, suppress)) == once
  {
    ProvisionedUser(users, mode, email, password, attributes, suppress);
    var once := Run(users, ProvisionCalls(mode, email in users, email, password, attributes, suppress));
    ExistingPathSettled(once, mode, email, password, attributes, suppress);
  }

  /**
   * A user created by someone else between the probe and the create call
   * of a permanent-mode run: the create call is refused and its refusal
   * ignored, so the run sets the permanent password but leaves the user's
   * attributes, the tenant attribute included, as they were.
   */
  lemma PermanentRaceKeepsAttributes(users: map<string, User>, email: string, password: string,
                                     attributes: seq<Attribute>, suppress: bool)
    requires email in users
    ensures var after := Run(users, ProvisionCalls(PermanentPassword, false, email, password, attributes, suppress));
      && email in after
      && after[email] == User(users[email].attributes, Permanent(password))
  {
    var plan := ProvisionCalls(PermanentPassword, false, email, password, attributes, suppress);
    RunShort(users, plan[0], plan[1]);
  }

  /**
   * Two runs with the same input against a service that adds no errors of
   * its own: both succeed, and the second leaves the users exactly as the
   * first did.
   */
  method SetUpUserTwice(pool: UserPool, email: string, password: string, companyName: string, role: Role,
                        mode: PasswordMode, sendInvite: bool, exact: GraphQLResponse)
    returns (first: Outcome, second: Outcome)
    requires ResolveSingleTier(companyName, exact).Success?
    requires pool.Quiet(6)
    modifies pool
    ensures first == Done && second == Done
    ensures email in pool.users
    ensures pool.users == Run(old(pool.users), ProvisionCalls(mode, email in old(pool.users), email, password,
                                RoleAttributes(role, ResolveSingleTier(companyName, exact).value), !sendInvite))
  {
    ghost var attributes := RoleAttributes(role, ResolveSingleTier(companyName, exact).value);
    ghost var users0 := pool.users;
    var queries;
    first, queries := SetUpUser(pool, email, password, companyName, role, mode, sendInvite, true, exact);
    ProvisionConverges(users0, mode, email, password, attributes, !sendInvite);
    ghost var once := pool.users;
    assert pool.Quiet(3);
    second, queries := SetUpUser(pool, email, password, companyName, role, mode, sendInvite, true, exact);
  }
}
