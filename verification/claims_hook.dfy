/**
 * The pre-token-generation hook of the user pool. At every sign-in the
 * identity provider hands it an event; the hook copies the principal's two
 * tenant attributes into the token's `claimsToAddOrOverride` and returns the
 * same event, leaving every other claim override as it found it.
 */
module ClaimsHook {
  import opened Wrappers
  import IdentityProvider

  /** Each claim is named after the user-pool attribute it carries. */
  const OwnerClaim: string := IdentityProvider.OwnerIdAttribute
  const CustomerClaim: string := IdentityProvider.CustomerIdAttribute

  /**
   * `response.claimsOverrideDetails`. `claimsToAddOrOverride` is None when the
   * key is absent or null; `claimsToSuppress` and `groupOverrideDetails` are
   * None only when the key is absent (a null value is `Some(JNull)`);
   * `others` holds any further keys.
   */
  datatype OverrideDetails = OverrideDetails(
    claimsToAddOrOverride: Option<map<string, string>>,
    claimsToSuppress: Option<Json>,
    groupOverrideDetails: Option<Json>,
    others: map<string, Json>)

  /** `request`: `userAttributes` is None when absent or null. */
  datatype Request = Request(userAttributes: Option<map<string, string>>, others: map<string, Json>)

  /** `response`: `claimsOverrideDetails` is None when absent or null. */
  datatype Response = Response(claimsOverrideDetails: Option<OverrideDetails>, others: map<string, Json>)

  /** The hook fails only when `response` is present but null. */
  datatype HookError = ResponseIsNull

  /** The event the identity provider passes in; the hook updates it in place. */
  class Event {
    /** None when `request` is absent or null. */
    var request: Option<Request>
    var response: Slot<Response>
    /** `triggerSource`, `userName`, `callerContext` and every other top-level key. */
    var others: map<string, Json>

    constructor (request: Option<Request>, response: Slot<Response>, others: map<string, Json>)
      ensures this.request == request && this.response == response && this.others == others
    {
      this.request := request;
      this.response := response;
      this.others := others;
    }
  }

  /** The principal's attributes, with an absent or null structure read as empty. */
  function UserAttributes(request: Option<Request>): (attrs: map<string, string>)
    ensures request.None? || request.value.userAttributes.None? ==> attrs == map[]
    ensures request.Some? && request.value.userAttributes.Some? ==> attrs == request.value.userAttributes.value
  {
    match request
    case None => map[]
    case Some(req) => req.userAttributes.GetOr(map[])
  }

  /**
   * The value the hook stamps for `key`: the attribute when it is present
   * and not the empty string (Python's truthiness of a string).
   */
  function Stamp(attrs: map<string, string>, key: string): (v: Option<string>)
    ensures v.Some? <==> key in attrs && attrs[key] != ""
    ensures v.Some? ==> v.value == attrs[key]
  {
    if key in attrs && attrs[key] != "" then Some(attrs[key]) else None
  }

  /** The incoming override details, with an absent or null structure read as empty. */
  function Incoming(cod: Option<OverrideDetails>): OverrideDetails {
    cod.GetOr(OverrideDetails(None, None, None, map[]))
  }

  /** The incoming `claimsToAddOrOverride`, with an absent or null map read as empty. */
  function IncomingClaims(cod: Option<OverrideDetails>): map<string, string> {
    Incoming(cod).claimsToAddOrOverride.GetOr(map[])
  }

  /** The two tenant claims that are stamped, keyed by claim name. */
  function Stamped(attrs: map<string, string>): (m: map<string, string>)
    ensures forall k :: k in m <==> (k == OwnerClaim || k == CustomerClaim) && Stamp(attrs, k).Some?
    ensures forall k :: k in m ==> k in attrs && m[k] == attrs[k]
  {
    var owner := Stamp(attrs, OwnerClaim);
    var customer := Stamp(attrs, CustomerClaim);
    var m := if owner.Some? then map[OwnerClaim := owner.value] else map[];
    if customer.Some? then m[CustomerClaim := customer.value] else m
  }

  /**
   * The `claimsOverrideDetails` the hook writes back, given the incoming one
   * and the principal's attributes.
   */
  function Augmented(cod: Option<OverrideDetails>, attrs: map<string, string>): (r: OverrideDetails)
    // the claim map is always present
    ensures r.claimsToAddOrOverride.Some?
    // keys: the incoming keys plus the tenant claims that have a value
    ensures r.claimsToAddOrOverride.value.Keys
         == IncomingClaims(cod).Keys + Stamped(attrs).Keys
    // every other incoming claim keeps its value
    ensures forall k :: k in IncomingClaims(cod) && k != OwnerClaim && k != CustomerClaim ==>
              r.claimsToAddOrOverride.value[k] == IncomingClaims(cod)[k]
    // a tenant claim with a value is overwritten by it
    ensures forall k :: (k == OwnerClaim || k == CustomerClaim) && Stamp(attrs, k).Some? ==>
              r.claimsToAddOrOverride.value[k] == attrs[k]
    // a tenant claim without a value is left exactly as it was
    ensures forall k :: (k == OwnerClaim || k == CustomerClaim) && Stamp(attrs, k).None? ==>
              (k in r.claimsToAddOrOverride.value <==> k in IncomingClaims(cod)) &&
              (k in IncomingClaims(cod) ==> r.claimsToAddOrOverride.value[k] == IncomingClaims(cod)[k])
    // the two optional structures are copied verbatim iff they were there, nothing else survives
    ensures r.claimsToSuppress == Incoming(cod).claimsToSuppress
    ensures r.groupOverrideDetails == Incoming(cod).groupOverrideDetails
    ensures r.others == map[]
  {
    var d := Incoming(cod);
    OverrideDetails(Some(IncomingClaims(cod) + Stamped(attrs)), d.claimsToSuppress, d.groupOverrideDetails, map[])
  }

  /** `event.setdefault("response", {})`. */
  function WithResponse(response: Slot<Response>): (r: Slot<Response>)
    // afterwards the key is there; a response already there, even a null one, is kept
    ensures !r.Absent?
    ensures !response.Absent? ==> r == response
    ensures response.Absent? ==> r == Given(Response(None, map[]))
  {
    if response.Absent? then Given(Response(None, map[])) else response
  }

  /**
   * The hook itself. It creates `response` when it is absent, replaces
   * `response.claimsOverrideDetails` and touches nothing else; it returns
   * the event it was given. A null `response` makes it fail before it
   * changes anything.
   */
  method Handler(event: Event) returns (result: Result<Event, HookError>)
    modifies event
    ensures event.request == old(event.request) && event.others == old(event.others)
    ensures old(event.response).Null? ==>
              result == Failure(ResponseIsNull) && event.response == old(event.response)
    ensures !old(event.response).Null? ==>
              && result == Success(event)
              && var before := WithResponse(old(event.response)).value;
                 event.response == Given(before.(claimsOverrideDetails :=
                   Some(Augmented(before.claimsOverrideDetails, UserAttributes(old(event.request))))))
  {
    IdentityProvider.TenantAttributesDistinct();
    // scaffolding
    if event.response.Absent? {
      event.response := Given(Response(None, map[]));
    }
    if event.response.Null? {
      return Failure(ResponseIsNull);
    }
    var response := event.response.value;
    var cod := if response.claimsOverrideDetails.Some? then response.claimsOverrideDetails.value
               else OverrideDetails(None, None, None, map[]);
    var claims := if cod.claimsToAddOrOverride.Some? then cod.claimsToAddOrOverride.value else map[];

    // the principal's attributes
    var attrs := map[];
    if event.request.Some? && event.request.value.userAttributes.Some? {
      attrs := event.request.value.userAttributes.value;
    }
    var ownerId := if OwnerClaim in attrs then Some(attrs[OwnerClaim]) else None;
    var customerId := if CustomerClaim in attrs then Some(attrs[CustomerClaim]) else None;

    if ownerId.Some? && ownerId.value != "" {
      claims := claims[OwnerClaim := ownerId.value];
    }
    if customerId.Some? && customerId.value != "" {
      claims := claims[CustomerClaim := customerId.value];
    }

    // re-assemble the override details
    var out := OverrideDetails(Some(claims), None, None, map[]);
    if cod.claimsToSuppress.Some? {
      out := out.(claimsToSuppress := cod.claimsToSuppress);
    }
    if cod.groupOverrideDetails.Some? {
      out := out.(groupOverrideDetails := cod.groupOverrideDetails);
    }

    StampedWrites(IncomingClaims(response.claimsOverrideDetails), attrs);
    assert out == Augmented(response.claimsOverrideDetails, attrs);
    event.response := Given(response.(claimsOverrideDetails := Some(out)));
    return Success(event);
  }

  /** The two conditional claim writes of the hook, one after the other, merge `Stamped` into the claims. */
  lemma StampedWrites(claims: map<string, string>, attrs: map<string, string>)
    ensures var owner := if OwnerClaim in attrs then Some(attrs[OwnerClaim]) else None;
            var customer := if CustomerClaim in attrs then Some(attrs[CustomerClaim]) else None;
            var withOwner := if owner.Some? && owner.value != "" then claims[OwnerClaim := owner.value] else claims;
            var withBoth := if customer.Some? && customer.value != "" then withOwner[CustomerClaim := customer.value]
                            else withOwner;
      withBoth == claims + Stamped(attrs)
  {
    IdentityProvider.TenantAttributesDistinct();
  }

  /**
   * Running the hook on its own output changes nothing: a second sign-in
   * stage with the same attributes yields the same override details.
   */
  lemma AugmentedIdempotent(cod: Option<OverrideDetails>, attrs: map<string, string>)
    ensures Augmented(Some(Augmented(cod, attrs)), attrs) == Augmented(cod, attrs)
  {
    var once := Augmented(cod, attrs);
    var claims := once.claimsToAddOrOverride.value;
    assert IncomingClaims(Some(once)) == claims;
    assert claims + Stamped(attrs) == claims;
  }

  /**
   * A principal with neither tenant attribute gets exactly the incoming
   * claims back: nothing is added, removed or changed.
   */
  lemma AbsenceIsNeutral(cod: Option<OverrideDetails>, attrs: map<string, string>)
    requires Stamp(attrs, OwnerClaim).None? && Stamp(attrs, CustomerClaim).None?
    ensures Augmented(cod, attrs).claimsToAddOrOverride == Some(IncomingClaims(cod))
  {
    assert Stamped(attrs) == map[];
    assert IncomingClaims(cod) + map[] == IncomingClaims(cod);
  }
}
