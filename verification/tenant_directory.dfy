/**
 * Resolving a company name to its id against the GraphQL tenant-record
 * service. The service's answers are inputs: the answer to the exact-name
 * query and, for the two-tier resolver, the answer to the listing query.
 * A resolution reports which of the two queries it issued.
 */
module TenantDirectory {
  import opened Wrappers
  import Text

  /** One element of `listCompanies.items`; the `items { id name }` selection is
   * taken to return a string `id`. */
  datatype CompanyItem = CompanyItem(id: string, name: Slot<string>)

  /** `listCompanies`. */
  datatype Connection = Connection(items: Slot<seq<CompanyItem>>)

  /** The response's `data`. */
  datatype Payload = Payload(listCompanies: Slot<Connection>)

  /** An HTTP response of the service, with its JSON body parsed. */
  datatype GraphQLResponse = GraphQLResponse(status: int, errors: Slot<seq<Json>>, data: Slot<Payload>)

  /** The two queries the resolvers issue. */
  datatype Query = FindByName(name: string) | ListAll(limit: nat)

  /** The page size of the listing query; later pages are never fetched. */
  const PageLimit: nat := 1000

  datatype LookupError =
    | HttpError(status: int)
    | GraphQLErrors(errors: seq<Json>)
    /** a null where the code dereferences, or a key the code indexes missing */
    | MalformedResponse
    | NotFound(name: string)
    | Ambiguous(name: string, caseInsensitive: bool)

  /** What a resolution yields, and the queries it sent, in order. */
  datatype Resolution = Resolution(result: Result<string, LookupError>, issued: seq<Query>)

  /**
   * `appsync_post`'s verdict on a response: a status other than 200 or a
   * non-empty `errors` list is an error, anything else hands back `data`.
   */
  function Post(resp: GraphQLResponse): (r: Result<Slot<Payload>, LookupError>)
    ensures r.Success? <==> resp.status == 200 && (resp.errors.Given? ==> resp.errors.value == [])
    ensures r.Success? ==> r.value == resp.data
    ensures resp.status != 200 ==> r == Failure(HttpError(resp.status))
    ensures resp.status == 200 && resp.errors.Given? && resp.errors.value != [] ==>
              r == Failure(GraphQLErrors(resp.errors.value))
  {
    if resp.status != 200 then Failure(HttpError(resp.status))
    else if resp.errors.Given? && resp.errors.value != [] then Failure(GraphQLErrors(resp.errors.value))
    else Success(resp.data)
  }

  /**
   * `(data.get("data", {}).get("listCompanies", {}) or {}).get("items", []) or []`:
   * a missing or null `listCompanies` or `items` reads as no items; only a
   * null `data` cannot be read.
   */
  function LenientItems(data: Slot<Payload>): (r: Result<seq<CompanyItem>, LookupError>)
    ensures r.Failure? <==> data.Null?
    ensures r.Failure? ==> r.error == MalformedResponse
    ensures r.Success? && r.value != [] ==> data == Given(Payload(Given(Connection(Given(r.value)))))
    ensures data.Given? && data.value.listCompanies.Given? && data.value.listCompanies.value.items.Given? ==>
              r == Success(data.value.listCompanies.value.items.value)
  {
    match data
    case Absent => Success([])
    case Null => Failure(MalformedResponse)
    case Given(payload) =>
      match payload.listCompanies
      case Given(conn) => (if conn.items.Given? then Success(conn.items.value) else Success([]))
      case _ => Success([])
  }

  /**
   * `data["data"]["listCompanies"]["items"]`: every level must be there and
   * not null, except that a null `items` reads as an empty list (the code
   * only tests it for truthiness).
   */
  function StrictItems(data: Slot<Payload>): (r: Result<seq<CompanyItem>, LookupError>)
    ensures r.Success? <==>
              data.Given? && data.value.listCompanies.Given? && !data.value.listCompanies.value.items.Absent?
    ensures r.Failure? ==> r.error == MalformedResponse
    ensures r.Success? && r.value != [] ==> data == Given(Payload(Given(Connection(Given(r.value)))))
    ensures data.Given? && data.value.listCompanies.Given? && data.value.listCompanies.value.items.Given? ==>
              r == Success(data.value.listCompanies.value.items.value)
  {
    if data.Given? && data.value.listCompanies.Given? then
      match data.value.listCompanies.value.items
      case Absent => Failure(MalformedResponse)
      case Null => Success([])
      case Given(items) => Success(items)
    else Failure(MalformedResponse)
  }

  /** `c.get("name", "")` for an item whose name is not null. */
  function NameOf(c: CompanyItem): string
    requires !c.name.Null?
  {
    if c.name.Given? then c.name.value else ""
  }

  /** The case-insensitive comparison of the fallback: both sides stripped and lower-cased. */
  predicate Matches(c: CompanyItem, query: string) {
    !c.name.Null? && Text.Fold(NameOf(c)) == Text.Fold(query)
  }

  /** Some item of `items` has a null name, on which `.strip()` raises. */
  predicate HasNullName(items: seq<CompanyItem>) {
    exists i :: 0 <= i < |items| && items[i].name.Null?
  }

  /** `[c for c in items if p(c)]`. */
  function Keep(items: seq<CompanyItem>, p: CompanyItem -> bool): (r: seq<CompanyItem>)
    ensures |r| <= |items|
  {
    if items == [] then [] else (if p(items[0]) then [items[0]] else []) + Keep(items[1..], p)
  }

  /** The item at `i` satisfies `p` and no other index does. */
  predicate UniqueAt(items: seq<CompanyItem>, p: CompanyItem -> bool, i: int) {
    && 0 <= i < |items|
    && p(items[i])
    && forall j :: 0 <= j < |items| && j != i ==> !p(items[j])
  }

  /** Two different indices satisfy `p`. */
  predicate TwoAt(items: seq<CompanyItem>, p: CompanyItem -> bool) {
    exists i, j :: 0 <= i < j < |items| && p(items[i]) && p(items[j])
  }

  /** The filter keeps exactly the items that satisfy `p`. */
  lemma {:induction false} KeepMembers(items: seq<CompanyItem>, p: CompanyItem -> bool)
    ensures forall c :: c in Keep(items, p) <==> c in items && p(c)
  {
    if items != [] {
      KeepMembers(items[1..], p);
      assert items == [items[0]] + items[1..];
    }
  }

  /** When no item satisfies `p`, the filter keeps nothing. */
  lemma {:induction false} KeepNone(items: seq<CompanyItem>, p: CompanyItem -> bool)
    requires forall j :: 0 <= j < |items| ==> !p(items[j])
    ensures Keep(items, p) == []
  {
    if items != [] {
      assert forall j :: 0 <= j < |items[1..]| ==> !p(items[1..][j]) by {
        forall j | 0 <= j < |items[1..]| ensures !p(items[1..][j]) {
          assert items[1..][j] == items[j + 1];
        }
      }
      KeepNone(items[1..], p);
    }
  }

  /** When exactly one index satisfies `p`, the filter keeps that item alone. */
  lemma {:induction false} KeepUnique(items: seq<CompanyItem>, p: CompanyItem -> bool, i: int)
    requires UniqueAt(items, p, i)
    ensures Keep(items, p) == [items[i]]
  {
    var rest := items[1..];
    if i == 0 {
      assert forall j :: 0 <= j < |rest| ==> !p(rest[j]) by {
        forall j | 0 <= j < |rest| ensures !p(rest[j]) {
          assert rest[j] == items[j + 1];
        }
      }
      KeepNone(rest, p);
    } else {
      assert UniqueAt(rest, p, i - 1) by {
        forall j | 0 <= j < |rest| && j != i - 1 ensures !p(rest[j]) {
          assert rest[j] == items[j + 1];
        }
      }
      KeepUnique(rest, p, i - 1);
    }
  }

  /** Two or more kept items come from two indices that satisfy `p`. */
  lemma {:induction false} KeptTwoHasTwo(items: seq<CompanyItem>, p: CompanyItem -> bool)
    requires |Keep(items, p)| > 1
    ensures TwoAt(items, p)
  {
    var rest := items[1..];
    if p(items[0]) {
      KeepMembers(rest, p);
      assert Keep(rest, p)[0] in Keep(rest, p);
      var j :| 0 <= j < |rest| && rest[j] == Keep(rest, p)[0];
      assert p(items[0]) && p(items[j + 1]);
    } else {
      KeptTwoHasTwo(rest, p);
      var i, j :| 0 <= i < j < |rest| && p(rest[i]) && p(rest[j]);
      assert p(items[i + 1]) && p(items[j + 1]);
    }
  }

  /** Two indices that satisfy `p` leave two or more kept items. */
  lemma {:induction false} TwoHasKeptTwo(items: seq<CompanyItem>, p: CompanyItem -> bool)
    requires TwoAt(items, p)
    ensures |Keep(items, p)| > 1
  {
    var rest := items[1..];
    var i, j :| 0 <= i < j < |items| && p(items[i]) && p(items[j]);
    if i == 0 {
      KeepMembers(rest, p);
      assert rest[j - 1] in Keep(rest, p);
    } else {
      assert p(rest[i - 1]) && p(rest[j - 1]);
      TwoHasKeptTwo(rest, p);
    }
  }

  /** The filter keeps two or more items exactly when two indices satisfy `p`. */
  lemma KeepTwo(items: seq<CompanyItem>, p: CompanyItem -> bool)
    ensures |Keep(items, p)| > 1 <==> TwoAt(items, p)
  {
    if |Keep(items, p)| > 1 {
      KeptTwoHasTwo(items, p);
    }
    if TwoAt(items, p) {
      TwoHasKeptTwo(items, p);
    }
  }

  /**
   * How many items the filter keeps tells how many indices satisfy `p`:
   * none, exactly one (and then it is the one kept), or at least two.
   */
  lemma KeepCount(items: seq<CompanyItem>, p: CompanyItem -> bool)
    ensures |Keep(items, p)| == 0 <==> forall i :: 0 <= i < |items| ==> !p(items[i])
    ensures |Keep(items, p)| == 1 <==> exists i :: UniqueAt(items, p, i)
    ensures forall i :: UniqueAt(items, p, i) ==> Keep(items, p) == [items[i]]
    ensures |Keep(items, p)| > 1 <==> TwoAt(items, p)
  {
    KeepMembers(items, p);
    KeepTwo(items, p);
    forall i | UniqueAt(items, p, i) ensures Keep(items, p) == [items[i]] {
      KeepUnique(items, p, i);
    }
    if |Keep(items, p)| > 0 {
      assert Keep(items, p)[0] in Keep(items, p);
    }
    if |Keep(items, p)| == 1 {
      var c := Keep(items, p)[0];
      assert c in Keep(items, p);
      var i :| 0 <= i < |items| && items[i] == c;
      assert UniqueAt(items, p, i);
    }
  }

  /** The fallback's comparison as a predicate on items. */
  function MatchesName(query: string): CompanyItem -> bool {
    c => Matches(c, query)
  }

  /**
   * `[c for c in items if c.get("name", "").strip().lower() == name.strip().lower()]`,
   * which raises if an item's name is null. Otherwise the matches are
   * exactly the listed items whose name, stripped and lower-cased, equals
   * the query stripped and lower-cased.
   */
  function CaseInsensitiveMatches(items: seq<CompanyItem>, query: string): (r: Result<seq<CompanyItem>, LookupError>)
    ensures r.Failure? <==> HasNullName(items)
    ensures r.Failure? ==> r.error == MalformedResponse
    ensures r.Success? ==> forall c :: c in r.value <==> c in items && Matches(c, query)
  {
    KeepMembers(items, MatchesName(query));
    if HasNullName(items) then Failure(MalformedResponse) else Success(Keep(items, MatchesName(query)))
  }

  /** An item without a `name` key compares as the empty name: it matches only a blank query. */
  lemma NamelessMatchesBlank(id: string, query: string)
    ensures Matches(CompanyItem(id, Absent), query) <==> Text.Trim(query) == []
  {
    assert Text.Fold("") == [] by {
      Text.TrimKeeps("");
    }
  }

  /** `resp` is a successful answer of the service listing exactly `items`. */
  predicate Answered(resp: GraphQLResponse, items: seq<CompanyItem>) {
    && resp.status == 200
    && (resp.errors.Given? ==> resp.errors.value == [])
    && resp.data == Given(Payload(Given(Connection(Given(items)))))
  }

  /**
   * The items of an answer as the attribute-update script reads it:
   * `appsync_post`, then the lenient read. A service error is passed on;
   * an answer listing items yields exactly those items.
   */
  function ReadItems(resp: GraphQLResponse): (r: Result<seq<CompanyItem>, LookupError>)
    ensures Post(resp).Failure? ==> r == Failure(Post(resp).error)
    ensures Post(resp).Success? ==> (r.Failure? <==> resp.data.Null?)
    ensures forall items :: Answered(resp, items) ==> r == Success(items)
    ensures r.Success? && r.value != [] ==> Answered(resp, r.value)
  {
    match Post(resp)
    case Failure(e) => Failure(e)
    case Success(data) => LenientItems(data)
  }

  /** The second tier: a case-insensitive match over the first page of all companies. */
  function Fallback(name: string, listing: GraphQLResponse): (r: Result<string, LookupError>)
    ensures ReadItems(listing).Failure? ==> r == Failure(ReadItems(listing).error)
    ensures r.Success? ==> exists c :: c in ReadItems(listing).value && Matches(c, name) && c.id == r.value
    ensures r.Failure? && ReadItems(listing).Success? ==>
              (r.error == MalformedResponse || r.error == NotFound(name) || r.error == Ambiguous(name, true))
  {
    match ReadItems(listing)
    case Failure(e) => Failure(e)
    case Success(items) =>
      match CaseInsensitiveMatches(items, name)
      case Failure(e) => Failure(e)
      case Success(matches) =>
        if |matches| == 0 then Failure(NotFound(name))
        else if |matches| > 1 then Failure(Ambiguous(name, true))
        else assert matches[0] in matches; Success(matches[0].id)
  }

  /**
   * `find_company_id_by_name` of the attribute-update script: the exact
   * query first; only when it finds nothing, the listing query.
   */
  function ResolveTwoTier(name: string, exact: GraphQLResponse, listing: GraphQLResponse): (r: Resolution)
    ensures r.issued == [FindByName(name)] || r.issued == [FindByName(name), ListAll(PageLimit)]
    // an error of the exact query is passed on, and the listing query is not sent
    ensures ReadItems(exact).Failure? ==> r == Resolution(Failure(ReadItems(exact).error), [FindByName(name)])
  {
    match ReadItems(exact)
    case Failure(e) => Resolution(Failure(e), [FindByName(name)])
    case Success(items) =>
      if |items| == 1 then Resolution(Success(items[0].id), [FindByName(name)])
      else if |items| > 1 then Resolution(Failure(Ambiguous(name, false)), [FindByName(name)])
      else Resolution(Fallback(name, listing), [FindByName(name), ListAll(PageLimit)])
  }

  /**
   * `find_company_id_by_name` of the user-setup script: the exact query
   * only, read strictly.
   */
  function ResolveSingleTier(name: string, exact: GraphQLResponse): (r: Result<string, LookupError>)
    // the id returned is the id of the one item the exact query found
    ensures r.Success? ==> && ReadItemsStrict(exact).Success? && |ReadItemsStrict(exact).value| == 1
                           && r.value == ReadItemsStrict(exact).value[0].id
    // no item at all is "not found", more than one is "ambiguous", never a fallback
    ensures r == Failure(NotFound(name)) <==> ReadItemsStrict(exact) == Success([])
    ensures r == Failure(Ambiguous(name, false)) <==>
              ReadItemsStrict(exact).Success? && |ReadItemsStrict(exact).value| > 1
    ensures ReadItemsStrict(exact).Failure? ==> r == Failure(ReadItemsStrict(exact).error)
    ensures ReadItemsStrict(exact).Success? && |ReadItemsStrict(exact).value| == 1 ==>
              r == Success(ReadItemsStrict(exact).value[0].id)
  {
    match ReadItemsStrict(exact)
    case Failure(e) => Failure(e)
    case Success(items) =>
      if items == [] then Failure(NotFound(name))
      else if |items| > 1 then Failure(Ambiguous(name, false))
      else Success(items[0].id)
  }

  /**
   * The items of the exact-name answer as the user-setup script reads it:
   * `appsync_post`, then the strict read. A service error is passed on; an
   * answer listing items yields exactly those items.
   */
  function ReadItemsStrict(exact: GraphQLResponse): (r: Result<seq<CompanyItem>, LookupError>)
    ensures Post(exact).Failure? ==> r == Failure(Post(exact).error)
    ensures forall items :: Answered(exact, items) ==> r == Success(items)
    ensures r.Success? && r.value != [] ==> Answered(exact, r.value)
  {
    match Post(exact)
    case Failure(e) => Failure(e)
    case Success(data) => StrictItems(data)
  }

  /** If the exact query finds exactly one company, its id is returned and no listing is fetched. */
  lemma ExactHitSkipsFallback(name: string, exact: GraphQLResponse, listing: GraphQLResponse, c: CompanyItem)
    requires ReadItems(exact) == Success([c])
    ensures ResolveTwoTier(name, exact, listing) == Resolution(Success(c.id), [FindByName(name)])
  {
  }

  /** If the exact query finds several companies, resolution fails as ambiguous and no listing is fetched. */
  lemma ExactDuplicatesSkipFallback(name: string, exact: GraphQLResponse, listing: GraphQLResponse)
    requires ReadItems(exact).Success? && |ReadItems(exact).value| > 1
    ensures ResolveTwoTier(name, exact, listing) == Resolution(Failure(Ambiguous(name, false)), [FindByName(name)])
  {
  }

  /**
   * With no exact hit, the listing is fetched once and decides: a single
   * case-insensitive match gives its id, no match is "not found", two or
   * more are "ambiguous", and a null name makes the lookup fail.
   */
  lemma FallbackDecides(name: string, exact: GraphQLResponse, listing: GraphQLResponse)
    requires ReadItems(exact) == Success([])
    ensures var r := ResolveTwoTier(name, exact, listing);
            var p := MatchesName(name);
      && r.issued == [FindByName(name), ListAll(PageLimit)]
      && (ReadItems(listing).Failure? ==> r.result == Failure(ReadItems(listing).error))
      && (ReadItems(listing).Success? ==>
            var page := ReadItems(listing).value;
            && (HasNullName(page) ==> r.result == Failure(MalformedResponse))
            && (!HasNullName(page) ==>
                  && (r.result.Success? <==> exists i :: UniqueAt(page, p, i))
                  && (forall i :: UniqueAt(page, p, i) ==> r.result == Success(page[i].id))
                  && (r.result == Failure(NotFound(name)) <==> forall i :: 0 <= i < |page| ==> !p(page[i]))
                  && (r.result == Failure(Ambiguous(name, true)) <==> TwoAt(page, p))))
  {
    if ReadItems(listing).Success? {
      KeepCount(ReadItems(listing).value, MatchesName(name));
    }
  }

  /** Any id the two-tier resolver returns is that of a company whose name matched the query. */
  lemma ResolvedIdMatches(name: string, exact: GraphQLResponse, listing: GraphQLResponse)
    requires ResolveTwoTier(name, exact, listing).result.Success?
    ensures var id := ResolveTwoTier(name, exact, listing).result.value;
      || (ReadItems(exact).Success? && |ReadItems(exact).value| == 1 && ReadItems(exact).value[0].id == id)
      || (&& ReadItems(exact) == Success([]) && ReadItems(listing).Success?
          && exists c :: c in ReadItems(listing).value && Matches(c, name) && c.id == id)
  {
    if ReadItems(exact) == Success([]) {
      assert ResolveTwoTier(name, exact, listing).result == Fallback(name, listing);
    }
  }

  /**
   * The two resolvers agree whenever the exact query finds something: the
   * single-tier one differs only in having no fallback.
   */
  lemma TiersAgreeOnExactHits(name: string, exact: GraphQLResponse, listing: GraphQLResponse, items: seq<CompanyItem>)
    requires Post(exact).Success? && exact.data == Given(Payload(Given(Connection(Given(items)))))
    requires items != []
    ensures ResolveSingleTier(name, exact) == ResolveTwoTier(name, exact, listing).result
  {
  }

  /** With no exact hit, the single-tier resolver reports "not found" whatever a listing would show. */
  lemma SingleTierHasNoFallback(name: string, exact: GraphQLResponse)
    requires Post(exact).Success? && exact.data == Given(Payload(Given(Connection(Given([])))))
    ensures ResolveSingleTier(name, exact) == Failure(NotFound(name))
  {
  }
}
