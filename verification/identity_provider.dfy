/**
 * The identity provider's admin interface as the two scripts use it: four
 * calls on one user pool. The pool holds the users, the log of calls issued
 * to it, and the errors the service will answer beyond those the user map
 * implies (throttling, password policy, invalid parameters), which are an
 * input keyed by the position of the call in the log.
 */
module IdentityProvider {
  import opened Wrappers

  /** One `{"Name": ..., "Value": ...}` entry of `UserAttributes`. */
  datatype Attribute = Attribute(name: string, value: string)

  /** The password a user signs in with: one the service generated, a temporary one, or a permanent one. */
  datatype Credential = Generated | Temporary(password: string) | Permanent(password: string)

  datatype User = User(attributes: map<string, string>, credential: Credential)

  /** The four admin calls, with the parameters the scripts pass besides the pool id. */
  datatype Call =
    | GetUser(username: string)
    | CreateUser(username: string, attributes: seq<Attribute>, temporaryPassword: Option<string>, messageAction: Option<string>)
    | SetPassword(username: string, password: string, permanent: bool)
    | UpdateAttributes(username: string, attributes: seq<Attribute>)

  /** A call's answer: success, or a service error with its code. */
  datatype Reply = Ok | Error(code: string)

  /** The pool's two custom tenant attributes. */
  const OwnerIdAttribute: string := "custom:ownerId"
  const CustomerIdAttribute: string := "custom:customerId"

  lemma TenantAttributesDistinct()
    ensures OwnerIdAttribute != CustomerIdAttribute
  {
    assert OwnerIdAttribute[7] != CustomerIdAttribute[7];
  }

  const UserNotFoundException: string := "UserNotFoundException"
  const UsernameExistsException: string := "UsernameExistsException"

  /** The attribute writes of a call as a map; a later write of a name wins. */
  function Writes(attrs: seq<Attribute>): map<string, string> {
    if attrs == [] then map[] else map[attrs[0].name := attrs[0].value] + Writes(attrs[1..])
  }

  /** The names a list of attributes writes are exactly the names it carries. */
  lemma {:induction false} WritesNames(attrs: seq<Attribute>)
    ensures forall k :: k in Writes(attrs) <==> exists i :: 0 <= i < |attrs| && attrs[i].name == k
  {
    if attrs != [] {
      var tail := attrs[1..];
      WritesNames(tail);
      forall k ensures k in Writes(attrs) <==> exists i :: 0 <= i < |attrs| && attrs[i].name == k {
        if k in Writes(tail) {
          var i :| 0 <= i < |tail| && tail[i].name == k;
          assert attrs[i + 1].name == k;
        }
        if exists i :: 0 <= i < |attrs| && attrs[i].name == k {
          var i :| 0 <= i < |attrs| && attrs[i].name == k;
          if i > 0 {
            assert tail[i - 1].name == k;
          }
        }
      }
    }
  }

  /** A name written by a list of attributes takes the value of its last entry. */
  lemma {:induction false} WritesLastWins(attrs: seq<Attribute>, i: int)
    requires 0 <= i < |attrs|
    requires forall j :: i < j < |attrs| ==> attrs[j].name != attrs[i].name
    ensures attrs[i].name in Writes(attrs) && Writes(attrs)[attrs[i].name] == attrs[i].value
  {
    var tail := attrs[1..];
    if i == 0 {
      WritesNames(tail);
    } else {
      forall j | i - 1 < j < |tail| ensures tail[j].name != tail[i - 1].name {
        assert tail[j] == attrs[j + 1];
      }
      WritesLastWins(tail, i - 1);
    }
  }

  /** The answer the user map implies: a call on a missing user, or a create of an existing one, fails. */
  function Respond(users: map<string, User>, call: Call): (reply: Reply)
    ensures reply.Error? ==> reply.code == (if call.CreateUser? then UsernameExistsException else UserNotFoundException)
    ensures reply.Ok? <==> (call.username in users <==> !call.CreateUser?)
  {
    match call
    case CreateUser(u, _, _, _) => if u in users then Error(UsernameExistsException) else Ok
    case _ => if call.username in users then Ok else Error(UserNotFoundException)
  }

  /**
   * The users after a call the service accepted. A created user holds the
   * attributes written and the temporary password, or a generated one;
   * setting a password replaces the credential; an update overwrites the
   * attributes it names and keeps the others.
   */
  function Effect(users: map<string, User>, call: Call): (after: map<string, User>)
    requires Respond(users, call).Ok?
    ensures after.Keys == users.Keys + {call.username}
    ensures forall u :: u in users && u != call.username ==> after[u] == users[u]
    ensures call.GetUser? ==> after == users
  {
    match call
    case GetUser(_) => users
    case CreateUser(u, attrs, temp, _) =>
      users[u := User(Writes(attrs), if temp.Some? then Temporary(temp.value) else Generated)]
    case SetPassword(u, password, permanent) =>
      users[u := users[u].(credential := if permanent then Permanent(password) else Temporary(password))]
    case UpdateAttributes(u, attrs) =>
      users[u := users[u].(attributes := users[u].attributes + Writes(attrs))]
  }

  /** The users after one call to a service that adds no errors of its own: a refused call changes nothing. */
  function Step(users: map<string, User>, call: Call): (after: map<string, User>)
    // no user disappears, at most the call's own user appears, and every other user is unchanged
    ensures users.Keys <= after.Keys <= users.Keys + {call.username}
    ensures forall u :: u in users && u != call.username ==> after[u] == users[u]
    ensures call.GetUser? ==> after == users
  {
    if Respond(users, call).Ok? then Effect(users, call) else users
  }

  /** The users after `calls` are issued in order to a service that adds no errors of its own. */
  function Run(users: map<string, User>, calls: seq<Call>): (after: map<string, User>)
    // no user disappears, and a user no call names is unchanged
    ensures users.Keys <= after.Keys
    ensures forall u :: u in users && (forall i :: 0 <= i < |calls| ==> calls[i].username != u) ==>
              after[u] == users[u]
    decreases |calls|
  {
    if calls == [] then users else Run(Step(users, calls[0]), calls[1..])
  }

  /** `Run` over one and over two calls. */
  lemma RunShort(users: map<string, User>, a: Call, b: Call)
    ensures Run(users, [a]) == Step(users, a)
    ensures Run(users, [a, b]) == Step(Step(users, a), b)
  {
    assert [a][1..] == [];
    assert [a, b][1..] == [b];
    assert Run(Step(users, a), [b]) == Step(Step(users, a), b) by {
      assert [b][1..] == [];
    }
  }

  /** The reply to a call issued at position `index` of the log. */
  function Answer(faults: map<nat, string>, index: nat, users: map<string, User>, call: Call): Reply {
    if index in faults then Error(faults[index]) else Respond(users, call)
  }

  /** The users after a call, given its reply. */
  function After(users: map<string, User>, call: Call, reply: Reply): map<string, User> {
    if reply.Ok? then Step(users, call) else users
  }

  class UserPool {
    var users: map<string, User>
    /** Every call issued to the pool, in order. */
    var log: seq<Call>
    /** The error the service answers to the call at a position of the log, if any. */
    const faults: map<nat, string>

    constructor (users: map<string, User>, faults: map<nat, string>)
      ensures this.users == users && this.faults == faults && log == []
    {
      this.users := users;
      this.faults := faults;
      log := [];
    }

    /** The reply `call` gets if it is issued next. */
    function NextReply(call: Call): Reply
      reads this
    {
      Answer(faults, |log|, users, call)
    }

    /** No error of the service's own is scheduled for the next `n` calls. */
    predicate Quiet(n: nat)
      reads this
    {
      forall i :: |log| <= i < |log| + n ==> i !in faults
    }

    /** Issues `call`: it is logged, answered, and applied if it succeeds. */
    method Issue(call: Call) returns (reply: Reply)
      modifies this
      ensures log == old(log) + [call]
      ensures reply == old(NextReply(call))
      ensures users == After(old(users), call, reply)
    {
      reply := NextReply(call);
      if reply.Ok? {
        users := Step(users, call);
      }
      log := log + [call];
    }

    /** `admin_get_user`. */
    method AdminGetUser(username: string) returns (reply: Reply)
      modifies this
      ensures log == old(log) + [GetUser(username)]
      ensures reply == old(NextReply(GetUser(username)))
      ensures users == old(users)
    {
      reply := Issue(GetUser(username));
    }

    /** `admin_create_user`. */
    method AdminCreateUser(username: string, attributes: seq<Attribute>, temporaryPassword: Option<string>,
                           messageAction: Option<string>)
      returns (reply: Reply)
      modifies this
      ensures var call := CreateUser(username, attributes, temporaryPassword, messageAction);
        && log == old(log) + [call]
        && reply == old(NextReply(call))
        && users == After(old(users), call, reply)
    {
      reply := Issue(CreateUser(username, attributes, temporaryPassword, messageAction));
    }

    /** `admin_set_user_password`. */
    method AdminSetUserPassword(username: string, password: string, permanent: bool) returns (reply: Reply)
      modifies this
      ensures var call := SetPassword(username, password, permanent);
        && log == old(log) + [call]
        && reply == old(NextReply(call))
        && users == After(old(users), call, reply)
    {
      reply := Issue(SetPassword(username, password, permanent));
    }

    /** `admin_update_user_attributes`. */
    method AdminUpdateUserAttributes(username: string, attributes: seq<Attribute>) returns (reply: Reply)
      modifies this
      ensures var call := UpdateAttributes(username, attributes);
        && log == old(log) + [call]
        && reply == old(NextReply(call))
        && users == After(old(users), call, reply)
    {
      reply := Issue(UpdateAttributes(username, attributes));
    }
  }

  /**
   * `user_exists`'s reading of the reply to `admin_get_user`: success means
   * the user exists, `UserNotFoundException` means it does not, and any
   * other error is passed on.
   */
  function Existence(reply: Reply): (r: Result<bool, string>)
    ensures r == Success(true) <==> reply.Ok?
    ensures r == Success(false) <==> reply == Error(UserNotFoundException)
    ensures r.Failure? <==> reply.Error? && reply.code != UserNotFoundException
    ensures r.Failure? ==> r.error == reply.code
  {
    match reply
    case Ok => Success(true)
    case Error(code) => if code == UserNotFoundException then Success(false) else Failure(code)
  }

  /** `user_exists`: one `admin_get_user`, read by `Existence`. */
  method UserExists(pool: UserPool, username: string) returns (r: Result<bool, string>)
    modifies pool
    ensures pool.log == old(pool.log) + [GetUser(username)] && pool.users == old(pool.users)
    ensures r == Existence(old(pool.NextReply(GetUser(username))))
  {
    var reply := pool.AdminGetUser(username);
    r := Existence(reply);
  }

  /** Writing a list of attributes is writing its front, then its back. */
  lemma {:induction false} WritesAppend(xs: seq<Attribute>, ys: seq<Attribute>)
    ensures Writes(xs + ys) == Writes(xs) + Writes(ys)
  {
    if xs == [] {
      assert xs + ys == ys;
    } else {
      var head := map[xs[0].name := xs[0].value];
      calc {
        Writes(xs + ys);
        { assert (xs + ys)[0] == xs[0] && (xs + ys)[1..] == xs[1..] + ys; }
        head + Writes(xs[1..] + ys);
        { WritesAppend(xs[1..], ys); }
        head + (Writes(xs[1..]) + Writes(ys));
        { UnionAssociative(head, Writes(xs[1..]), Writes(ys)); }
        Writes(xs) + Writes(ys);
      }
    }
  }

  /** Map union is associative; kept apart so that `WritesAppend` stays cheap to check. */
  lemma UnionAssociative(a: map<string, string>, b: map<string, string>, c: map<string, string>)
    ensures a + (b + c) == (a + b) + c
  {
  }

  /** An attribute update repeated is the update done once. */
  lemma UpdateIdempotent(attributes: map<string, string>, writes: seq<Attribute>)
    ensures attributes + Writes(writes) + Writes(writes) == attributes + Writes(writes)
  {
  }
}
