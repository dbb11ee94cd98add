/**
 * The request handlers of server/routes.ts: `POST /api/waitlist`, `GET /api/waitlist`
 * and `POST /api/admin/auth`.  Express, JSON serialisation and the clock are left out:
 * the parsed body and the current time are parameters.
 */
module Routes {
  import opened Wrappers
  import opened Json
  import opened Schema
  import opened WaitlistStorage
  import OwnerAuth

  const JoinedMessage: string := "Successfully joined the waitlist!"
  const InvalidInputMessage: string := "Invalid input data"
  const AlreadyRegisteredMessage: string := "Email address is already registered in our waitlist"
  const InternalErrorMessage: string := "Internal server error"

  /** The `signup` object of the 201 payload. */
  datatype SignupSummary = SignupSummary(id: nat, fullName: string, email: string, timestamp: int)

  /** The replies of `POST /api/waitlist`. */
  datatype SignupReply =
    | Created(signup: SignupSummary)
    | InvalidInput(errors: seq<Issue>)
    | AlreadyRegistered
    | InternalError

  function SignupStatus(reply: SignupReply): int {
    match reply
    case Created(_) => 201
    case InvalidInput(_) => 400
    case AlreadyRegistered => 400
    case InternalError => 500
  }

  function SignupMessage(reply: SignupReply): string {
    match reply
    case Created(_) => JoinedMessage
    case InvalidInput(_) => InvalidInputMessage
    case AlreadyRegistered => AlreadyRegisteredMessage
    case InternalError => InternalErrorMessage
  }

  /** The fields of the inserted row the 201 payload copies. */
  function Summary(row: SignupRow): (s: SignupSummary)
    ensures s.id == row.id && s.fullName == row.fullName
    ensures s.email == row.email && s.timestamp == row.timestamp
  {
    SignupSummary(row.id, row.fullName, row.email, row.timestamp)
  }

  /** `POST /api/waitlist`: validate, refuse an address already present (compared
      exactly), otherwise insert and answer 201.  Storage is not touched on invalid input
      or on a duplicate. */
  method PostWaitlist(store: WaitlistStorage.DatabaseStorage, body: Json, now: int)
    returns (reply: SignupReply)
    requires store.Valid()
    modifies store
    ensures store.Valid()
    ensures ParseSignup(body).Invalid? ==>
              reply == InvalidInput(ParseSignup(body).issues) && unchanged(store)
    ensures ParseSignup(body).Ok? &&
            old(store.GetWaitlistSignupByEmail(ParseSignup(body).value.email)).Some? ==>
              reply == AlreadyRegistered && unchanged(store)
    ensures ParseSignup(body).Ok? &&
            old(store.GetWaitlistSignupByEmail(ParseSignup(body).value.email)).None? ==>
              var row := NewSignupRow(old(store.nextSignupId), ParseSignup(body).value, now);
              && store.signups == old(store.signups) + [row]
              && store.users == old(store.users)
              && store.nextUserId == old(store.nextUserId)
              && store.nextSignupId == old(store.nextSignupId) + 1
              && reply == Created(Summary(row))
    ensures SignupStatus(reply) == 201 <==> |store.signups| == old(|store.signups|) + 1
    ensures SignupStatus(reply) != 201 ==> store.signups == old(store.signups)
  {
    var parsed := ParseSignup(body);
    if parsed.Invalid? {
      return InvalidInput(parsed.issues);
    }
    var existing := store.GetWaitlistSignupByEmail(parsed.value.email);
    if existing.Some? {
      return AlreadyRegistered;
    }
    var inserted := store.CreateWaitlistSignup(parsed.value, now);
    reply := if inserted.Success? then Created(Summary(inserted.value)) else InternalError;
  }

  /** Submitting the same valid, new address twice: 201, then 400, one row added. */
  method SubmitTwice(store: WaitlistStorage.DatabaseStorage, body: Json, now1: int, now2: int)
    returns (first: SignupReply, second: SignupReply)
    requires store.Valid()
    requires ParseSignup(body).Ok?
    requires store.GetWaitlistSignupByEmail(ParseSignup(body).value.email).None?
    modifies store
    ensures SignupStatus(first) == 201 && second == AlreadyRegistered && SignupStatus(second) == 400
    ensures |store.signups| == old(|store.signups|) + 1
  {
    first := PostWaitlist(store, body, now1);
    var email := ParseSignup(body).value.email;
    assert store.signups[|store.signups| - 1].email == email;
    second := PostWaitlist(store, body, now2);
  }

  /** The body of a `GET /api/waitlist` reply. */
  datatype WaitlistListing = WaitlistListing(signups: seq<SignupRow>, stats: Stats)

  /** `GET /api/waitlist`: every row, newest first, with the statistics of the same rows. */
  function GetWaitlist(store: WaitlistStorage.DatabaseStorage, today: int): (r: WaitlistListing)
    reads store
    ensures multiset(r.signups) == multiset(store.signups)
    ensures NewestFirst(r.signups)
    ensures r.stats.totalSignups == |r.signups|
    ensures r.stats == WaitlistStats(store.signups, today)
  {
    WaitlistListing(store.GetAllWaitlistSignups(), store.GetWaitlistStats(today))
  }

  const RootAdminEmail: string := "ervin210@icloud.com"

  /** The replies of `POST /api/admin/auth`. */
  datatype AdminReply = Granted | Denied | AdminError

  function AdminStatus(reply: AdminReply): int {
    match reply
    case Granted => 200
    case Denied => 401
    case AdminError => 500
  }

  /** The `authenticated` flag of the reply; the 500 reply has none. */
  function Authenticated(reply: AdminReply): Option<bool> {
    match reply
    case Granted => Some(true)
    case Denied => Some(false)
    case AdminError => None
  }

  /** `POST /api/admin/auth`: `const { email } = req.body` and a strict `===` against the
      one root address.  Destructuring a `null` body throws, which the handler turns
      into a 500. */
  function AdminAuth(body: Json): (r: AdminReply)
    ensures r == Granted <==>
              body.JObj? && "email" in body.fields && body.fields["email"] == JStr(RootAdminEmail)
    ensures r == AdminError <==> body.JNull?
    ensures Authenticated(r) == Some(true) <==> AdminStatus(r) == 200
  {
    match body
    case JNull => AdminError
    case JObj(m) => if Get(m, "email") == Some(JStr(RootAdminEmail)) then Granted else Denied
    case _ => Denied
  }

  /** The route is stricter than the allow-list of server/auth.ts: everything it admits
      is an owner address, but the second owner address is refused by the route. */
  lemma AdminRouteStricterThanOwnerCheck(body: Json)
    ensures AdminAuth(body) == Granted ==> OwnerAuth.IsOwnerEmail(body.fields["email"].s)
    ensures OwnerAuth.IsOwnerEmail(OwnerAuth.OwnerEmail2)
    ensures AdminAuth(JObj(map["email" := JStr(OwnerAuth.OwnerEmail2)])) == Denied
  {
    OwnerAuth.OwnerAddressesAreOwners();
    assert RootAdminEmail == OwnerAuth.OwnerEmail1;
    var second := JObj(map["email" := JStr(OwnerAuth.OwnerEmail2)]);
    assert AdminAuth(second) == Denied by {
      assert |OwnerAuth.OwnerEmail2| != |RootAdminEmail|;
      assert second.fields["email"] != JStr(RootAdminEmail);
    }
  }
}
