/** The Google Play real-time developer notification webhook
    (supabase/functions/google-play-rtdn/index.ts): the request-to-status
    dispatch of `serve` and the nine `handleSubscription*` transitions of
    the subscription rows, keyed by purchase token. Reading and decoding the
    body, the date rendering in the log line, and the backend's read and
    write outcomes are inputs; every request yields a status and the table
    afterwards. */
module Rtdn {
  import opened Wrappers
  import opened Plans
  import opened SubscriptionTable
  import Purchases
  import Quota

  // Notification type codes of the Play Developer API.
  const SubscriptionRecovered: int := 1
  const SubscriptionRenewed: int := 2
  const SubscriptionCanceled: int := 3
  const SubscriptionPurchased: int := 4
  const SubscriptionOnHold: int := 5
  const SubscriptionInGracePeriod: int := 6
  const SubscriptionRestarted: int := 7
  const SubscriptionPriceChangeConfirmed: int := 8
  const SubscriptionDeferred: int := 9
  const SubscriptionPaused: int := 10
  const SubscriptionPauseScheduleChanged: int := 11
  const SubscriptionRevoked: int := 12
  const SubscriptionExpired: int := 13

  /** A renewal's cycle: thirty days from the notification. */
  const RenewalPeriodMs: nat := 30 * 24 * 60 * 60 * 1000

  /** The webhook's own PRODUCT_ID_TO_PLAN table. */
  const ProductPlans: map<string, string> :=
    map["muscleai.basic.monthly" := "Basic", "muscleai.pro.monthly" := "Pro", "muscleai.vip.monthly" := "VIP"]

  /** The webhook's own PLAN_LIMITS table, distinct from the app's catalog. */
  const WebhookLimits: map<string, nat> := map["Basic" := 10, "Pro" := 50, "VIP" := 999999]

  datatype SubscriptionNotification = SubscriptionNotification(
    notificationType: int,
    purchaseToken: Option<string>,
    subscriptionId: Option<string>)

  /** A DeveloperNotification as far as the handler reads it. */
  datatype DeveloperNotification = DeveloperNotification(
    eventTimeMillis: Option<string>,
    testNotification: bool,
    subscriptionNotification: Option<SubscriptionNotification>)

  /** The parsed body: JSON `null`, or a value whose `message.data` (when it
      is a string) and whose reading as a notification are given. */
  datatype Payload =
    | NullPayload
    | Payload(messageData: Option<string>, direct: DeveloperNotification)

  /** Base64-decoding and parsing `message.data`. */
  datatype Decoded = Undecodable | DecodedNull | DecodedNotification(notification: DeveloperNotification)

  datatype Request = Request(verb: string, body: string)

  /** The clock, the body reader and parser, the data decoder, whether the
      log line can render an event time as a date, and the backend's read
      and write outcomes. */
  datatype WebhookEnv = WebhookEnv(
    now: nat,
    parseBody: string -> Option<Payload>,
    decode: string -> Decoded,
    rendersAsDate: string -> bool,
    readOk: bool,
    writeOk: bool)

  datatype Response = Response(status: nat, table: Table)

  /** Query predicate `.eq('google_play_purchase_token', token)`. */
  function HasToken(token: string): Row -> bool {
    (r: Row) => r.purchaseToken == Some(token)
  }

  /** Query predicate `.eq('id', id)`. */
  function HasId(id: nat): Row -> bool {
    (r: Row) => r.id == id
  }

  /** `PRODUCT_ID_TO_PLAN[productId] || subscription.plan_name`. */
  function PlanFor(productId: Option<string>, stored: Option<string>): (plan: Option<string>)
    ensures productId.Some? && productId.value in ProductPlans ==> plan == Some(ProductPlans[productId.value])
    ensures (productId.None? || productId.value !in ProductPlans) ==> plan == stored
  {
    if productId.Some? && productId.value in ProductPlans then Some(ProductPlans[productId.value]) else stored
  }

  /** `PLAN_LIMITS[planName] || 10`. */
  function WebhookLimit(plan: Option<string>): (n: nat)
    ensures n > 0
    ensures plan.Some? && plan.value in WebhookLimits ==> n == WebhookLimits[plan.value]
    ensures (plan.None? || plan.value !in WebhookLimits) ==> n == 10
  {
    if plan.Some? && plan.value in WebhookLimits then WebhookLimits[plan.value] else 10
  }

  // Row changes of the handlers.

  function Renew(now: nat, limit: nat): Row -> Row {
    (r: Row) => r.(status := Active, usedThisMonth := Some(0), cycleStart := Some(now),
                   cycleEnd := Some(now + RenewalPeriodMs), monthlyLimit := Some(limit), updatedAt := Some(now))
  }

  function Cancel(now: nat): Row -> Row {
    (r: Row) => r.(autoRenew := false, cancelledAt := Some(now), updatedAt := Some(now))
  }

  /** Shared by EXPIRED and REVOKED. */
  function Expire(now: nat): Row -> Row {
    (r: Row) => r.(status := Expired, endDate := Some(now), updatedAt := Some(now))
  }

  function Recover(now: nat): Row -> Row {
    (r: Row) => r.(status := Active, autoRenew := true, updatedAt := Some(now))
  }

  function PutOnHold(now: nat): Row -> Row {
    (r: Row) => r.(status := PastDue, updatedAt := Some(now))
  }

  function KeepInGrace(now: nat): Row -> Row {
    (r: Row) => r.(status := Active, updatedAt := Some(now))
  }

  function Pause(now: nat): Row -> Row {
    (r: Row) => r.(status := Paused, pauseStart := Some(now), updatedAt := Some(now))
  }

  /** The token lookup followed by `.single()`: the one row carrying the
      token, or nothing when the read fails or zero or several rows match. */
  function FindByToken(t: Table, token: string, readOk: bool): (r: Option<Row>)
    ensures r.Some? <==> readOk && |Where(t, HasToken(token))| == 1
    ensures r.Some? ==> r.value in t && r.value.purchaseToken == Some(token)
  {
    if readOk then Single(Where(t, HasToken(token))) else None
  }

  /** The lookup-then-update handlers (CANCELED, EXPIRED, RECOVERED): the
      found row is updated by its id; nothing changes when no single row is
      found or the write fails. */
  function UpdateFoundRow(t: Table, token: string, readOk: bool, writeOk: bool, change: Row -> Row): Table {
    match FindByToken(t, token, readOk)
    case None => t
    case Some(row) => if writeOk then UpdateWhere(t, HasId(row.id), change) else t
  }

  /** RENEWED: like the other lookup handlers, with the new limit taken from
      the plan of the notified product or, failing that, the stored plan. */
  function HandleRenewed(t: Table, token: string, productId: Option<string>, now: nat, readOk: bool, writeOk: bool): Table {
    match FindByToken(t, token, readOk)
    case None => t
    case Some(row) =>
      if writeOk then UpdateWhere(t, HasId(row.id), Renew(now, WebhookLimit(PlanFor(productId, row.planName)))) else t
  }

  /** The direct handlers (ON_HOLD, IN_GRACE_PERIOD, PAUSED, REVOKED): every
      row carrying the token is updated. */
  function UpdateByToken(t: Table, token: string, writeOk: bool, change: Row -> Row): Table {
    if writeOk then UpdateWhere(t, HasToken(token), change) else t
  }

  /** Identifying fields a handler never writes: the webhook does not even
      record a new plan name on renewal. */
  predicate SameKey(a: Row, b: Row) {
    a.id == b.id && a.userId == b.userId && a.purchaseToken == b.purchaseToken && a.planName == b.planName
  }

  /** The switch over the notification type. */
  function Dispatch(code: int, token: string, productId: Option<string>, t: Table, now: nat, readOk: bool, writeOk: bool)
    : (u: Table)
    ensures |u| == |t|
    ensures forall i :: 0 <= i < |t| ==> SameKey(t[i], u[i])
    ensures !writeOk ==> u == t
    ensures code !in {1, 2, 3, 5, 6, 10, 12, 13} ==> u == t
  {
    if code == SubscriptionRenewed then HandleRenewed(t, token, productId, now, readOk, writeOk)
    else if code == SubscriptionCanceled then UpdateFoundRow(t, token, readOk, writeOk, Cancel(now))
    else if code == SubscriptionExpired then UpdateFoundRow(t, token, readOk, writeOk, Expire(now))
    else if code == SubscriptionRecovered then UpdateFoundRow(t, token, readOk, writeOk, Recover(now))
    else if code == SubscriptionOnHold then UpdateByToken(t, token, writeOk, PutOnHold(now))
    else if code == SubscriptionInGracePeriod then UpdateByToken(t, token, writeOk, KeepInGrace(now))
    else if code == SubscriptionPaused then UpdateByToken(t, token, writeOk, Pause(now))
    else if code == SubscriptionRevoked then UpdateByToken(t, token, writeOk, Expire(now))
    else t  // SUBSCRIPTION_PURCHASED only logs; other codes are unhandled
  }

  /** The log line that opens `Process` gets past the event time: there is
      none, or the date it names can be rendered. */
  predicate EventTimeLogs(n: DeveloperNotification, env: WebhookEnv) {
    n.eventTimeMillis.None? || n.eventTimeMillis.value == "" || env.rendersAsDate(n.eventTimeMillis.value)
  }

  /** Everything after the notification is in hand: the log line's date
      rendering, the test and missing-notification replies, the token read,
      then the switch. */
  function Process(n: DeveloperNotification, t: Table, env: WebhookEnv): (r: Response)
    ensures r.status in {200, 500}
    ensures r.status == 500 ==> r.table == t
  {
    if n.eventTimeMillis.Some? && n.eventTimeMillis.value != "" && !env.rendersAsDate(n.eventTimeMillis.value) then
      Response(500, t)  // toISOString of an invalid date throws
    else if n.testNotification then Response(200, t)
    else match n.subscriptionNotification
      case None => Response(200, t)
      case Some(sn) =>
        if sn.purchaseToken.None? then Response(500, t)  // substring of a missing token throws
        else Response(200, Dispatch(sn.notificationType, sn.purchaseToken.value, sn.subscriptionId,
                                    t, env.now, env.readOk, env.writeOk))
  }

  /** serve: the status a request receives and the table afterwards. */
  function Serve(req: Request, t: Table, env: WebhookEnv): (r: Response)
    ensures r.status in {200, 400, 405, 500}
    ensures r.status != 200 ==> r.table == t
    ensures |r.table| == |t|
    ensures req.verb == "OPTIONS" ==> r == Response(200, t)
    ensures req.verb != "OPTIONS" && req.verb != "POST" ==> r == Response(405, t)
    ensures req.verb == "POST" && env.parseBody(req.body).None? ==> r == Response(400, t)
  {
    if req.verb == "OPTIONS" then Response(200, t)
    else if req.verb != "POST" then Response(405, t)
    else match env.parseBody(req.body)
      case None => Response(400, t)
      case Some(NullPayload) => Response(500, t)  // reading `message` of null throws
      case Some(Payload(data, direct)) =>
        if data.Some? && data.value != "" then
          match env.decode(data.value)
          case Undecodable => Response(400, t)
          case DecodedNull => Response(500, t)
          case DecodedNotification(n) => Process(n, t, env)
        else Process(direct, t, env)
  }

  /** The notification a POST body carries, if reading it gets that far. */
  function NotificationOf(body: string, env: WebhookEnv): Option<DeveloperNotification> {
    match env.parseBody(body)
    case Some(Payload(data, direct)) =>
      if data.Some? && data.value != "" then
        (match env.decode(data.value)
         case DecodedNotification(n) => Some(n)
         case _ => None)
      else Some(direct)
    case _ => None
  }

  // ---------------------------------------------------------------------
  // Properties of serve.

  /** A body that is not JSON, or Pub/Sub data that does not decode, is a
      400 with no row written; a test notification or an envelope without a
      subscription notification is a 200 with no row written. */
  lemma ServeRepliesWithoutWriting(req: Request, t: Table, env: WebhookEnv)
    requires req.verb == "POST"
    ensures env.parseBody(req.body).None? ==> Serve(req, t, env) == Response(400, t)
    ensures var p := env.parseBody(req.body);
            (&& p.Some? && p.value.Payload? && p.value.messageData.Some? && p.value.messageData.value != ""
             && env.decode(p.value.messageData.value).Undecodable?)
            ==> Serve(req, t, env) == Response(400, t)
    ensures var n := NotificationOf(req.body, env);
            (&& n.Some? && EventTimeLogs(n.value, env)
             && (n.value.testNotification || n.value.subscriptionNotification.None?))
            ==> Serve(req, t, env) == Response(200, t)
  {
  }

  /** Once a notification with a purchase token is read, the request is
      answered 200 with the table the type's handler leaves, whatever the
      handler found or failed to write. */
  lemma ServeDispatchesOnce(req: Request, t: Table, env: WebhookEnv, sn: SubscriptionNotification)
    requires req.verb == "POST"
    requires NotificationOf(req.body, env).Some?
    requires var n := NotificationOf(req.body, env).value;
             EventTimeLogs(n, env) && !n.testNotification && n.subscriptionNotification == Some(sn)
    requires sn.purchaseToken.Some?
    ensures Serve(req, t, env)
            == Response(200, Dispatch(sn.notificationType, sn.purchaseToken.value, sn.subscriptionId,
                                      t, env.now, env.readOk, env.writeOk))
  {
  }

  /** A notification without a purchase token makes the handler throw: 500,
      nothing written, whether the event-time log line or the token log line
      is the one that throws. */
  lemma MissingTokenIsServerError(req: Request, t: Table, env: WebhookEnv)
    requires req.verb == "POST"
    requires NotificationOf(req.body, env).Some?
    requires var n := NotificationOf(req.body, env).value;
             !n.testNotification && n.subscriptionNotification.Some? && n.subscriptionNotification.value.purchaseToken.None?
    ensures Serve(req, t, env) == Response(500, t)
  {
  }

  /** An event time the log line cannot render as a date makes the handler
      throw before anything is read: 500, nothing written, even for a test
      notification. */
  lemma UnrenderableEventTimeIsServerError(req: Request, t: Table, env: WebhookEnv)
    requires req.verb == "POST"
    requires NotificationOf(req.body, env).Some? && !EventTimeLogs(NotificationOf(req.body, env).value, env)
    ensures Serve(req, t, env) == Response(500, t)
  {
  }

  /** A body that does not parse: 400 and the table as it was. */
  lemma MalformedBodyIsRejected(t: Table, env: WebhookEnv)
    requires env.parseBody("{not json").None?
    ensures Serve(Request("POST", "{not json"), t, env) == Response(400, t)
  {
  }

  // ---------------------------------------------------------------------
  // Properties of the handlers.

  /** When exactly one row carries the token and ids are unique, updating
      the found row by its id is updating by the token. */
  lemma ByIdIsByToken(t: Table, token: string, change: Row -> Row)
    requires UniqueIds(t) && |Where(t, HasToken(token))| == 1
    ensures UpdateWhere(t, HasId(Where(t, HasToken(token))[0].id), change) == UpdateWhere(t, HasToken(token), change)
  {
    var w := Where(t, HasToken(token));
    var row := w[0];
    assert row in w;
    var j :| 0 <= j < |t| && t[j] == row;
    forall i | 0 <= i < |t|
      ensures HasId(row.id)(t[i]) == HasToken(token)(t[i])
    {
      TokenRowIsFound(t, token, i);
      if t[i].id == row.id {
        assert i == j;
      }
    }
    UpdateSameRows(t, HasId(row.id), HasToken(token), change);
  }

  /** With exactly one row carrying the token, a row carries it only if it
      is the one the lookup finds. */
  lemma TokenRowIsFound(t: Table, token: string, i: int)
    requires |Where(t, HasToken(token))| == 1 && 0 <= i < |t|
    ensures t[i].purchaseToken == Some(token) ==> t[i] == Where(t, HasToken(token))[0]
  {
    if t[i].purchaseToken == Some(token) {
      assert t[i] in Where(t, HasToken(token));
    }
  }

  /** With unique ids, a notification only ever changes rows carrying its
      token. */
  lemma OnlyTokenRowsChange(code: int, token: string, productId: Option<string>, t: Table, now: nat, readOk: bool, writeOk: bool)
    requires UniqueIds(t)
    ensures var u := Dispatch(code, token, productId, t, now, readOk, writeOk);
            forall i :: 0 <= i < |t| && t[i].purchaseToken != Some(token) ==> u[i] == t[i]
  {
    if readOk && writeOk && |Where(t, HasToken(token))| == 1 {
      if code == SubscriptionRenewed {
        RenewedEffect(token, productId, t, now);
      } else if code in {SubscriptionCanceled, SubscriptionExpired, SubscriptionRecovered} {
        LookupHandlerEffects(code, token, productId, t, now);
      }
    }
  }

  /** A lookup handler, when exactly one row carries the token and ids are
      unique, updates exactly the rows carrying the token. */
  lemma FoundRowIsTokenRow(t: Table, token: string, change: Row -> Row)
    requires UniqueIds(t) && |Where(t, HasToken(token))| == 1
    ensures UpdateFoundRow(t, token, true, true, change) == UpdateWhere(t, HasToken(token), change)
  {
    ByIdIsByToken(t, token, change);
  }

  /** RENEWED, when exactly one row carries the token, ids are unique and
      the backend answers: the renewal applied to the rows carrying the
      token, with the limit of the notified product's plan or, failing
      that, of the stored plan. */
  lemma RenewedEffect(token: string, productId: Option<string>, t: Table, now: nat)
    requires UniqueIds(t) && |Where(t, HasToken(token))| == 1
    ensures var row := Where(t, HasToken(token))[0];
            Dispatch(SubscriptionRenewed, token, productId, t, now, true, true)
            == UpdateWhere(t, HasToken(token), Renew(now, WebhookLimit(PlanFor(productId, row.planName))))
  {
    var row := Where(t, HasToken(token))[0];
    var change := Renew(now, WebhookLimit(PlanFor(productId, row.planName)));
    assert Dispatch(SubscriptionRenewed, token, productId, t, now, true, true) == UpdateWhere(t, HasId(row.id), change);
    ByIdIsByToken(t, token, change);
  }

  /** The change a lookup handler other than RENEWED applies. */
  function LookupChange(code: int, now: nat): Row -> Row {
    if code == SubscriptionCanceled then Cancel(now)
    else if code == SubscriptionExpired then Expire(now)
    else Recover(now)
  }

  /** CANCELED, EXPIRED and RECOVERED, under the same conditions: their
      change applied to the rows carrying the token. */
  lemma LookupHandlerEffects(code: int, token: string, productId: Option<string>, t: Table, now: nat)
    requires code in {SubscriptionCanceled, SubscriptionExpired, SubscriptionRecovered}
    requires UniqueIds(t) && |Where(t, HasToken(token))| == 1
    ensures Dispatch(code, token, productId, t, now, true, true) == UpdateWhere(t, HasToken(token), LookupChange(code, now))
  {
    assert Dispatch(code, token, productId, t, now, true, true) == UpdateFoundRow(t, token, true, true, LookupChange(code, now));
    FoundRowIsTokenRow(t, token, LookupChange(code, now));
  }

  /** The effect of each direct handler: every row carrying the token, and
      only those, whether or not the token is unique. */
  lemma DirectHandlerEffects(token: string, productId: Option<string>, t: Table, now: nat)
    ensures Dispatch(SubscriptionOnHold, token, productId, t, now, true, true) == UpdateWhere(t, HasToken(token), PutOnHold(now))
    ensures Dispatch(SubscriptionInGracePeriod, token, productId, t, now, true, true) == UpdateWhere(t, HasToken(token), KeepInGrace(now))
    ensures Dispatch(SubscriptionPaused, token, productId, t, now, true, true) == UpdateWhere(t, HasToken(token), Pause(now))
    ensures Dispatch(SubscriptionRevoked, token, productId, t, now, true, true) == UpdateWhere(t, HasToken(token), Expire(now))
  {
  }

  /** EXPIRED and REVOKED agree whenever at most one row carries the token
      and EXPIRED's lookup read succeeds. */
  lemma ExpiredIsRevoked(token: string, productId: Option<string>, t: Table, now: nat, writeOk: bool)
    requires UniqueIds(t) && |Where(t, HasToken(token))| <= 1
    ensures Dispatch(SubscriptionExpired, token, productId, t, now, true, writeOk)
            == Dispatch(SubscriptionRevoked, token, productId, t, now, true, writeOk)
  {
    ExpiredAndRevokedHandlers(token, productId, t, now, writeOk);
    FoundUpdateIsTokenUpdate(t, token, writeOk, Expire(now));
  }

  /** EXPIRED looks the row up and updates it by id; REVOKED updates by
      token; both apply the same change. */
  lemma ExpiredAndRevokedHandlers(token: string, productId: Option<string>, t: Table, now: nat, writeOk: bool)
    ensures Dispatch(SubscriptionExpired, token, productId, t, now, true, writeOk)
            == UpdateFoundRow(t, token, true, writeOk, Expire(now))
    ensures Dispatch(SubscriptionRevoked, token, productId, t, now, true, writeOk)
            == UpdateByToken(t, token, writeOk, Expire(now))
  {
  }

  /** With unique ids and at most one row carrying the token, the lookup
      followed by an update by id writes what an update by token writes. */
  lemma FoundUpdateIsTokenUpdate(t: Table, token: string, writeOk: bool, change: Row -> Row)
    requires UniqueIds(t) && |Where(t, HasToken(token))| <= 1
    ensures UpdateFoundRow(t, token, true, writeOk, change) == UpdateByToken(t, token, writeOk, change)
  {
    if writeOk {
      if |Where(t, HasToken(token))| == 1 {
        FoundRowIsTokenRow(t, token, change);
      } else {
        NoTokenRowNoUpdate(t, token, change);
      }
    }
  }

  /** An update by a token no row carries writes nothing. */
  lemma NoTokenRowNoUpdate(t: Table, token: string, change: Row -> Row)
    requires Where(t, HasToken(token)) == []
    ensures UpdateWhere(t, HasToken(token), change) == t
  {
    forall i | 0 <= i < |t|
      ensures !HasToken(token)(t[i])
    {
      assert t[i] in t;
    }
  }

  /** Two rows sharing a token split EXPIRED from REVOKED: the lookup refuses
      to pick one, the direct update expires both. */
  lemma SharedTokenSplitsExpiredFromRevoked(a: Row, b: Row, now: nat)
    requires a.purchaseToken == Some("tok") && b.purchaseToken == Some("tok") && a.id != b.id
    requires a.status == Active
    ensures Dispatch(SubscriptionExpired, "tok", None, [a, b], now, true, true) == [a, b]
    ensures Dispatch(SubscriptionRevoked, "tok", None, [a, b], now, true, true)[0].status == Expired
  {
    assert Where([a, b], HasToken("tok")) == [a, b] by {
      assert Where([b], HasToken("tok")) == [b] + Where([], HasToken("tok"));
    }
  }

  /** A failed lookup read also splits them: EXPIRED writes nothing, while
      REVOKED, which never reads, still expires every row carrying the
      token. */
  lemma FailedReadSplitsExpiredFromRevoked(token: string, productId: Option<string>, t: Table, now: nat, writeOk: bool)
    ensures Dispatch(SubscriptionExpired, token, productId, t, now, false, writeOk) == t
    ensures Dispatch(SubscriptionRevoked, token, productId, t, now, false, writeOk) == UpdateByToken(t, token, writeOk, Expire(now))
    ensures writeOk ==> forall i :: 0 <= i < |t| && t[i].purchaseToken == Some(token) ==>
              Dispatch(SubscriptionRevoked, token, productId, t, now, false, writeOk)[i].status == Expired
  {
  }

  /** A token no row carries changes nothing, whatever the type. */
  lemma UnknownTokenChangesNothing(code: int, token: string, productId: Option<string>, t: Table, now: nat, readOk: bool, writeOk: bool)
    requires forall i :: 0 <= i < |t| ==> t[i].purchaseToken != Some(token)
    ensures Dispatch(code, token, productId, t, now, readOk, writeOk) == t
  {
    assert |Where(t, HasToken(token))| == 0 by {
      if |Where(t, HasToken(token))| > 0 {
        assert Where(t, HasToken(token))[0] in Where(t, HasToken(token));
      }
    }
  }

  /** Re-delivering a notification (same type and token) and processing it
      at the same instant changes nothing further. A redelivery processed
      later is not idempotent (`LaterRenewalResetsUsage`). */
  lemma RedeliveryIsIdempotent(code: int, token: string, productId: Option<string>, t: Table, now: nat, readOk: bool, writeOk: bool)
    ensures var once := Dispatch(code, token, productId, t, now, readOk, writeOk);
            Dispatch(code, token, productId, once, now, readOk, writeOk) == once
  {
    if code == SubscriptionRenewed {
      RenewedTwice(t, token, productId, now, readOk, writeOk);
    } else if code in {SubscriptionCanceled, SubscriptionExpired, SubscriptionRecovered} {
      LookupTwice(t, token, readOk, writeOk, LookupChange(code, now));
    }
  }

  /** RENEWED processed a second time at a later instant starts another
      cycle from that instant and zeroes the usage recorded since the first
      delivery. */
  lemma LaterRenewalResetsUsage(row: Row, now: nat, later: nat, used: int)
    requires row.purchaseToken == Some("tok") && now < later && used != 0
    ensures var once := Dispatch(SubscriptionRenewed, "tok", None, [row], now, true, true);
            var recorded := [once[0].(usedThisMonth := Some(used))];
            var again := Dispatch(SubscriptionRenewed, "tok", None, recorded, later, true, true);
            && once[0].cycleStart == Some(now)
            && again[0].usedThisMonth == Some(0)
            && again[0].cycleStart == Some(later)
            && again != recorded
  {
    assert Where([row], HasToken("tok")) == [row];
    var once := Dispatch(SubscriptionRenewed, "tok", None, [row], now, true, true);
    var recorded := [once[0].(usedThisMonth := Some(used))];
    assert Where(recorded, HasToken("tok")) == recorded;
  }

  /** A lookup handler whose change keeps token and id and is idempotent
      changes nothing when delivered again. */
  lemma LookupTwice(t: Table, token: string, readOk: bool, writeOk: bool, change: Row -> Row)
    requires forall r :: change(r).purchaseToken == r.purchaseToken && change(r).id == r.id
    requires forall r :: change(change(r)) == change(r)
    ensures var once := UpdateFoundRow(t, token, readOk, writeOk, change);
            UpdateFoundRow(once, token, readOk, writeOk, change) == once
  {
    var found := FindByToken(t, token, readOk);
    if found.Some? && writeOk {
      var row := found.value;
      RefoundAfterUpdate(t, token, row, change);
      UpdateTwice(t, HasId(row.id), change);
    }
  }

  /** RENEWED delivered again finds the renewed row, whose plan name it did
      not change, so it applies the same renewal once more, to no effect. */
  lemma RenewedTwice(t: Table, token: string, productId: Option<string>, now: nat, readOk: bool, writeOk: bool)
    ensures var once := HandleRenewed(t, token, productId, now, readOk, writeOk);
            HandleRenewed(once, token, productId, now, readOk, writeOk) == once
  {
    var found := FindByToken(t, token, readOk);
    if found.Some? && writeOk {
      var row := found.value;
      var change := Renew(now, WebhookLimit(PlanFor(productId, row.planName)));
      RefoundAfterUpdate(t, token, row, change);
      UpdateTwice(t, HasId(row.id), change);
    }
  }

  /** After the found row is updated by id with a change that keeps token,
      id and plan name, the lookup finds the updated row. */
  lemma RefoundAfterUpdate(t: Table, token: string, row: Row, change: Row -> Row)
    requires Where(t, HasToken(token)) == [row]
    requires forall r :: change(r).purchaseToken == r.purchaseToken && change(r).id == r.id
    ensures Where(UpdateWhere(t, HasId(row.id), change), HasToken(token)) == [change(row)]
  {
    WhereAfterUpdate(t, HasToken(token), HasId(row.id), change);
  }

  /** A known token and CANCELED: auto-renewal off, the cancellation time
      stamped, the status left as it was (still active). */
  lemma CancelKeepsStatus(row: Row, now: nat)
    requires row.purchaseToken == Some("tok") && row.status == Active && row.autoRenew
    ensures var u := Dispatch(SubscriptionCanceled, "tok", None, [row], now, true, true);
            && |u| == 1 && !u[0].autoRenew && u[0].cancelledAt == Some(now) && u[0].status == Active
            && u[0].usedThisMonth == row.usedThisMonth && u[0].cycleEnd == row.cycleEnd
  {
    assert Where([row], HasToken("tok")) == [row];
  }

  /** A renewal resets the usage and starts a thirty-day cycle at the
      notification time, with the limit of the notified product's plan. */
  lemma RenewalRestartsCycle(row: Row, p: PlanName, now: nat)
    requires row.purchaseToken == Some("tok")
    ensures var u := Dispatch(SubscriptionRenewed, "tok", Some(Purchases.Sku(p)), [row], now, true, true);
            && |u| == 1 && u[0].status == Active && u[0].usedThisMonth == Some(0)
            && u[0].cycleStart == Some(now) && u[0].cycleEnd == Some(now + 2_592_000_000)
            && u[0].monthlyLimit == Some(WebhookLimits[Text(p)])
  {
    assert Where([row], HasToken("tok")) == [row];
  }

  // ---------------------------------------------------------------------
  // The webhook's tables against the app's.

  /** The webhook's product table agrees with the app's SKU mapping. */
  lemma ProductPlansAgree(productId: string)
    ensures productId in ProductPlans <==> Purchases.ProductIdToPlanName(productId).Some?
    ensures productId in ProductPlans ==> ProductPlans[productId] == Text(Purchases.ProductIdToPlanName(productId).value)
  {
  }

  /** The webhook's limits exceed the catalog's for every plan. */
  lemma WebhookLimitsExceedCatalog(p: PlanName)
    ensures WebhookLimit(Some(Text(p))) > GetPlanLimit(p)
  {
  }

  /** After a Basic renewal the app reports the webhook's limit of 10, not
      the catalog's 5: the stored limit wins in both of the app's reads. */
  lemma BasicRenewalOutranksCatalog(row: Row, now: nat)
    requires row.purchaseToken == Some("tok")
    ensures var u := Dispatch(SubscriptionRenewed, "tok", Some(Purchases.SkuBasic), [row], now, true, true);
            && Quota.GetUserQuota(u, row.userId, true, now).Some?
            && Quota.GetUserQuota(u, row.userId, true, now).value.analysesLimit == 10
            && Quota.CheckLimit(u[0], Basic) == 10
            && GetPlanLimit(Basic) == 5
  {
    var u := Dispatch(SubscriptionRenewed, "tok", Some(Purchases.SkuBasic), [row], now, true, true);
    assert Where([row], HasToken("tok")) == [row];
    assert Where(u, Quota.ActiveOfUser(row.userId)) == [u[0]];
  }
}
