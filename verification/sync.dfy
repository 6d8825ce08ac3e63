/**
 * `sync_account` of tmd.py: log in, look up the account id, fetch the whole
 * history, announce what the stored lists lacked (only when a webhook is
 * set), and only then replace the stored lists with the fetched ones.
 */
module AccountSync {
  import opened Wrappers
  import opened Entities
  import opened DiffEngine
  import opened RecordFetcher
  import opened Notifier

  /** The bearer token `login` puts on the session. */
  type Token = string

  /** The portal's endpoints, as one cycle sees them. */
  datatype Portal = Portal(
    login: (int, string) -> Result<Token, Error>,
    accountId: Token -> Result<int, Error>,
    history: (Token, int, int) -> Result<seq<Month>, Error>,
    document: (Token, DocumentKey) -> Result<Document, Error>)

  /** The history endpoint for account `wid`, asked with `token` (`{"Rok": year, "WId": wid}`). */
  function HistoryOf(portal: Portal, token: Token, wid: int): History {
    year => portal.history(token, wid, year)
  }

  /** The document endpoint, asked with `token`. */
  function DocumentsOf(portal: Portal, token: Token): Downloader {
    key => portal.document(token, key)
  }

  /** What the portal part of a cycle yields: the token, the account id and the fetched lists. */
  datatype Session = Session(token: Token, wid: int, fetched: Fetched)

  /** Login, account lookup and the year walk, the first failure ending it. */
  function Connect(portal: Portal, thisYear: int, username: int, password: string): Result<Session, Error> {
    match portal.login(username, password)
    case Err(e) => Err(e)
    case Ok(token) =>
      match portal.accountId(token)
      case Err(e) => Err(e)
      case Ok(wid) =>
        match Walk(HistoryOf(portal, token, wid), thisYear, thisYear)
        case Err(e) => Err(e)
        case Ok(f) => Ok(Session(token, wid, f))
  }

  /** `if db.discord_webhook_url:` is false for a missing URL and for an empty one. */
  predicate WebhookConfigured(url: Option<string>) {
    url.Some? && url.value != ""
  }

  /** The calls a cycle made to the webhook and the document endpoint, how it ended, and the stored lists afterwards. */
  datatype SyncResult = SyncResult(trace: seq<Event>, outcome: Outcome<Error>, settlements: seq<Settlement>, payments: seq<Payment>)

  /** One cycle, given the stored account fields and lists before it. */
  function SyncSpec(
    portal: Portal, post: Webhook, thisYear: int,
    username: int, password: string, webhookUrl: Option<string>,
    settlements: seq<Settlement>, payments: seq<Payment>): SyncResult
  {
    match Connect(portal, thisYear, username, password)
    case Err(e) => SyncResult([], Fail(e), settlements, payments)
    case Ok(session) =>
      var f := session.fetched;
      if !WebhookConfigured(webhookUrl) then SyncResult([], Pass, f.settlements, f.payments)
      else
        var run := NotifyRun(Diff(settlements, f.settlements), Diff(payments, f.payments),
                             session.wid, webhookUrl.value, DocumentsOf(portal, session.token), post);
        if run.outcome.Fail? then SyncResult(run.trace, run.outcome, settlements, payments)
        else SyncResult(run.trace, Pass, f.settlements, f.payments)
  }

  /** The stored state of one account. */
  class Database {
    var username: int
    var password: string
    var webhookUrl: Option<string>
    var settlements: seq<Settlement>
    var payments: seq<Payment>

    constructor (username: int, password: string, webhookUrl: Option<string>, settlements: seq<Settlement>, payments: seq<Payment>)
      ensures this.username == username && this.password == password && this.webhookUrl == webhookUrl
      ensures this.settlements == settlements && this.payments == payments
    {
      this.username := username;
      this.password := password;
      this.webhookUrl := webhookUrl;
      this.settlements := settlements;
      this.payments := payments;
    }

    /**
     * One sync cycle. `portal` stands for the portal's endpoints, `post` for
     * the webhook and `thisYear` for today's year. The credentials and the
     * webhook URL are only read; the lists change only when the cycle succeeds.
     */
    method Sync(portal: Portal, post: Webhook, thisYear: int) returns (trace: seq<Event>, outcome: Outcome<Error>)
      modifies this`settlements, this`payments
      ensures var r := SyncSpec(portal, post, thisYear, username, password, webhookUrl, old(settlements), old(payments));
        trace == r.trace && outcome == r.outcome && settlements == r.settlements && payments == r.payments
      ensures outcome.Fail? ==> settlements == old(settlements) && payments == old(payments)
    {
      var login := portal.login(username, password);
      if login.Err? {
        return [], Fail(login.error);
      }
      var token := login.value;
      var account := portal.accountId(token);
      if account.Err? {
        return [], Fail(account.error);
      }
      var wid := account.value;
      var fetched, queried := FetchRecords(HistoryOf(portal, token, wid), thisYear);
      if fetched.Err? {
        return [], Fail(fetched.error);
      }
      trace := [];
      if webhookUrl.Some? && webhookUrl.value != "" {
        var newSettlements := Diff(settlements, fetched.value.settlements);
        var newPayments := Diff(payments, fetched.value.payments);
        var notified;
        trace, notified := Notify(newSettlements, newPayments, wid, webhookUrl.value, DocumentsOf(portal, token), post);
        if notified.Fail? {
          return trace, notified;
        }
      }
      settlements := fetched.value.settlements;
      payments := fetched.value.payments;
      outcome := Pass;
    }
  }

  /**
   * A cycle succeeds exactly when the portal part succeeds and, with a webhook
   * set, every notification call is accepted. A failed cycle leaves the stored
   * lists as they were; a successful one replaces them wholesale by the fetched ones.
   */
  lemma SyncReplacesOnlyOnSuccess(
    portal: Portal, post: Webhook, thisYear: int,
    username: int, password: string, webhookUrl: Option<string>,
    settlements: seq<Settlement>, payments: seq<Payment>)
    ensures var r := SyncSpec(portal, post, thisYear, username, password, webhookUrl, settlements, payments);
      var c := Connect(portal, thisYear, username, password);
      && (r.outcome.Pass? <==>
            c.Ok? && (WebhookConfigured(webhookUrl) ==>
              (forall k :: 0 <= k < |r.trace| ==> ErrorOf(r.trace[k], DocumentsOf(portal, c.value.token), post) == None)))
      && (r.outcome.Fail? ==> r.settlements == settlements && r.payments == payments)
      && (r.outcome.Pass? ==> r.settlements == c.value.fetched.settlements && r.payments == c.value.fetched.payments)
  {
    var c := Connect(portal, thisYear, username, password);
    if c.Ok? && WebhookConfigured(webhookUrl) {
      var f := c.value.fetched;
      NotifyStopsAtFirstRefusal(Diff(settlements, f.settlements), Diff(payments, f.payments),
                                c.value.wid, webhookUrl.value, DocumentsOf(portal, c.value.token), post);
    }
  }

  /**
   * Without a webhook a cycle makes no notification call. With one, a
   * successful cycle announces exactly the new items, in the sense of
   * `AnnouncedInOrder`: the i-th fetched settlement not stored before gets a
   * document download at call 2i and a post carrying that document at call
   * 2i + 1; the j-th new payment is then posted at call 2n + j; and nothing
   * already stored is announced.
   */
  lemma SyncAnnouncesNewItems(
    portal: Portal, post: Webhook, thisYear: int,
    username: int, password: string, webhookUrl: Option<string>,
    settlements: seq<Settlement>, payments: seq<Payment>)
    requires Connect(portal, thisYear, username, password).Ok?
    ensures var r := SyncSpec(portal, post, thisYear, username, password, webhookUrl, settlements, payments);
      var session := Connect(portal, thisYear, username, password).value;
      var newSettlements := Diff(settlements, session.fetched.settlements);
      var newPayments := Diff(payments, session.fetched.payments);
      && (!WebhookConfigured(webhookUrl) ==> r.trace == [] && r.outcome == Pass)
      && (WebhookConfigured(webhookUrl) && r.outcome.Pass? ==>
            && AnnouncedInOrder(r.trace, newSettlements, newPayments, session.wid, webhookUrl.value, DocumentsOf(portal, session.token))
            && (forall k :: 0 <= k < |r.trace| && r.trace[k].Send? && r.trace[k].message.SettlementNotice? ==>
                  var s := r.trace[k].message.settlement;
                  s in session.fetched.settlements && s !in settlements)
            && (forall k :: 0 <= k < |r.trace| && r.trace[k].Send? && r.trace[k].message.PaymentNotice? ==>
                  var p := r.trace[k].message.payment;
                  p in session.fetched.payments && p !in payments))
  {
    var session := Connect(portal, thisYear, username, password).value;
    if WebhookConfigured(webhookUrl) {
      var newSettlements := Diff(settlements, session.fetched.settlements);
      var newPayments := Diff(payments, session.fetched.payments);
      var download := DocumentsOf(portal, session.token);
      var run := NotifyRun(newSettlements, newPayments, session.wid, webhookUrl.value, download, post);
      if run.outcome.Pass? {
        NotifyAnnouncesInOrder(newSettlements, newPayments, session.wid, webhookUrl.value, download, post);
        NotifyAnnouncesOnlyGiven(newSettlements, newPayments, session.wid, webhookUrl.value, download, post);
      }
    }
  }

  /**
   * Running a second cycle right after a successful one, against a portal that
   * answers the same, announces nothing, succeeds, and stores the same lists.
   */
  lemma SyncIdempotent(
    portal: Portal, post: Webhook, thisYear: int,
    username: int, password: string, webhookUrl: Option<string>,
    settlements: seq<Settlement>, payments: seq<Payment>)
    requires SyncSpec(portal, post, thisYear, username, password, webhookUrl, settlements, payments).outcome.Pass?
    ensures var r := SyncSpec(portal, post, thisYear, username, password, webhookUrl, settlements, payments);
      var again := SyncSpec(portal, post, thisYear, username, password, webhookUrl, r.settlements, r.payments);
      again == SyncResult([], Pass, r.settlements, r.payments)
  {
    var r := SyncSpec(portal, post, thisYear, username, password, webhookUrl, settlements, payments);
    DiffSelfIsEmpty(r.settlements);
    DiffSelfIsEmpty(r.payments);
  }
}
