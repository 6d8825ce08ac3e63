/**
 * `notify` and `download_document` of tmd.py: for each new settlement, fetch
 * its document, then post a message with it attached; afterwards post one
 * message per new payment. The network calls are recorded as a trace.
 */
module Notifier {
  import opened Wrappers
  import opened Entities

  /** The bytes of a settlement's printed document. */
  type Document = seq<bv8>

  /** What the document endpoint is asked with: account id, year, period and settlement id. */
  datatype DocumentKey = DocumentKey(wid: int, year: int, period: int, id: Option<int>)

  /** A file part of a webhook post: its name, its bytes and its media type. */
  datatype Attachment = Attachment(name: string, content: Document, mediaType: string)

  /** The message text, kept as what it announces. */
  datatype Message =
    | SettlementNotice(settlement: Settlement, file: Attachment)
    | PaymentNotice(payment: Payment)

  /** One network call of the notification step. */
  datatype Event =
    | Download(key: DocumentKey)
    | Send(url: string, message: Message)

  /** The calls made and how the step ended. */
  datatype Run = Run(trace: seq<Event>, outcome: Outcome<Error>)

  /** The document endpoint, with the portal session fixed in it. */
  type Downloader = DocumentKey -> Result<Document, Error>

  /** The webhook: accepting or refusing one post to one URL. */
  type Webhook = (string, Message) -> Outcome<Error>

  /** The request `download_document` makes for `s`. */
  function KeyOf(s: Settlement, wid: int): DocumentKey {
    DocumentKey(wid, s.year, s.period, s.id)
  }

  /** The file `download_document` hands on: named after the title, as a PDF. */
  function AttachmentOf(s: Settlement, doc: Document): Attachment {
    Attachment(s.title + ".pdf", doc, "application/pdf")
  }

  /** `prefix`, then whatever `rest` did. */
  function Then(prefix: seq<Event>, rest: Run): Run {
    Run(prefix + rest.trace, rest.outcome)
  }

  /** The settlement half of the step: download, then post, for each in turn, stopping at the first failure. */
  function SettlementsRun(settlements: seq<Settlement>, wid: int, url: string, download: Downloader, post: Webhook): Run
    decreases |settlements|
  {
    if settlements == [] then Run([], Pass)
    else
      var s := settlements[0];
      var key := KeyOf(s, wid);
      match download(key)
      case Err(e) => Run([Download(key)], Fail(e))
      case Ok(doc) =>
        var message := SettlementNotice(s, AttachmentOf(s, doc));
        match post(url, message)
        case Fail(e) => Run([Download(key), Send(url, message)], Fail(e))
        case Pass => Then([Download(key), Send(url, message)], SettlementsRun(settlements[1..], wid, url, download, post))
  }

  /** The payment half of the step: one post each, stopping at the first failure. */
  function PaymentsRun(payments: seq<Payment>, url: string, post: Webhook): Run
    decreases |payments|
  {
    if payments == [] then Run([], Pass)
    else
      var message := PaymentNotice(payments[0]);
      match post(url, message)
      case Fail(e) => Run([Send(url, message)], Fail(e))
      case Pass => Then([Send(url, message)], PaymentsRun(payments[1..], url, post))
  }

  /** The whole step: the settlements, then, if they all went through, the payments. */
  function NotifyRun(settlements: seq<Settlement>, payments: seq<Payment>, wid: int, url: string, download: Downloader, post: Webhook): Run {
    var first := SettlementsRun(settlements, wid, url, download, post);
    if first.outcome.Fail? then first else Then(first.trace, PaymentsRun(payments, url, post))
  }

  lemma ThenNothing(r: Run)
    ensures Then([], r) == r
  {
    assert [] + r.trace == r.trace;
  }

  lemma ThenTwice(a: seq<Event>, b: seq<Event>, r: Run)
    ensures Then(a, Then(b, r)) == Then(a + b, r)
  {
    assert a + (b + r.trace) == a + b + r.trace;
  }

  /**
   * The notification step. `download` stands for the document endpoint and
   * `post` for the webhook; the first refused call ends the step with its error.
   */
  method Notify(settlements: seq<Settlement>, payments: seq<Payment>, wid: int, url: string, download: Downloader, post: Webhook)
    returns (trace: seq<Event>, outcome: Outcome<Error>)
    ensures Run(trace, outcome) == NotifyRun(settlements, payments, wid, url, download, post)
  {
    trace := [];
    ThenNothing(SettlementsRun(settlements, wid, url, download, post));
    var i := 0;
    while i < |settlements|
      invariant 0 <= i <= |settlements|
      invariant Then(trace, SettlementsRun(settlements[i..], wid, url, download, post)) == SettlementsRun(settlements, wid, url, download, post)
    {
      var s := settlements[i];
      var key := KeyOf(s, wid);
      assert settlements[i..][1..] == settlements[i + 1..];
      ghost var before := trace;
      trace := trace + [Download(key)];
      var doc := download(key);
      if doc.Err? {
        return trace, Fail(doc.error);
      }
      var message := SettlementNotice(s, AttachmentOf(s, doc.value));
      trace := trace + [Send(url, message)];
      var sent := post(url, message);
      if sent.Fail? {
        return trace, sent;
      }
      assert trace == before + [Download(key), Send(url, message)];
      ThenTwice(before, [Download(key), Send(url, message)], SettlementsRun(settlements[i + 1..], wid, url, download, post));
      i := i + 1;
    }
    assert SettlementsRun(settlements[i..], wid, url, download, post) == Run([], Pass);
    assert trace + [] == trace;
    var j := 0;
    while j < |payments|
      invariant 0 <= j <= |payments|
      invariant Then(trace, PaymentsRun(payments[j..], url, post)) == NotifyRun(settlements, payments, wid, url, download, post)
    {
      var message := PaymentNotice(payments[j]);
      assert payments[j..][1..] == payments[j + 1..];
      ghost var before := trace;
      trace := trace + [Send(url, message)];
      var sent := post(url, message);
      if sent.Fail? {
        return trace, sent;
      }
      ThenTwice(before, [Send(url, message)], PaymentsRun(payments[j + 1..], url, post));
      j := j + 1;
    }
    assert PaymentsRun(payments[j..], url, post) == Run([], Pass);
    outcome := Pass;
  }

  /** The error a call met, if the endpoint or the webhook refused it. */
  function ErrorOf(e: Event, download: Downloader, post: Webhook): Option<Error> {
    match e
    case Download(key) => if download(key).Err? then Some(download(key).error) else None
    case Send(url, message) => if post(url, message).Fail? then Some(post(url, message).error) else None
  }

  /** The calls of `r` were accepted up to the last, which is refused exactly when `r` failed, with that error. */
  ghost predicate StopsAtFirstRefusal(r: Run, download: Downloader, post: Webhook) {
    && (forall k :: 0 <= k < |r.trace| - 1 ==> ErrorOf(r.trace[k], download, post) == None)
    && (r.outcome.Pass? ==> forall k :: 0 <= k < |r.trace| ==> ErrorOf(r.trace[k], download, post) == None)
    && (r.outcome.Fail? ==> |r.trace| > 0 && ErrorOf(r.trace[|r.trace| - 1], download, post) == Some(r.outcome.error))
  }

  lemma ThenStops(prefix: seq<Event>, rest: Run, download: Downloader, post: Webhook)
    requires forall k :: 0 <= k < |prefix| ==> ErrorOf(prefix[k], download, post) == None
    requires StopsAtFirstRefusal(rest, download, post)
    ensures StopsAtFirstRefusal(Then(prefix, rest), download, post)
  {
    var t := Then(prefix, rest).trace;
    forall k | 0 <= k < |t| ensures k < |prefix| ==> t[k] == prefix[k]
      ensures k >= |prefix| ==> t[k] == rest.trace[k - |prefix|] {
    }
  }

  lemma {:induction false} SettlementsRunStops(settlements: seq<Settlement>, wid: int, url: string, download: Downloader, post: Webhook)
    ensures StopsAtFirstRefusal(SettlementsRun(settlements, wid, url, download, post), download, post)
    decreases |settlements|
  {
    if settlements != [] {
      var key := KeyOf(settlements[0], wid);
      if download(key).Ok? {
        var message := SettlementNotice(settlements[0], AttachmentOf(settlements[0], download(key).value));
        if post(url, message).Pass? {
          SettlementsRunStops(settlements[1..], wid, url, download, post);
          ThenStops([Download(key), Send(url, message)], SettlementsRun(settlements[1..], wid, url, download, post), download, post);
        }
      }
    }
  }

  lemma {:induction false} PaymentsRunStops(payments: seq<Payment>, url: string, download: Downloader, post: Webhook)
    ensures StopsAtFirstRefusal(PaymentsRun(payments, url, post), download, post)
    decreases |payments|
  {
    if payments != [] && post(url, PaymentNotice(payments[0])).Pass? {
      PaymentsRunStops(payments[1..], url, download, post);
      ThenStops([Send(url, PaymentNotice(payments[0]))], PaymentsRun(payments[1..], url, post), download, post);
    }
  }

  /**
   * Failure isolation: the step ends at the first call the document endpoint
   * or the webhook refuses, with that call's error, and makes no call after
   * it; it succeeds exactly when every call it made was accepted.
   */
  lemma NotifyStopsAtFirstRefusal(settlements: seq<Settlement>, payments: seq<Payment>, wid: int, url: string, download: Downloader, post: Webhook)
    ensures StopsAtFirstRefusal(NotifyRun(settlements, payments, wid, url, download, post), download, post)
  {
    SettlementsRunStops(settlements, wid, url, download, post);
    PaymentsRunStops(payments, url, download, post);
    var first := SettlementsRun(settlements, wid, url, download, post);
    if first.outcome.Pass? {
      ThenStops(first.trace, PaymentsRun(payments, url, post), download, post);
    }
  }

  /** Position `2i` of a settlement trace is the download for the i-th settlement, `2i + 1` the post that carries its document. */
  ghost predicate SettlementsShaped(t: seq<Event>, settlements: seq<Settlement>, wid: int, url: string, download: Downloader) {
    && (forall i :: 0 <= i < |settlements| && 2 * i < |t| ==> t[2 * i] == Download(KeyOf(settlements[i], wid)))
    && (forall i :: 0 <= i < |settlements| && 2 * i + 1 < |t| ==>
          && download(KeyOf(settlements[i], wid)).Ok?
          && t[2 * i + 1] == Send(url, SettlementNotice(settlements[i], AttachmentOf(settlements[i], download(KeyOf(settlements[i], wid)).value))))
  }

  lemma {:induction false} SettlementsRunShape(settlements: seq<Settlement>, wid: int, url: string, download: Downloader, post: Webhook)
    ensures var r := SettlementsRun(settlements, wid, url, download, post);
      && |r.trace| <= 2 * |settlements|
      && (r.outcome.Pass? ==> |r.trace| == 2 * |settlements|)
      && SettlementsShaped(r.trace, settlements, wid, url, download)
    decreases |settlements|
  {
    if settlements != [] {
      var key := KeyOf(settlements[0], wid);
      if download(key).Ok? {
        var message := SettlementNotice(settlements[0], AttachmentOf(settlements[0], download(key).value));
        if post(url, message).Pass? {
          var tail := settlements[1..];
          SettlementsRunShape(tail, wid, url, download, post);
          var rt := SettlementsRun(tail, wid, url, download, post).trace;
          var t := [Download(key), Send(url, message)] + rt;
          assert SettlementsRun(settlements, wid, url, download, post).trace == t;
          forall i | 1 <= i < |settlements| && 2 * i < |t| ensures t[2 * i] == Download(KeyOf(settlements[i], wid)) {
            assert t[2 * i] == rt[2 * (i - 1)] && tail[i - 1] == settlements[i];
          }
          forall i | 1 <= i < |settlements| && 2 * i + 1 < |t|
            ensures download(KeyOf(settlements[i], wid)).Ok?
            ensures t[2 * i + 1] == Send(url, SettlementNotice(settlements[i], AttachmentOf(settlements[i], download(KeyOf(settlements[i], wid)).value)))
          {
            assert t[2 * i + 1] == rt[2 * (i - 1) + 1] && tail[i - 1] == settlements[i];
          }
        }
      }
    }
  }

  lemma {:induction false} PaymentsRunShape(payments: seq<Payment>, url: string, post: Webhook)
    ensures var r := PaymentsRun(payments, url, post);
      && |r.trace| <= |payments|
      && (r.outcome.Pass? ==> |r.trace| == |payments|)
      && forall j :: 0 <= j < |r.trace| ==> r.trace[j] == Send(url, PaymentNotice(payments[j]))
    decreases |payments|
  {
    if payments != [] && post(url, PaymentNotice(payments[0])).Pass? {
      var tail := payments[1..];
      PaymentsRunShape(tail, url, post);
      var rt := PaymentsRun(tail, url, post).trace;
      var t := [Send(url, PaymentNotice(payments[0]))] + rt;
      forall j | 1 <= j < |t| ensures t[j] == Send(url, PaymentNotice(payments[j])) {
        assert t[j] == rt[j - 1] && tail[j - 1] == payments[j];
      }
    }
  }

  /**
   * The order of the calls: for the i-th new settlement a download of its
   * document (at position 2i) then a post carrying it (2i + 1); after all
   * settlements, one post per new payment and no download. A successful step
   * makes exactly 2 * |settlements| + |payments| calls; a failed one a prefix of them.
   */
  lemma NotifyTraceShape(settlements: seq<Settlement>, payments: seq<Payment>, wid: int, url: string, download: Downloader, post: Webhook)
    ensures var r := NotifyRun(settlements, payments, wid, url, download, post);
      && |r.trace| <= 2 * |settlements| + |payments|
      && (r.outcome.Pass? ==> |r.trace| == 2 * |settlements| + |payments|)
      && SettlementsShaped(r.trace, settlements, wid, url, download)
      && forall j :: 0 <= j < |payments| && 2 * |settlements| + j < |r.trace| ==>
           r.trace[2 * |settlements| + j] == Send(url, PaymentNotice(payments[j]))
  {
    SettlementsRunShape(settlements, wid, url, download, post);
    PaymentsRunShape(payments, url, post);
    var first := SettlementsRun(settlements, wid, url, download, post);
    if first.outcome.Pass? {
      var t := first.trace + PaymentsRun(payments, url, post).trace;
      assert forall k :: 0 <= k < |first.trace| ==> t[k] == first.trace[k];
    }
  }

  /**
   * `t` announces `settlements` and then `payments`, each in order and each
   * once: call 2i downloads the i-th settlement's document, which the
   * endpoint returned, and call 2i + 1 posts that settlement with it; call
   * 2n + j posts the j-th payment; there are no other calls.
   */
  ghost predicate AnnouncedInOrder(t: seq<Event>, settlements: seq<Settlement>, payments: seq<Payment>, wid: int, url: string, download: Downloader) {
    && |t| == 2 * |settlements| + |payments|
    && (forall i :: 0 <= i < |settlements| ==>
          && t[2 * i] == Download(KeyOf(settlements[i], wid))
          && download(KeyOf(settlements[i], wid)).Ok?
          && t[2 * i + 1] == Send(url, SettlementNotice(settlements[i], AttachmentOf(settlements[i], download(KeyOf(settlements[i], wid)).value))))
    && (forall j :: 0 <= j < |payments| ==> t[2 * |settlements| + j] == Send(url, PaymentNotice(payments[j])))
  }

  /** A successful step makes every call it was meant to, in order. */
  lemma NotifyAnnouncesInOrder(settlements: seq<Settlement>, payments: seq<Payment>, wid: int, url: string, download: Downloader, post: Webhook)
    requires NotifyRun(settlements, payments, wid, url, download, post).outcome.Pass?
    ensures AnnouncedInOrder(NotifyRun(settlements, payments, wid, url, download, post).trace, settlements, payments, wid, url, download)
  {
    NotifyTraceShape(settlements, payments, wid, url, download, post);
    var t := NotifyRun(settlements, payments, wid, url, download, post).trace;
    forall i | 0 <= i < |settlements|
      ensures 2 * i + 1 < |t|
    {
    }
    forall j | 0 <= j < |payments|
      ensures t[2 * |settlements| + j] == Send(url, PaymentNotice(payments[j]))
    {
      assert 2 * |settlements| + j < |t|;
    }
  }

  /**
   * A successful step announces nothing but the items it was given: every
   * settlement post carries one of `settlements`, every payment post one of
   * `payments`, and every download is among the first 2 * |settlements| calls.
   */
  lemma NotifyAnnouncesOnlyGiven(settlements: seq<Settlement>, payments: seq<Payment>, wid: int, url: string, download: Downloader, post: Webhook)
    requires NotifyRun(settlements, payments, wid, url, download, post).outcome.Pass?
    ensures var t := NotifyRun(settlements, payments, wid, url, download, post).trace;
      && (forall k :: 0 <= k < |t| && t[k].Send? && t[k].message.SettlementNotice? ==> t[k].message.settlement in settlements)
      && (forall k :: 0 <= k < |t| && t[k].Send? && t[k].message.PaymentNotice? ==> t[k].message.payment in payments)
      && (forall k :: 0 <= k < |t| && t[k].Download? ==> k < 2 * |settlements|)
  {
    NotifyTraceShape(settlements, payments, wid, url, download, post);
    var t := NotifyRun(settlements, payments, wid, url, download, post).trace;
    var n := 2 * |settlements|;
    forall k | 0 <= k < |t|
      ensures k < n ==> (k % 2 == 0 ==> t[k] == Download(KeyOf(settlements[k / 2], wid)))
      ensures k < n ==> (k % 2 == 1 ==> t[k].Send? && t[k].message.SettlementNotice? && t[k].message.settlement == settlements[k / 2])
      ensures k >= n ==> t[k] == Send(url, PaymentNotice(payments[k - n]))
    {
      if k < n {
        var i := k / 2;
        if k == 2 * i + 1 {
          var key := KeyOf(settlements[i], wid);
          assert download(key).Ok? && t[2 * i + 1] == Send(url, SettlementNotice(settlements[i], AttachmentOf(settlements[i], download(key).value)));
        } else {
          assert k == 2 * i;
        }
      } else {
        assert t[n + (k - n)] == Send(url, PaymentNotice(payments[k - n]));
      }
    }
  }
}
