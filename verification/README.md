# tmd sync cycle, modelled in Dafny

`tmd.py` keeps track of one billing account on a housing portal. A cycle
logs in and looks up the account id. It then walks the yearly history
backwards from the current year and decodes the charge ("settlement") and
payment rows. Against the stored snapshot it works out which fetched
settlements and payments are new. If a Discord webhook is configured, it
posts one message per new item; a settlement's message carries its
document, downloaded just before. Finally it replaces the stored lists
with the fetched ones.

This project models that cycle:

- `entities.dfy` (`Entities`): the frozen `Settlement` and `Payment` values, the
  positional rows of the history endpoint (`Month`, `ChargeRecord`,
  `PaymentRecord`), and the error kinds.
- `diff.dfy` (`DiffEngine`): the generic `diff` as a pure function, with its
  subsequence, multiplicity and emptiness laws.
- `fetch.dfy` (`RecordFetcher`): `fetch_records` as a method with a `while`
  loop and `break`. It is proved equal to a recursive specification `Walk`.
  It also returns the years it asked for, proved equal to `Queried`.
  Lemmas about these two functions cover the year order, the thirty-year cap,
  the early-stop rule, the concatenation order and the decoding of each
  field. The two nested per-month loops are the method `AppendYear`.
- `notify.dfy` (`Notifier`): `notify` and `download_document` as a method
  that records each network call (`Download`, `Send`) in a trace. It is
  proved equal to the specification `NotifyRun`. Lemmas fix the order and
  number of calls and show that the step stops at the first refused call.
- `sync.dfy` (`AccountSync`): the `Database` record as a class. Its `Sync`
  method is `sync_account`, proved equal to `SyncSpec`. Lemmas cover
  replacement only on success, announcing exactly the new items, and a
  repeated cycle announcing nothing.
- `scenarios.dfy` (`Scenarios`): worked examples of the model, stated as
  lemmas: the early-stop rule and one end-to-end cycle.

The network is a set of pure-function oracles that return either an
answer or an error: login, account id, history per year, document and
webhook. Today's year is a parameter.

Three facts about `tmd.py` shape the model:

- Without a webhook URL (absent or empty), `sync_account` computes no diff
  and makes no call; the stored lists are still replaced.
- The webhook test is Python truthiness, so an empty URL counts as "not
  configured" (`WebhookConfigured`).
- `save` writes its temporary file in the system temporary directory and
  then moves it onto the snapshot with `shutil.move`, which copies when the
  two lie on different file systems; the model claims nothing about it.

## Model

| member | source | states |
|---|---|---|
| `DiffEngine.Diff` | tmd.py:107-109 | every item of the result is in `new` and not in `seen`; every item of `new` not in `seen` is in the result; the result is no longer than `new` |
| `DiffEngine.KeptPositionsExact` | tmd.py:109 | the kept positions are exactly the positions of `new` whose value is not in `seen` |
| `DiffEngine.DiffIsOrderedSubsequence` | tmd.py:107-109 | the result is `new` read at strictly ascending positions, which are exactly those whose value is not in `seen`; so it keeps `new`'s order and its length is the number of such positions |
| `DiffEngine.DiffKeepsMultiplicity` | tmd.py:109 | duplicates are not collapsed: a value absent from `seen` occurs in the result exactly as often as in `new`, a value in `seen` never |
| `DiffEngine.DiffEmptyIff` | tmd.py:108-109 | the result is empty if and only if every item of `new` is in `seen` |
| `DiffEngine.DiffWholeIff` | tmd.py:108-109 | the result is all of `new` if and only if no item of `new` is in `seen` |
| `DiffEngine.DiffSelfIsEmpty` | tmd.py:108-109 | `diff(x, x)` is empty |
| `DiffEngine.DiffAgainstNothing` | tmd.py:108-109 | `diff([], new)` is `new` |
| `DiffEngine.DiffIdempotent` | tmd.py:107-109 | diffing the result again against the same `seen` changes nothing |
| `RecordFetcher.AppendYear` | tmd.py:83-102 | for one year's answer, appends to the two lists every charge row and every payment row, month by month, in the answer's order, decoded |
| `RecordFetcher.FetchRecords` | tmd.py:70-104 | the returned lists (or the first error) are those of the specification `Walk` from the current year, and the years asked for are `Queried` |
| `RecordFetcher.QueriedYearsDescend` | tmd.py:75 | the years asked for are consecutive and strictly descending from the current year, at least one and at most thirty, never below `this_year - 29` |
| `RecordFetcher.QueriedStopRule` | tmd.py:75-81 | every year asked for except the last answered and let the walk go on; the last is the thirtieth, or failed, or was a past year with an empty answer |
| `RecordFetcher.WalkGathersQueriedYears` | tmd.py:75-104 | the walk succeeds if and only if every year asked for answered; its lists are then the concatenation, over those years in descending order, of each year's rows in answer order |
| `RecordFetcher.EarlyStop` | tmd.py:80-81 | an empty answer for a year other than the current one makes that year the last one asked for; no earlier year is asked for, and the walk from that year yields no rows |
| `RecordFetcher.EarlierYearsIgnored` | tmd.py:75-81 | once a past year has answered nothing, the answers for earlier years cannot change the walk: any endpoint that answers the same from that year upwards yields the same lists (or error) and the same requests |
| `RecordFetcher.CurrentYearExempt` | tmd.py:80-81 | an empty answer for the current year does not stop the walk: the year before is asked for next |
| `RecordFetcher.YearSettlementsDecoded` | tmd.py:83-94 | each settlement of a year's answer comes from one of its charge rows: same id, period, title and due date, that year, the amount negated |
| `RecordFetcher.YearPaymentsDecoded` | tmd.py:96-102 | each payment of a year's answer comes from one of its payment rows, with the same date and amount |
| `RecordFetcher.FetchedSettlementsDecoded` | tmd.py:84-94 | each fetched settlement comes from a charge row of a year that was asked for: `year` is that year, `value == -record[2]`, `period == record[3]`, `id == record[4]`, `title == record[1]`, the due date is `record[0]` |
| `RecordFetcher.FetchedPaymentsDecoded` | tmd.py:96-102 | each fetched payment comes from a payment row of a year that was asked for, with `date == record[0]` and `value == record[1]` |
| `Notifier.Notify` | tmd.py:112-148 | the calls made and the outcome are those of the specification `NotifyRun`: download then post for each settlement, then a post for each payment, ending at the first refusal |
| `Notifier.SettlementsRunStops` | tmd.py:136-142 | in the settlement half, every call before the last was accepted; a failure ends at a refused call carrying its error |
| `Notifier.PaymentsRunStops` | tmd.py:143-148 | in the payment half, every call before the last was accepted; a failure ends at a refused post carrying its error |
| `Notifier.NotifyStopsAtFirstRefusal` | tmd.py:119-130 | the step ends at the first call the document endpoint or the webhook refuses, with that error, and makes no call after it; it succeeds exactly when every call it made was accepted |
| `Notifier.SettlementsRunShape` | tmd.py:112-121 | call `2i` downloads the document for the i-th settlement (`WId`, year, period, id) and call `2i + 1` posts it, named `title.pdf` with type `application/pdf`; a success makes `2 * n` calls |
| `Notifier.PaymentsRunShape` | tmd.py:143-148 | call `j` posts the j-th payment with no attachment; a success makes one call per payment |
| `Notifier.NotifyTraceShape` | tmd.py:133-148 | all settlement calls (download, then post) come before all payment posts; a success makes exactly `2 * settlements + payments` calls, a failure a prefix of them |
| `Notifier.NotifyAnnouncesInOrder` | tmd.py:133-148 | a successful step makes exactly `2 * n + m` calls: for the i-th settlement a download at call `2i` that returned a document and a post of that settlement with it at `2i + 1`, then a post of the j-th payment at `2n + j` |
| `Notifier.NotifyAnnouncesOnlyGiven` | tmd.py:136-148 | a successful step posts only the settlements and payments it was given, and downloads only among the settlement calls |
| `AccountSync.Database.constructor` | tmd.py:26-31 | a database holds the given credentials, webhook URL and lists |
| `AccountSync.Database.Sync` | tmd.py:158-173 | the calls made, the outcome and the new lists are those of `SyncSpec`; on failure the lists are unchanged; credentials and URL are never written |
| `AccountSync.SyncReplacesOnlyOnSuccess` | tmd.py:162-173 | a cycle succeeds if and only if login, account lookup and fetch succeed and, with a webhook, every notification call is accepted; a failed cycle leaves the lists as they were; a successful one stores exactly the fetched lists |
| `AccountSync.SyncAnnouncesNewItems` | tmd.py:167-170 | without a webhook (absent or empty URL) no call is made; with one, a successful cycle makes exactly the calls of `AnnouncedInOrder` for the diffs: the i-th new settlement is downloaded at call `2i` and posted with its document at `2i + 1`, the j-th new payment posted at `2n + j`; every item posted was fetched and not stored before |
| `AccountSync.SyncIdempotent` | tmd.py:167-173 | a cycle right after a successful one, against the same answers, makes no notification call, succeeds and stores the same lists |
| `Scenarios.EarlyStopExample` | tmd.py:75-81 | answers for 2025 (rows), 2024 (empty) and 2023 (rows): the walk asks for 2025 and 2024 only, and returns 2025's rows |
| `Scenarios.CurrentYearExample` | tmd.py:80-81 | answers for 2025 (empty) and 2024 (rows): the walk goes past 2025 and returns 2024's rows |
| `Scenarios.EndToEndExample` | tmd.py:158-173 | stored January, fetched January and February plus one payment: February's document is downloaded and posted, then the payment, and the stored lists become the fetched ones |

## Left out

- HTTP transport is not modelled. This covers `requests.Session`, the `User-Agent` and `Authorization` headers, `raise_for_status`, and closing the sessions. Each endpoint is an oracle that answers or fails.
- `login` (tmd.py:57-61) and `fetch_wid` (tmd.py:64-67) are oracles. How the token and the account id are read out of their JSON answers is not modelled.
- JSON decoding of the history answer is not modelled. Rows arrive already typed with their positional fields, and a malformed answer counts as an error of that oracle. A `null` answer is not represented.
- ISO date parsing (`datetime.fromisoformat`) and `date.today()` are not modelled. Dates are opaque values, and the current year is a parameter.
- `value` is a `real`, not a binary float. Only its negation is kept. NaN and the float comparisons that `set(seen)` would make on it are not modelled.
- The text of the Discord messages is not modelled: the emoji, `:.2f` amounts, `%d %b %Y` dates, `@everyone` and `allowed_mentions`. A message is the settlement with its attachment, or the payment.
- `read_db` and `model_dump_json` (pydantic validation and serialisation) are not part of this model, so there is no load/save round trip.
- `save` (tmd.py:151-155) is file I/O and is not modelled. No atomicity is claimed for it.
- `main` (tmd.py:176-182), the loop over the database files, is not part of this model.
- `AccountSync.Database.Sync`: the trace records only the notification step's calls. The login, account-id and history requests are not in it; the years asked for are returned separately by `RecordFetcher.FetchRecords`.
