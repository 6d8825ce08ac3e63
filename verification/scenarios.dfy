/** Worked examples of the model, stated as lemmas. */
module Scenarios {
  import opened Wrappers
  import opened Entities
  import opened DiffEngine
  import opened RecordFetcher
  import opened Notifier
  import opened AccountSync

  /** A history endpoint that answers the given years and answers nothing for every other year. */
  function HistoryFrom(answers: map<int, seq<Month>>): History {
    y => if y in answers then Ok(answers[y]) else Ok([])
  }

  /** 2025 has rows, 2024 has none, 2023 has rows: the walk stops at 2024 and never asks for 2023. */
  lemma EarlyStopExample(m: Month)
    ensures var h := HistoryFrom(map[2025 := [m], 2024 := [], 2023 := [m]]);
      && Queried(h, 2025, 2025) == [2025, 2024]
      && Walk(h, 2025, 2025) == Ok(Fetched(YearSettlements(2025, [m]), YearPayments([m])))
  {
    var h := HistoryFrom(map[2025 := [m], 2024 := [], 2023 := [m]]);
    assert h(2025) == Ok([m]) && h(2024) == Ok([]);
    assert Walk(h, 2025, 2024) == Ok(Fetched([], []));
    PrependNothing(Fetched(YearSettlements(2025, [m]), YearPayments([m])));
  }

  /** 2025 has nothing yet, 2024 has rows: the walk goes past 2025 and returns 2024's rows. */
  lemma CurrentYearExample(m: Month)
    ensures var h := HistoryFrom(map[2025 := [], 2024 := [m]]);
      && Queried(h, 2025, 2025) == [2025, 2024, 2023]
      && Walk(h, 2025, 2025) == Ok(Fetched(YearSettlements(2024, [m]), YearPayments([m])))
  {
    var h := HistoryFrom(map[2025 := [], 2024 := [m]]);
    assert h(2025) == Ok([]) && h(2024) == Ok([m]) && h(2023) == Ok([]);
    assert Walk(h, 2025, 2023) == Ok(Fetched([], []));
    PrependNothing(Fetched(YearSettlements(2024, [m]), YearPayments([m])));
    var f := Fetched(YearSettlements(2024, [m]), YearPayments([m]));
    assert Walk(h, 2025, 2024) == Ok(f);
    assert YearSettlements(2025, []) == [] && YearPayments([]) == [];
    assert [] + f.settlements == f.settlements && [] + f.payments == f.payments;
  }

  const JAN_ROW := ChargeRecord(Date(2025, 1, 10), "Jan", -200.0, 1, Some(1))
  const FEB_ROW := ChargeRecord(Date(2025, 2, 10), "Feb", -210.0, 2, Some(2))
  const PAY_ROW := PaymentRecord(Date(2025, 2, 1), 200.0)

  const JAN := Settlement(Some(1), 2025, 1, "Jan", Date(2025, 1, 10), 200.0)
  const FEB := Settlement(Some(2), 2025, 2, "Feb", Date(2025, 2, 10), 210.0)
  const PAY := Payment(Date(2025, 2, 1), 200.0)

  const HOOK := "https://hook.example/1"

  /** A portal whose 2025 history holds the January and February charges and one payment, and nothing before. */
  function ExamplePortal(doc: Document): Portal {
    Portal(
      (user, pass) => Ok("token"),
      token => Ok(7),
      (token, wid, year) => if year == 2025 then Ok([Month([JAN_ROW, FEB_ROW], [PAY_ROW])]) else Ok([]),
      (token, key) => Ok(doc))
  }

  /** A webhook that accepts every post. */
  function AcceptAll(): Webhook {
    (url, message) => Pass
  }

  /**
   * The stored lists hold January only. The cycle downloads February's
   * document, announces February with it, announces the payment, and then
   * stores exactly the fetched lists.
   */
  lemma EndToEndExample(doc: Document)
    ensures SyncSpec(ExamplePortal(doc), AcceptAll(), 2025, 1, "secret", Some(HOOK), [JAN], [])
      == SyncResult(
           [Download(DocumentKey(7, 2025, 2, Some(2))),
            Send(HOOK, SettlementNotice(FEB, Attachment("Feb.pdf", doc, "application/pdf"))),
            Send(HOOK, PaymentNotice(PAY))],
           Pass, [JAN, FEB], [PAY])
  {
    var portal := ExamplePortal(doc);
    var h := HistoryOf(portal, "token", 7);
    var months := [Month([JAN_ROW, FEB_ROW], [PAY_ROW])];
    assert h(2025) == Ok(months) && h(2024) == Ok([]);
    assert Walk(h, 2025, 2024) == Ok(Fetched([], []));
    assert MonthSettlements(2025, months[0]) == [JAN, FEB];
    assert MonthPayments(months[0]) == [PAY];
    assert YearSettlements(2025, months) == [JAN, FEB] by {
      assert months[..0] == [];
    }
    assert YearPayments(months) == [PAY] by {
      assert months[..0] == [];
    }
    PrependNothing(Fetched([JAN, FEB], [PAY]));
    assert Connect(portal, 2025, 1, "secret") == Ok(Session("token", 7, Fetched([JAN, FEB], [PAY])));
    assert Diff([JAN], [JAN, FEB]) == [FEB] by {
      assert [JAN, FEB][1..] == [FEB];
    }
    assert Diff([], [PAY]) == [PAY];
    assert "Feb" + ".pdf" == "Feb.pdf";
    var download := DocumentsOf(portal, "token");
    var sent := Send(HOOK, SettlementNotice(FEB, Attachment("Feb.pdf", doc, "application/pdf")));
    assert download(DocumentKey(7, 2025, 2, Some(2))) == Ok(doc);
    assert SettlementsRun([FEB][1..], 7, HOOK, download, AcceptAll()) == Run([], Pass);
    assert SettlementsRun([FEB], 7, HOOK, download, AcceptAll()) == Run([Download(DocumentKey(7, 2025, 2, Some(2))), sent], Pass);
    assert PaymentsRun([PAY][1..], HOOK, AcceptAll()) == Run([], Pass);
    assert PaymentsRun([PAY], HOOK, AcceptAll()) == Run([Send(HOOK, PaymentNotice(PAY))], Pass);
  }
}
