/**
 * The expense ledger of script.js: a project's entries ("memos"), the table
 * rows the page shows for them, the per-payer totals, the equal-split
 * settlement and the CSV export.
 */
module Ledger {
  import opened JsBuiltins

  /** A stored entry. `amount` is None when the stored value is null, which is what
      JSON makes of the NaN that `parseInt` returns for a text with no digits. */
  datatype Memo = Memo(date: string, text: string, amount: Option<int>, payer: string)

  /** A row of the entry table: the text of its four data cells (date, payer, amount, memo)
      and whether the amount `addMemoToPage` was called with was null. The row's edit
      handler keeps that argument, not the cell. */
  datatype Row = Row(date: string, payer: string, amount: string, text: string, fromNull: bool)

  const Yen: char := '円'
  const Unknown: string := "不明"

  /** `${amount}`: the decimal text of a number, "null" for a null amount. */
  function AmountText(amount: Option<int>): (r: string)
    ensures Yen !in r && '"' !in r && '\n' !in r
  {
    match amount
    case Some(n) => IntToDecimal(n)
    case None => "null"
  }

  /** `addMemoToPage(text, date, amountText, payer)` from the add button: the row it appends. */
  function MemoRow(text: string, date: string, amountText: string, payer: string): Row {
    Row(date, payer, amountText + [Yen], text, false)
  }

  /** The row `loadMemos` shows for a stored entry. */
  function RenderMemo(m: Memo): Row {
    Row(m.date, m.payer, AmountText(m.amount) + [Yen], m.text, m.amount == None)
  }

  /** What `saveMemos` reads back from a row: `parseInt(amountCell.replace('円', ''))`. */
  function ReadRow(r: Row): Memo {
    Memo(r.date, r.text, ParseInt(RemoveFirst(r.amount, Yen)), r.payer)
  }

  function RenderAll(memos: seq<Memo>): (rows: seq<Row>)
    ensures |rows| == |memos|
  {
    seq(|memos|, k requires 0 <= k < |memos| => RenderMemo(memos[k]))
  }

  function ReadAll(rows: seq<Row>): (memos: seq<Memo>)
    ensures |memos| == |rows|
  {
    seq(|rows|, k requires 0 <= k < |rows| => ReadRow(rows[k]))
  }

  /** The amount cell round trip: an entry shown in the table and read back is the same entry. */
  lemma MemoRoundTrip(m: Memo)
    ensures ReadRow(RenderMemo(m)) == m
  {
    var t := AmountText(m.amount);
    RemoveFirstOfSuffix(t, Yen);
    assert RenderMemo(m).amount == t + [Yen];
    match m.amount
    case Some(n) => ParseIntOfDecimal(n);
    case None => ParseIntOfNonNumber(t);
  }

  /** Showing a project's entries and saving the table gives back exactly those entries. */
  lemma TableRoundTrip(memos: seq<Memo>)
    ensures ReadAll(RenderAll(memos)) == memos
  {
    forall k | 0 <= k < |memos|
      ensures ReadAll(RenderAll(memos))[k] == memos[k]
    {
      MemoRoundTrip(memos[k]);
    }
  }

  /** An amount typed in the form and read back from its cell is what `parseInt` makes of it. */
  lemma TypedAmountIsParsed(amountText: string)
    requires Yen !in amountText
    ensures ReadRow(MemoRow("", "", amountText, "")).amount == ParseInt(amountText)
  {
    RemoveFirstOfSuffix(amountText, Yen);
  }

  /** The loop of `saveMemos`: one entry per table row, in table order. */
  method ReadTable(rows: seq<Row>) returns (memos: seq<Memo>)
    ensures memos == ReadAll(rows)
  {
    memos := [];
    for i := 0 to |rows|
      invariant |memos| == i
      invariant forall k :: 0 <= k < i ==> memos[k] == ReadRow(rows[k])
    {
      memos := memos + [ReadRow(rows[i])];
    }
  }

  // ---------------------------------------------------------------------------
  // Per-payer totals

  /** The amount an entry adds to a sum: `amount || 0`; a null amount adds nothing
      in the settlement's sums either. */
  function Amount(m: Memo): int {
    match m.amount
    case Some(n) => n
    case None => 0
  }

  /** The key an entry is grouped under: `payer || '不明'` in `calculateTotal`,
      the payer as stored in `calculateSettlement`. */
  function PayerKey(m: Memo, labelUnknown: bool): string {
    if labelUnknown && m.payer == "" then Unknown else m.payer
  }

  /** The payers in the order they first occur: the key order of the totals object. */
  function Payers(memos: seq<Memo>, labelUnknown: bool): (r: seq<string>)
    ensures NoDup(r)
  {
    if memos == [] then []
    else
      var init := memos[..|memos| - 1];
      var ps := Payers(init, labelUnknown);
      var p := PayerKey(memos[|memos| - 1], labelUnknown);
      if p in ps then ps else ps + [p]
  }

  /** The list holds exactly the keys of the entries: a payer is listed if and only if
      some entry is grouped under it. */
  lemma PayersAreTheKeys(memos: seq<Memo>, labelUnknown: bool, p: string)
    ensures p in Payers(memos, labelUnknown) <==> exists k :: 0 <= k < |memos| && PayerKey(memos[k], labelUnknown) == p
  {
    if p in Payers(memos, labelUnknown) {
      PayersOccur(memos, labelUnknown, p);
    } else if exists k :: 0 <= k < |memos| && PayerKey(memos[k], labelUnknown) == p {
      var k :| 0 <= k < |memos| && PayerKey(memos[k], labelUnknown) == p;
      PayersListKey(memos, labelUnknown, k);
    }
  }

  lemma {:induction false} PayersListKey(memos: seq<Memo>, labelUnknown: bool, k: nat)
    requires k < |memos|
    ensures PayerKey(memos[k], labelUnknown) in Payers(memos, labelUnknown)
  {
    var init := memos[..|memos| - 1];
    if k < |init| {
      PayersListKey(init, labelUnknown, k);
      assert init[k] == memos[k];
    }
  }

  lemma {:induction false} PayersOccur(memos: seq<Memo>, labelUnknown: bool, p: string)
    requires p in Payers(memos, labelUnknown)
    ensures exists k :: 0 <= k < |memos| && PayerKey(memos[k], labelUnknown) == p
  {
    var init := memos[..|memos| - 1];
    if p in Payers(init, labelUnknown) {
      PayersOccur(init, labelUnknown, p);
      var k :| 0 <= k < |init| && PayerKey(init[k], labelUnknown) == p;
      assert memos[k] == init[k];
    } else {
      assert PayerKey(memos[|memos| - 1], labelUnknown) == p;
    }
  }

  /** What one payer paid: the sum of the amounts of that payer's entries. */
  function Paid(memos: seq<Memo>, labelUnknown: bool, p: string): int {
    if memos == [] then 0
    else
      var m := memos[|memos| - 1];
      Paid(memos[..|memos| - 1], labelUnknown, p) + (if PayerKey(m, labelUnknown) == p then Amount(m) else 0)
  }

  /** The sum of all amounts. */
  function Total(memos: seq<Memo>): int {
    if memos == [] then 0 else Total(memos[..|memos| - 1]) + Amount(memos[|memos| - 1])
  }

  /** `Object.values(totals).reduce((sum, v) => sum + v, 0)`, the keys taken in order. */
  function SumValues(totals: map<string, int>, keys: seq<string>): int
    requires forall p :: p in keys ==> p in totals
  {
    if keys == [] then 0 else SumValues(totals, keys[..|keys| - 1]) + totals[keys[|keys| - 1]]
  }

  /** The sum of what the listed payers paid. */
  function SumPaid(memos: seq<Memo>, labelUnknown: bool, ps: seq<string>): int {
    if ps == [] then 0 else SumPaid(memos, labelUnknown, ps[..|ps| - 1]) + Paid(memos, labelUnknown, ps[|ps| - 1])
  }

  lemma {:induction false} PaidOfAbsent(memos: seq<Memo>, labelUnknown: bool, p: string)
    requires p !in Payers(memos, labelUnknown)
    ensures Paid(memos, labelUnknown, p) == 0
  {
    if memos != [] {
      PaidOfAbsent(memos[..|memos| - 1], labelUnknown, p);
    }
  }

  /** Adding one entry adds its amount to the payers' sum when its payer is listed (once). */
  lemma {:induction false} SumPaidStep(memos: seq<Memo>, labelUnknown: bool, ps: seq<string>)
    requires memos != [] && NoDup(ps)
    ensures SumPaid(memos, labelUnknown, ps)
         == SumPaid(memos[..|memos| - 1], labelUnknown, ps)
            + (if PayerKey(memos[|memos| - 1], labelUnknown) in ps then Amount(memos[|memos| - 1]) else 0)
  {
    if ps != [] {
      var init := ps[..|ps| - 1];
      assert forall x :: x in ps <==> x in init || x == ps[|ps| - 1];
      assert ps[|ps| - 1] !in init;
      SumPaidStep(memos, labelUnknown, init);
    }
  }

  /** The payers' totals add up to the overall total: no entry is lost or counted twice. */
  lemma {:induction false} PaidSumsToTotal(memos: seq<Memo>, labelUnknown: bool)
    ensures SumPaid(memos, labelUnknown, Payers(memos, labelUnknown)) == Total(memos)
  {
    if memos != [] {
      var init, m := memos[..|memos| - 1], memos[|memos| - 1];
      var ps := Payers(init, labelUnknown);
      var p := PayerKey(m, labelUnknown);
      PaidSumsToTotal(init, labelUnknown);
      SumPaidStep(memos, labelUnknown, ps);
      assert SumPaid(memos, labelUnknown, ps) == Total(init) + (if p in ps then Amount(m) else 0);
      if p !in ps {
        PaidOfAbsent(init, labelUnknown, p);
        assert Paid(memos, labelUnknown, p) == Amount(m);
        assert (ps + [p])[..|ps|] == ps;
        assert SumPaid(memos, labelUnknown, ps + [p]) == SumPaid(memos, labelUnknown, ps) + Amount(m);
      }
    }
  }

  lemma {:induction false} SumValuesIsSumPaid(totals: map<string, int>, memos: seq<Memo>, labelUnknown: bool, ps: seq<string>)
    requires forall p :: p in ps ==> p in totals && totals[p] == Paid(memos, labelUnknown, p)
    ensures SumValues(totals, ps) == SumPaid(memos, labelUnknown, ps)
  {
    if ps != [] {
      SumValuesIsSumPaid(totals, memos, labelUnknown, ps[..|ps| - 1]);
    }
  }

  /** The `forEach` of `calculateTotal` and `calculateSettlement`: a dictionary from payer to
      the sum of that payer's amounts, with its keys in insertion order. A key holding 0 is
      falsy, so the next amount overwrites it rather than adding to it, which gives the same sum. */
  method Tally(memos: seq<Memo>, labelUnknown: bool) returns (payers: seq<string>, totals: map<string, int>)
    ensures payers == Payers(memos, labelUnknown)
    ensures forall p :: p in totals <==> p in payers
    ensures forall p :: p in totals ==> totals[p] == Paid(memos, labelUnknown, p)
  {
    payers, totals := [], map[];
    for i := 0 to |memos|
      invariant payers == Payers(memos[..i], labelUnknown)
      invariant forall p :: p in totals <==> p in payers
      invariant forall p :: p in totals ==> totals[p] == Paid(memos[..i], labelUnknown, p)
    {
      var payer := PayerKey(memos[i], labelUnknown);
      var amount := Amount(memos[i]);
      PayersStep(memos, labelUnknown, i);
      ghost var before := totals;
      if payer in totals && totals[payer] != 0 {
        totals := totals[payer := totals[payer] + amount];
      } else {
        if payer !in totals {
          PaidOfAbsent(memos[..i], labelUnknown, payer);
          payers := payers + [payer];
        }
        totals := totals[payer := amount];
      }
      forall p | p in totals
        ensures totals[p] == Paid(memos[..i + 1], labelUnknown, p)
      {
        PaidStep(memos, labelUnknown, i, p);
        if p != payer {
          assert p in before && totals[p] == before[p];
        }
      }
    }
    assert memos[..|memos|] == memos;
  }

  lemma PayersStep(memos: seq<Memo>, labelUnknown: bool, i: nat)
    requires i < |memos|
    ensures Payers(memos[..i + 1], labelUnknown)
         == (var ps := Payers(memos[..i], labelUnknown);
             if PayerKey(memos[i], labelUnknown) in ps then ps else ps + [PayerKey(memos[i], labelUnknown)])
  {
    assert memos[..i + 1][..i] == memos[..i];
  }

  lemma PaidStep(memos: seq<Memo>, labelUnknown: bool, i: nat, p: string)
    requires i < |memos|
    ensures Paid(memos[..i + 1], labelUnknown, p)
         == Paid(memos[..i], labelUnknown, p) + (if PayerKey(memos[i], labelUnknown) == p then Amount(memos[i]) else 0)
  {
    assert memos[..i + 1][..i] == memos[..i];
  }

  /** `calculateTotal` on the stored entries of the current project: each payer's total
      (an empty payer counted as 不明) and the overall total. */
  method CalculateTotal(memos: seq<Memo>) returns (payers: seq<string>, totals: map<string, int>, overall: int)
    ensures payers == Payers(memos, true)
    ensures forall p :: p in totals <==> p in payers
    ensures forall p :: p in totals ==> totals[p] == Paid(memos, true, p)
    ensures overall == Total(memos)
  {
    payers, totals := Tally(memos, true);
    overall := SumValues(totals, payers);
    SumValuesIsSumPaid(totals, memos, true, payers);
    PaidSumsToTotal(memos, true);
  }

  // ---------------------------------------------------------------------------
  // Settlement

  /** What the settlement says of one payer: receives the balance, pays its absolute
      value, or is settled. The amounts are exact; rounding is for display only. */
  datatype Verdict = Receives(amount: real) | Pays(amount: real) | Settled

  datatype SettlementLine = SettlementLine(payer: string, verdict: Verdict)

  /** The sign test on `balance = paid - perPerson`. */
  function VerdictOf(balance: real): (v: Verdict)
    ensures v.Receives? <==> balance > 0.0
    ensures v.Pays? <==> balance < 0.0
    ensures !v.Settled? ==> v.amount > 0.0
  {
    if balance > 0.0 then Receives(balance)
    else if balance < 0.0 then Pays(-balance)
    else Settled
  }

  /** The signed balance a verdict stands for. */
  function Signed(v: Verdict): real {
    match v
    case Receives(a) => a
    case Pays(a) => -a
    case Settled => 0.0
  }

  /** `perPerson`: the total split evenly over the distinct payers, 0 with no payer. */
  function Share(total: int, numPayers: nat): real {
    if numPayers > 0 then total as real / numPayers as real else 0.0
  }

  /** One line per listed payer: the verdict on what that payer paid minus the share. */
  function LinesFor(memos: seq<Memo>, ps: seq<string>, share: real): (lines: seq<SettlementLine>)
    ensures |lines| == |ps|
  {
    seq(|ps|, k requires 0 <= k < |ps| => SettlementLine(ps[k], VerdictOf(Paid(memos, false, ps[k]) as real - share)))
  }

  /** The result `calculateSettlement` lists, one line per payer in key order. */
  function Settlement(memos: seq<Memo>): seq<SettlementLine> {
    var ps := Payers(memos, false);
    LinesFor(memos, ps, Share(Total(memos), |ps|))
  }

  /** The second `forEach` of `calculateSettlement`: each payer's balance against the share
      and the sign test on it, one line per payer in key order. */
  method SettleEach(ghost memos: seq<Memo>, payers: seq<string>, balances: map<string, int>, perPerson: real)
    returns (lines: seq<SettlementLine>)
    requires forall p :: p in payers ==> p in balances && balances[p] == Paid(memos, false, p)
    ensures lines == LinesFor(memos, payers, perPerson)
  {
    lines := [];
    for i := 0 to |payers|
      invariant |lines| == i
      invariant forall k :: 0 <= k < i ==> lines[k] == SettlementLine(payers[k], VerdictOf(Paid(memos, false, payers[k]) as real - perPerson))
    {
      var balance := balances[payers[i]] as real - perPerson;
      var verdict;
      if balance > 0.0 {
        verdict := Receives(balance);
      } else if balance < 0.0 {
        verdict := Pays(-balance);
      } else {
        verdict := Settled;
      }
      lines := lines + [SettlementLine(payers[i], verdict)];
    }
  }

  /** `calculateSettlement` on the stored entries of the current project. */
  method CalculateSettlement(memos: seq<Memo>) returns (lines: seq<SettlementLine>)
    ensures lines == Settlement(memos)
  {
    var payers, balances := Tally(memos, false);
    var overallTotal := SumValues(balances, payers);
    SumValuesIsSumPaid(balances, memos, false, payers);
    PaidSumsToTotal(memos, false);
    var perPerson := Share(overallTotal, |payers|);
    lines := SettleEach(memos, payers, balances, perPerson);
  }

  /** The sign of `paid - total / n` is the sign of `n * paid - total`: the verdict needs
      no division. */
  lemma VerdictByCrossMultiplying(paid: int, total: int, n: nat)
    requires n > 0
    ensures var v := VerdictOf(paid as real - Share(total, n));
            && (v.Receives? <==> n * paid > total)
            && (v.Pays? <==> n * paid < total)
            && (v.Settled? <==> n * paid == total)
  {
    var share := total as real / n as real;
    assert share * n as real == total as real;
    assert (paid as real - share) * n as real == (n * paid - total) as real;
  }

  /** The sum of the signed amounts of a list of lines. */
  function SumLines(lines: seq<SettlementLine>): real {
    if lines == [] then 0.0 else SumLines(lines[..|lines| - 1]) + Signed(lines[|lines| - 1].verdict)
  }

  function Times(n: nat, x: real): real {
    if n == 0 then 0.0 else Times(n - 1, x) + x
  }

  lemma {:induction false} TimesIsProduct(n: nat, x: real)
    ensures Times(n, x) == n as real * x
  {
    if n > 0 {
      TimesIsProduct(n - 1, x);
      assert n as real * x == (n - 1) as real * x + x;
    }
  }

  /** Splitting the total evenly and adding the shares back gives the total. */
  lemma SharesAddUp(total: int, n: nat)
    requires n > 0
    ensures Times(n, Share(total, n)) == total as real
  {
    TimesIsProduct(n, Share(total, n));
  }

  lemma SignedVerdict(balance: real)
    ensures Signed(VerdictOf(balance)) == balance
  {
  }

  lemma {:induction false} SumLinesFor(memos: seq<Memo>, ps: seq<string>, share: real)
    ensures SumLines(LinesFor(memos, ps, share)) == SumPaid(memos, false, ps) as real - Times(|ps|, share)
  {
    if ps != [] {
      var n := |ps|;
      var lines := LinesFor(memos, ps, share);
      assert lines[..n - 1] == LinesFor(memos, ps[..n - 1], share);
      assert SumLines(lines) == SumLines(lines[..n - 1]) + Signed(lines[n - 1].verdict);
      SumLinesFor(memos, ps[..n - 1], share);
      SignedVerdict(Paid(memos, false, ps[n - 1]) as real - share);
      assert Signed(lines[n - 1].verdict) == Paid(memos, false, ps[n - 1]) as real - share;
      assert SumPaid(memos, false, ps) == SumPaid(memos, false, ps[..n - 1]) + Paid(memos, false, ps[n - 1]);
    }
  }

  /** What the receivers get is exactly what the payers pay: the signed balances sum to zero. */
  lemma BalancesSumToZero(memos: seq<Memo>)
    ensures SumLines(Settlement(memos)) == 0.0
  {
    var ps := Payers(memos, false);
    var share := Share(Total(memos), |ps|);
    SumLinesFor(memos, ps, share);
    PaidSumsToTotal(memos, false);
    if |ps| > 0 {
      SharesAddUp(Total(memos), |ps|);
    }
  }

  /** With a single payer, that payer is always settled. */
  lemma SinglePayerIsSettled(memos: seq<Memo>)
    requires |Payers(memos, false)| == 1
    ensures Settlement(memos) == [SettlementLine(Payers(memos, false)[0], Settled)]
  {
    var ps := Payers(memos, false);
    PaidSumsToTotal(memos, false);
    assert ps[..0] == [];
    assert SumPaid(memos, false, ps) == Paid(memos, false, ps[0]);
  }

  /** No entry, no payer and no line; otherwise one line per distinct payer. */
  lemma SettlementHasOneLinePerPayer(memos: seq<Memo>)
    ensures |Settlement(memos)| == |Payers(memos, false)|
    ensures Settlement(memos) == [] <==> memos == []
  {
    if memos != [] {
      PayersListKey(memos, false, 0);
    }
  }

  /** A paid 300 and B paid 100: the share is 200, A receives 100 and B pays 100. */
  lemma TwoPayerExample(date: string, text: string)
    ensures var memos := [Memo(date, text, Some(300), "A"), Memo(date, text, Some(100), "B")];
            Settlement(memos) == [SettlementLine("A", Receives(100.0)), SettlementLine("B", Pays(100.0))]
  {
    var a, b := Memo(date, text, Some(300), "A"), Memo(date, text, Some(100), "B");
    var memos := [a, b];
    assert memos[..1] == [a] && [a][..0] == [];
    assert Payers([a], false) == ["A"];
    assert Payers(memos, false) == ["A", "B"];
    assert Total([a]) == 300 && Paid([a], false, "A") == 300 && Paid([a], false, "B") == 0;
    assert Total(memos) == 400;
    assert Paid(memos, false, "A") == 300;
    assert Paid(memos, false, "B") == 100;
    assert Share(400, 2) == 200.0;
  }

  // ---------------------------------------------------------------------------
  // CSV export

  const CsvHeader: string := "日付,支払い者,金額,メモ\n"

  /** The four fields of an exported line, double-quoted, in the order date, payer,
      amount, memo, with no escaping of quotes inside them. */
  function CsvFields(m: Memo): string {
    "\"" + m.date + "\",\"" + m.payer + "\",\"" + AmountText(m.amount) + "\",\"" + m.text + "\""
  }

  function CsvLine(m: Memo): string {
    CsvFields(m) + "\n"
  }

  function CsvBody(memos: seq<Memo>): string {
    if memos == [] then "" else CsvBody(memos[..|memos| - 1]) + CsvLine(memos[|memos| - 1])
  }

  lemma CsvBodyStep(memos: seq<Memo>, i: nat)
    requires i < |memos|
    ensures CsvBody(memos[..i + 1]) == CsvBody(memos[..i]) + CsvLine(memos[i])
  {
    assert memos[..i + 1][..i] == memos[..i];
  }

  /** Regrouping a concatenation, proved on its own so that the loop of `ExportCsv` does not
      have to search for it. */
  lemma Associative(a: string, b: string, c: string)
    ensures (a + b) + c == a + (b + c)
  {
  }

  /** The export button: nothing for a project with no entries, otherwise the header
      followed by one line per entry. */
  method ExportCsv(memos: seq<Memo>) returns (csv: Option<string>)
    ensures csv == None <==> memos == []
    ensures csv.Some? ==> csv.value == CsvHeader + CsvBody(memos)
  {
    if |memos| == 0 {
      return None;
    }
    var text := CsvHeader;
    for i := 0 to |memos|
      invariant text == CsvHeader + CsvBody(memos[..i])
    {
      CsvBodyStep(memos, i);
      Associative(CsvHeader, CsvBody(memos[..i]), CsvLine(memos[i]));
      text := text + CsvLine(memos[i]);
    }
    assert memos[..|memos|] == memos;
    csv := Some(text);
  }

  /** How many times `c` occurs in `s`. */
  function Occurrences(c: char, s: string): nat {
    if s == [] then 0 else Occurrences(c, s[..|s| - 1]) + (if s[|s| - 1] == c then 1 else 0)
  }

  lemma {:induction false} OccurrencesOfConcat(c: char, s: string, t: string)
    ensures Occurrences(c, s + t) == Occurrences(c, s) + Occurrences(c, t)
  {
    if t != [] {
      assert (s + t)[..|s + t| - 1] == s + t[..|t| - 1];
      OccurrencesOfConcat(c, s, t[..|t| - 1]);
    } else {
      assert s + t == s;
    }
  }

  lemma {:induction false} OccurrencesOfAbsent(c: char, s: string)
    requires c !in s
    ensures Occurrences(c, s) == 0
  {
    if s != [] {
      OccurrencesOfAbsent(c, s[..|s| - 1]);
    }
  }

  /** A line holds its fields' quote characters as they are, plus the eight that delimit the
      fields: an embedded quote is not doubled, so the line no longer reads back as four fields. */
  lemma CsvLineQuotes(m: Memo)
    ensures Occurrences('"', CsvLine(m))
         == 8 + Occurrences('"', m.date) + Occurrences('"', m.payer) + Occurrences('"', m.text)
  {
    var q, sep, a := "\"", "\",\"", AmountText(m.amount);
    OccurrencesOfAbsent('"', a);
    assert Occurrences('"', q) == 1;
    assert Occurrences('"', sep) == 2;
    assert Occurrences('"', "\n") == 0;
    var s1 := q + m.date;
    var s2 := s1 + sep;
    var s3 := s2 + m.payer;
    var s4 := s3 + sep;
    var s5 := s4 + a;
    var s6 := s5 + sep;
    var s7 := s6 + m.text;
    var s8 := s7 + q;
    assert CsvLine(m) == s8 + "\n";
    OccurrencesOfConcat('"', q, m.date);
    OccurrencesOfConcat('"', s1, sep);
    OccurrencesOfConcat('"', s2, m.payer);
    OccurrencesOfConcat('"', s3, sep);
    OccurrencesOfConcat('"', s4, a);
    OccurrencesOfConcat('"', s5, sep);
    OccurrencesOfConcat('"', s6, m.text);
    OccurrencesOfConcat('"', s7, q);
    OccurrencesOfConcat('"', s8, "\n");
  }

  /** A text with no line break, followed by one, holds exactly one. */
  lemma OneLineBreak(t: string)
    requires '\n' !in t
    ensures Occurrences('\n', t + "\n") == 1
  {
    OccurrencesOfAbsent('\n', t);
    OccurrencesOfConcat('\n', t, "\n");
  }

  lemma HeaderIsOneLine()
    ensures Occurrences('\n', CsvHeader) == 1
  {
    var titles := "日付,支払い者,金額,メモ";
    assert CsvHeader == titles + "\n";
    OneLineBreak(titles);
  }

  /** When no field holds a line break, the export has exactly one line per entry plus the header. */
  lemma CsvLineCount(memos: seq<Memo>)
    requires forall k :: 0 <= k < |memos| ==> '\n' !in memos[k].date && '\n' !in memos[k].payer && '\n' !in memos[k].text
    ensures Occurrences('\n', CsvHeader + CsvBody(memos)) == |memos| + 1
  {
    HeaderIsOneLine();
    BodyLineCount(memos);
    OccurrencesOfConcat('\n', CsvHeader, CsvBody(memos));
  }

  /** An exported line whose fields hold no line break ends with its only one. */
  lemma CsvLineIsOneLine(m: Memo)
    requires '\n' !in m.date && '\n' !in m.payer && '\n' !in m.text
    ensures Occurrences('\n', CsvLine(m)) == 1
  {
    assert '\n' !in CsvFields(m);
    OneLineBreak(CsvFields(m));
  }

  lemma {:induction false} BodyLineCount(memos: seq<Memo>)
    requires forall k :: 0 <= k < |memos| ==> '\n' !in memos[k].date && '\n' !in memos[k].payer && '\n' !in memos[k].text
    ensures Occurrences('\n', CsvBody(memos)) == |memos|
  {
    if memos != [] {
      var init, m := memos[..|memos| - 1], memos[|memos| - 1];
      assert forall k :: 0 <= k < |init| ==> init[k] == memos[k];
      BodyLineCount(init);
      CsvLineIsOneLine(m);
      OccurrencesOfConcat('\n', CsvBody(init), CsvLine(m));
    }
  }
}
