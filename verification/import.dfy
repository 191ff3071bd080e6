/**
 * The import run: each CSV data row, in file order, becomes a product that
 * is validated against the codes accepted so far, checked for eligibility
 * and then either explained in the report or handed to the insert.
 */
module Import {
  import opened PhpValues
  import opened Products

  /** The eligibility thresholds the run passes to every product. */
  const MinCost := 5
  const MaxCost := 1000
  const MinStock := 10

  /** The line of the first data row: the header is line 1. */
  const FirstDataLine := 2

  /** One parsed CSV row: the six raw fields in file order. */
  datatype Row = Row(code: string, name: string, description: string,
                     stock: string, cost: string, discontinued: string)

  /** What the report receives for a rejected row: its header line and its message block. */
  datatype ReportEntry = ReportEntry(lineNumber: int, header: string, messages: string)

  /** Where a row ends up: in the report, or as a record fit for insertion. */
  datatype Outcome = Rejected(entry: ReportEntry) | Accepted(record: InsertRecord)

  /** The run after some rows: the accepted codes and one outcome per row. */
  datatype RunState = RunState(validProducts: seq<string>, outcomes: seq<Outcome>)

  predicate Distinct(s: seq<string>) {
    forall i, j :: 0 <= i < j < |s| ==> s[i] != s[j]
  }

  predicate DistinctCodes(records: seq<InsertRecord>) {
    forall i, j :: 0 <= i < j < |records| ==> records[i].code != records[j].code
  }

  function Header(lineNumber: int): string {
    "Product at line " + Render(lineNumber) + " will not be inserted \n"
  }

  /** Whether a row passes the field checks against the codes accepted so far. */
  predicate PassesValidation(row: Row, validProducts: seq<string>) {
    ValidationErrors(row.code, IntCast(row.stock), IntCast(row.cost), validProducts) == []
  }

  /** The error list of a row's product once both checks have run. */
  function RowErrors(row: Row, validProducts: seq<string>): seq<ErrorEntry> {
    var stock := IntCast(row.stock);
    var cost := IntCast(row.cost);
    var checked := ValidationErrors(row.code, stock, cost, validProducts);
    if checked == [] then EligibilityErrors(cost, stock, MinCost, MaxCost, MinStock) else checked
  }

  /** The outcome of one row at the given line, `now` being its clock reading. */
  function RowOutcome(row: Row, validProducts: seq<string>, now: Timestamp, lineNumber: int): Outcome {
    var errors := RowErrors(row, validProducts);
    if errors != [] then
      Rejected(ReportEntry(lineNumber, Header(lineNumber), FormatEntries(errors)))
    else
      Accepted(InsertRecord(row.code, row.name, row.description,
                            IntCast(row.stock), IntCast(row.cost), now, now))
  }

  /** What one row contributes to the run: whether its code joins the accepted list, and where it ends up. */
  datatype RowResult = RowResult(validated: bool, outcome: Outcome)

  /** The handling of one row against the codes accepted before it. */
  function Step(row: Row, validProducts: seq<string>, now: Timestamp, lineNumber: int): RowResult {
    RowResult(PassesValidation(row, validProducts), RowOutcome(row, validProducts, now, lineNumber))
  }

  /** The run after one more row, given that row's handling. */
  function Extend(before: RunState, row: Row, result: RowResult): (r: RunState)
    ensures r.outcomes == before.outcomes + [result.outcome]
    ensures r.validProducts == before.validProducts + (if result.validated then [row.code] else [])
  {
    RunState(before.validProducts + (if result.validated then [row.code] else []),
             before.outcomes + [result.outcome])
  }

  /**
   * The run as a left fold of a row handler over the rows in file order,
   * with one clock reading per row: a code joins the accepted list when the
   * handler says its row passed validation.
   */
  function Fold(rows: seq<Row>, clock: seq<Timestamp>,
                step: (Row, seq<string>, Timestamp, int) -> RowResult): (r: RunState)
    requires |clock| == |rows|
    ensures |r.outcomes| == |rows|
    decreases 2 * |rows| + 1
  {
    if rows == [] then RunState([], [])
    else
      var n := |rows| - 1;
      Extend(Fold(rows[..n], clock[..n], step), rows[n], StepAt(rows, clock, step, n))
  }

  /** The handling of row `n`, against the codes accepted in the rows before it, at line `n + 2`. */
  function StepAt(rows: seq<Row>, clock: seq<Timestamp>,
                  step: (Row, seq<string>, Timestamp, int) -> RowResult, n: nat): RowResult
    requires |clock| == |rows| && n < |rows|
    decreases 2 * n + 2
  {
    step(rows[n], Fold(rows[..n], clock[..n], step).validProducts, clock[n], n + FirstDataLine)
  }

  /** The run of the import over its rows. */
  function Run(rows: seq<Row>, clock: seq<Timestamp>): (r: RunState)
    requires |clock| == |rows|
    ensures |r.outcomes| == |rows|
  {
    Fold(rows, clock, Step)
  }

  /**
   * What the run-level properties need of a row handler: a code is only
   * accepted when it is new, an accepted row was validated and keeps its
   * code, an already accepted code is turned down, and a rejection carries
   * its line number and a non-empty explanation.
   */
  ghost predicate Guards(step: (Row, seq<string>, Timestamp, int) -> RowResult) {
    forall row, vp, now, ln :: Handles(step(row, vp, now, ln), row, vp, ln)
  }

  predicate Handles(result: RowResult, row: Row, vp: seq<string>, ln: int) {
    && (result.validated ==> row.code !in vp)
    && (row.code in vp ==> result.outcome.Rejected?)
    && (result.outcome.Accepted? ==> result.validated && result.outcome.record.code == row.code)
    && (result.outcome.Rejected? ==> result.outcome.entry.lineNumber == ln && result.outcome.entry.messages != "")
  }

  function Reports(outcomes: seq<Outcome>): seq<ReportEntry> {
    if outcomes == [] then []
    else
      Reports(outcomes[..|outcomes| - 1]) +
      match outcomes[|outcomes| - 1]
      case Rejected(e) => [e]
      case Accepted(_) => []
  }

  function Inserts(outcomes: seq<Outcome>): seq<InsertRecord> {
    if outcomes == [] then []
    else
      Inserts(outcomes[..|outcomes| - 1]) +
      match outcomes[|outcomes| - 1]
      case Rejected(_) => []
      case Accepted(r) => [r]
  }

  /** Handling a row depends only on the rows up to it. */
  lemma StepAtPrefix(rows: seq<Row>, clock: seq<Timestamp>,
                     step: (Row, seq<string>, Timestamp, int) -> RowResult, k: nat, n: nat)
    requires |clock| == |rows| && k < n <= |rows|
    ensures StepAt(rows[..n], clock[..n], step, k) == StepAt(rows, clock, step, k)
  {
    assert rows[..n][..k] == rows[..k] && clock[..n][..k] == clock[..k];
  }

  /** One more row extends the run by that row's handling. */
  lemma FoldStep(rows: seq<Row>, clock: seq<Timestamp>,
                 step: (Row, seq<string>, Timestamp, int) -> RowResult, i: nat)
    requires |clock| == |rows| && i < |rows|
    ensures Fold(rows[..i + 1], clock[..i + 1], step) ==
      Extend(Fold(rows[..i], clock[..i], step), rows[i], StepAt(rows, clock, step, i))
  {
    assert rows[..i + 1][..i] == rows[..i] && clock[..i + 1][..i] == clock[..i];
    StepAtPrefix(rows, clock, step, i, i + 1);
  }

  lemma ReportsStep(outcomes: seq<Outcome>, outcome: Outcome)
    ensures Reports(outcomes + [outcome]) == Reports(outcomes) + if outcome.Rejected? then [outcome.entry] else []
  {
    assert (outcomes + [outcome])[..|outcomes|] == outcomes;
  }

  lemma InsertsStep(outcomes: seq<Outcome>, outcome: Outcome)
    ensures Inserts(outcomes + [outcome]) == Inserts(outcomes) + if outcome.Accepted? then [outcome.record] else []
  {
    assert (outcomes + [outcome])[..|outcomes|] == outcomes;
  }

  /** A row is rejected exactly when a field check or an eligibility rule fails. */
  lemma RowRejectedIff(row: Row, validProducts: seq<string>, now: Timestamp, lineNumber: int)
    ensures RowOutcome(row, validProducts, now, lineNumber).Rejected? <==>
      || row.code in validProducts
      || IntCast(row.cost) < 0
      || (IntCast(row.cost) < MinCost && IntCast(row.stock) < MinStock)
      || IntCast(row.cost) > MaxCost
  {
  }

  /** The import's row handling has every property the run-level lemmas rely on. */
  lemma StepGuards()
    ensures Guards(Step)
  {
    forall row, vp, now, ln ensures Handles(Step(row, vp, now, ln), row, vp, ln) {
      var errors := RowErrors(row, vp);
      if errors != [] {
        SpeakingErrorsGiveText(errors);
      }
    }
  }

  /** The outcome of row `j` is decided by the codes accepted in the rows before it. */
  lemma {:induction false} OutcomeAt(rows: seq<Row>, clock: seq<Timestamp>,
                                     step: (Row, seq<string>, Timestamp, int) -> RowResult, j: nat)
    requires |clock| == |rows| && j < |rows|
    ensures Fold(rows, clock, step).outcomes[j] == StepAt(rows, clock, step, j).outcome
  {
    var n := |rows| - 1;
    if j < n {
      OutcomeAt(rows[..n], clock[..n], step, j);
      StepAtPrefix(rows, clock, step, j, n);
    }
  }

  /**
   * Row `j` of the run is the row handled on its own: against the codes
   * accepted in the rows before it, with its own clock reading, at line
   * `j + 2`.
   */
  lemma RowOutcomeInRun(rows: seq<Row>, clock: seq<Timestamp>, j: nat)
    requires |clock| == |rows| && j < |rows|
    ensures Run(rows, clock).outcomes[j] ==
      RowOutcome(rows[j], Run(rows[..j], clock[..j]).validProducts, clock[j], j + FirstDataLine)
    ensures Run(rows, clock).outcomes[j].Rejected? ==>
      Run(rows, clock).outcomes[j].entry.lineNumber == j + FirstDataLine &&
      Run(rows, clock).outcomes[j].entry.header == Header(j + FirstDataLine)
  {
    OutcomeAt(rows, clock, Step, j);
  }

  /** The accepted codes only grow: those of a prefix of the rows come first. */
  lemma {:induction false} ValidProductsGrow(rows: seq<Row>, clock: seq<Timestamp>,
                                             step: (Row, seq<string>, Timestamp, int) -> RowResult, k: nat)
    requires |clock| == |rows| && k <= |rows|
    ensures Fold(rows[..k], clock[..k], step).validProducts <= Fold(rows, clock, step).validProducts
    decreases |rows|
  {
    if k < |rows| {
      var n := |rows| - 1;
      ValidProductsGrow(rows[..n], clock[..n], step, k);
      assert rows[..n][..k] == rows[..k] && clock[..n][..k] == clock[..k];
    } else {
      assert rows[..k] == rows && clock[..k] == clock;
    }
  }

  /** The accepted codes are pairwise distinct: a duplicate is only ever found against an earlier row. */
  lemma {:induction false} ValidProductsDistinct(rows: seq<Row>, clock: seq<Timestamp>,
                                                 step: (Row, seq<string>, Timestamp, int) -> RowResult)
    requires |clock| == |rows| && Guards(step)
    ensures Distinct(Fold(rows, clock, step).validProducts)
  {
    if rows != [] {
      var n := |rows| - 1;
      ValidProductsDistinct(rows[..n], clock[..n], step);
      var before := Fold(rows[..n], clock[..n], step);
      assert Handles(StepAt(rows, clock, step, n), rows[n], before.validProducts, n + FirstDataLine);
    }
  }

  /**
   * A row whose handling validated it blocks every later row with its code,
   * even when it was itself turned down by an eligibility rule.
   */
  lemma ValidatedCodeBlocksLater(rows: seq<Row>, clock: seq<Timestamp>,
                                 step: (Row, seq<string>, Timestamp, int) -> RowResult, i: nat, j: nat)
    requires |clock| == |rows| && i < j < |rows| && Guards(step)
    requires StepAt(rows, clock, step, i).validated
    requires rows[j].code == rows[i].code
    ensures Fold(rows, clock, step).outcomes[j].Rejected?
  {
    FoldStep(rows, clock, step, i);
    var upto := Fold(rows[..i + 1], clock[..i + 1], step).validProducts;
    assert rows[i].code in upto;
    var prefix, pclock := rows[..j], clock[..j];
    ValidProductsGrow(prefix, pclock, step, i + 1);
    assert prefix[..i + 1] == rows[..i + 1] && pclock[..i + 1] == clock[..i + 1];
    var before := Fold(prefix, pclock, step).validProducts;
    assert upto <= before;
    assert rows[j].code in before;
    OutcomeAt(rows, clock, step, j);
    assert Handles(StepAt(rows, clock, step, j), rows[j], before, j + FirstDataLine);
  }

  /** The import's instance: a row that passed the field checks blocks later rows with its code. */
  lemma DuplicateOfValidatedRowIsRejected(rows: seq<Row>, clock: seq<Timestamp>, i: nat, j: nat)
    requires |clock| == |rows| && i < j < |rows|
    requires PassesValidation(rows[i], Run(rows[..i], clock[..i]).validProducts)
    requires rows[j].code == rows[i].code
    ensures Run(rows, clock).outcomes[j].Rejected?
  {
    StepGuards();
    ValidatedCodeBlocksLater(rows, clock, Step, i, j);
  }

  /** Every inserted record's code was accepted, and no two share one. */
  lemma {:induction false} InsertedCodesDistinct(rows: seq<Row>, clock: seq<Timestamp>,
                                                 step: (Row, seq<string>, Timestamp, int) -> RowResult)
    requires |clock| == |rows| && Guards(step)
    ensures DistinctCodes(Inserts(Fold(rows, clock, step).outcomes))
    ensures forall r :: r in Inserts(Fold(rows, clock, step).outcomes) ==> r.code in Fold(rows, clock, step).validProducts
  {
    if rows != [] {
      var n := |rows| - 1;
      var before := Fold(rows[..n], clock[..n], step);
      InsertedCodesDistinct(rows[..n], clock[..n], step);
      var os := Fold(rows, clock, step).outcomes;
      assert os[..n] == before.outcomes;
      assert Handles(StepAt(rows, clock, step, n), rows[n], before.validProducts, n + FirstDataLine);
    }
  }

  /**
   * The report lists the rejected rows in file order, each with its line
   * number (data row index plus 2) and a non-empty message block.
   */
  lemma {:induction false} ReportEntriesInOrder(rows: seq<Row>, clock: seq<Timestamp>,
                                                step: (Row, seq<string>, Timestamp, int) -> RowResult)
    requires |clock| == |rows| && Guards(step)
    ensures forall k :: 0 <= k < |Reports(Fold(rows, clock, step).outcomes)| ==>
      FirstDataLine <= Reports(Fold(rows, clock, step).outcomes)[k].lineNumber < |rows| + FirstDataLine &&
      Reports(Fold(rows, clock, step).outcomes)[k].messages != ""
    ensures forall k :: 0 < k < |Reports(Fold(rows, clock, step).outcomes)| ==>
      Reports(Fold(rows, clock, step).outcomes)[k - 1].lineNumber < Reports(Fold(rows, clock, step).outcomes)[k].lineNumber
  {
    if rows != [] {
      var n := |rows| - 1;
      var before := Fold(rows[..n], clock[..n], step);
      ReportEntriesInOrder(rows[..n], clock[..n], step);
      var os := Fold(rows, clock, step).outcomes;
      assert os[..n] == before.outcomes;
      assert Handles(StepAt(rows, clock, step, n), rows[n], before.validProducts, n + FirstDataLine);
    }
  }

  /** Every row lands in exactly one of the report and the insert records. */
  lemma {:induction false} EachRowOnce(outcomes: seq<Outcome>)
    ensures |Reports(outcomes)| + |Inserts(outcomes)| == |outcomes|
  {
    if outcomes != [] {
      EachRowOnce(outcomes[..|outcomes| - 1]);
    }
  }

  /**
   * What the run hands on: no two insert records share a code, each row is
   * in exactly one of the report and the records, and the report lists its
   * rows in line order, each with a line number in range and a non-empty
   * explanation.
   */
  lemma RunReport(rows: seq<Row>, clock: seq<Timestamp>)
    requires |clock| == |rows|
    ensures DistinctCodes(Inserts(Run(rows, clock).outcomes))
    ensures |Reports(Run(rows, clock).outcomes)| + |Inserts(Run(rows, clock).outcomes)| == |rows|
    ensures forall k :: 0 <= k < |Reports(Run(rows, clock).outcomes)| ==>
      FirstDataLine <= Reports(Run(rows, clock).outcomes)[k].lineNumber < |rows| + FirstDataLine &&
      Reports(Run(rows, clock).outcomes)[k].messages != ""
    ensures forall k :: 0 < k < |Reports(Run(rows, clock).outcomes)| ==>
      Reports(Run(rows, clock).outcomes)[k - 1].lineNumber < Reports(Run(rows, clock).outcomes)[k].lineNumber
  {
    StepGuards();
    InsertedCodesDistinct(rows, clock, Step);
    ReportEntriesInOrder(rows, clock, Step);
    EachRowOnce(Run(rows, clock).outcomes);
  }

  /**
   * The body of the row loop up to the routing: a product for the row,
   * validated against the accepted codes, checked against the thresholds,
   * then its messages or its insert record.
   */
  method ImportRow(line: Row, now: Timestamp, validProducts: seq<string>, lineNumber: int)
    returns (validated: bool, outcome: Outcome)
    ensures RowResult(validated, outcome) == Step(line, validProducts, now, lineNumber)
  {
    var product := new Product(line.code, line.name, line.description,
                               line.stock, line.cost, line.discontinued, now);
    validated := product.ValidateProduct(validProducts);
    var eligible := product.ToBeInserted(MinCost, MaxCost, MinStock);
    var valid := product.IsValid();
    assert product.importErrors == RowErrors(line, validProducts);
    if !valid {
      var messages := product.GetMessages();
      assert messages == FormatEntries(product.importErrors);
      outcome := Rejected(ReportEntry(lineNumber, Header(lineNumber), messages));
    } else {
      outcome := Accepted(product.ToArray());
    }
  }

  /** The loop's variables hold the accepted codes, the report and the records of `state`. */
  predicate Tracks(state: RunState, hasInsertQuery: bool,
                   validProducts: seq<string>, report: seq<ReportEntry>, inserted: seq<InsertRecord>) {
    && validProducts == state.validProducts
    && report == Reports(state.outcomes)
    && inserted == if hasInsertQuery then Inserts(state.outcomes) else []
  }

  /**
   * One pass of the row loop: the row's product, then its code pushed onto
   * the accepted list when it validated, and the row sent to the report
   * when it is not valid, or to the insert when a statement was prepared.
   * The variables go from tracking the run over the first `i` rows to
   * tracking the run over the first `i + 1`.
   */
  method HandleRow(rows: seq<Row>, clock: seq<Timestamp>, hasInsertQuery: bool, i: nat, ghost before: RunState,
                   validProducts: seq<string>, report: seq<ReportEntry>, inserted: seq<InsertRecord>)
    returns (validProducts': seq<string>, report': seq<ReportEntry>, inserted': seq<InsertRecord>, ghost after: RunState)
    requires |clock| == |rows| && i < |rows|
    requires before == Fold(rows[..i], clock[..i], Step)
    requires Tracks(before, hasInsertQuery, validProducts, report, inserted)
    ensures after == Fold(rows[..i + 1], clock[..i + 1], Step)
    ensures validProducts' == after.validProducts
    ensures report' == Reports(after.outcomes)
    ensures inserted' == if hasInsertQuery then Inserts(after.outcomes) else []
  {
    var line := rows[i];
    var validated, outcome := ImportRow(line, clock[i], validProducts, i + FirstDataLine);
    assert StepAt(rows, clock, Step, i) == RowResult(validated, outcome);
    validProducts', report', inserted' := validProducts, report, inserted;
    if validated {
      validProducts' := validProducts + [line.code];
    }
    match outcome {
      case Rejected(entry) =>
        report' := report + [entry];
      case Accepted(record) =>
        if hasInsertQuery {
          inserted' := inserted + [record];
        }
    }
    FoldStep(rows, clock, Step, i);
    after := Extend(before, line, RowResult(validated, outcome));
    ReportsStep(before.outcomes, outcome);
    InsertsStep(before.outcomes, outcome);
  }

  /**
   * The row loop: each row's code joins the accepted list when it
   * validates, then the row goes to the report when it is not valid, or to
   * the insert when a statement was prepared (`hasInsertQuery`). `clock`
   * gives each row's construction time. What the report and the records
   * then satisfy is `RunReport`.
   */
  method ImportRows(rows: seq<Row>, clock: seq<Timestamp>, hasInsertQuery: bool)
    returns (report: seq<ReportEntry>, inserted: seq<InsertRecord>)
    requires |clock| == |rows|
    ensures report == Reports(Run(rows, clock).outcomes)
    ensures inserted == if hasInsertQuery then Inserts(Run(rows, clock).outcomes) else []
  {
    var validProducts: seq<string> := [];
    report, inserted := [], [];
    ghost var state := RunState([], []);
    var i := 0;
    while i < |rows|
      invariant 0 <= i <= |rows|
      invariant state == Fold(rows[..i], clock[..i], Step)
      invariant Tracks(state, hasInsertQuery, validProducts, report, inserted)
    {
      validProducts, report, inserted, state := HandleRow(rows, clock, hasInsertQuery, i, state, validProducts, report, inserted);
      i := i + 1;
    }
    assert rows[..i] == rows && clock[..i] == clock;
  }
}
