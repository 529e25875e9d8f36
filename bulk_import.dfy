/** Bulk import of expense records from an uploaded CSV file (`handleBulkExpenseRecord` in
    src/controllers/expenseRecordController.ts). The CSV parser is modelled by the rows it
    delivers; `M/d/yyyy` date parsing, id generation and the clock are parameters; the
    database's verdict on the batch is the flag `insertOk`.

    As written, a row whose category or sub-category name does not exist hands an error to
    `next` (so the client receives a 400) but the stream goes on, and the rows that passed are
    still inserted when the file ends. `ImportAsWritten` models that; `Import` is the
    all-or-nothing behaviour the handler evidently means, since it answers 400 for the whole
    file. */
module BulkImport {
  import opened Common
  import opened Calendar
  import opened Records
  import opened Amounts

  /** A CSV row keyed by the header line, each value trimmed by the parser. */
  datatype CsvRow = CsvRow(
    expenseDate: string,
    amount: string,
    currency: string,
    reason: string,
    category: string,
    subCategory: string)

  /** What the parser delivers: all the rows and then the end of the file, or the rows it
      delivered before it failed. */
  datatype CsvInput = Rows(rows: seq<CsvRow>) | ParseError(before: seq<CsvRow>)

  /** An entry of the batch. `expenseDate` is the time value of the parsed date at local noon
      (None for an Invalid Date); `amount` is `parseFloat(row.amount).toString()` (None when the
      number is outside the model of decimal spellings). */
  datatype NewExpense = NewExpense(
    id: string,
    expenseDate: Option<int>,
    amount: Option<string>,
    currency: string,
    reason: string,
    category: string,
    subCategory: string,
    createdAt: int)

  /** A response body: the success report, `{message}` from the error middleware, or
      `{error}` from the stream handlers. */
  datatype Body =
    | Uploaded(message: string, data: seq<NewExpense>, count: nat)
    | ErrorMessage(message: string)
    | ErrorField(error: string)

  datatype Response = Response(status: int, body: Body)

  /** The outcome of one upload: the first response sent, the entries that reached the table,
      and whether the uploaded file was removed. */
  datatype Outcome = Outcome(response: Response, inserted: seq<NewExpense>, fileRemoved: bool)

  const UploadedMessage: string := "Expense records uploaded successfully"

  // ---------------------------------------------------------------------------------------
  // Rows

  /** Both of the row's names are names of existing categories and sub-categories. */
  predicate Accepted(row: CsvRow, categoryNames: seq<string>, subCategoryNames: seq<string>) {
    row.category in categoryNames && row.subCategory in subCategoryNames
  }

  /** The error a row is turned away with: the category is checked first. */
  function Rejection(row: CsvRow, categoryNames: seq<string>, subCategoryNames: seq<string>): (m: Option<string>)
    ensures m.None? <==> Accepted(row, categoryNames, subCategoryNames)
    ensures row.category !in categoryNames ==> m == Some("Expense record with category " + row.category + " was not found")
  {
    if row.category !in categoryNames then
      Some("Expense record with category " + row.category + " was not found")
    else if row.subCategory !in subCategoryNames then
      Some("Expense record with sub-category " + row.subCategory + " was not found")
    else None
  }

  /** The rows that pass both checks, in file order. */
  function AcceptedRows(rows: seq<CsvRow>, categoryNames: seq<string>, subCategoryNames: seq<string>): (r: seq<CsvRow>)
    ensures |r| <= |rows|
    ensures forall x :: x in r <==> x in rows && Accepted(x, categoryNames, subCategoryNames)
  {
    if rows == [] then []
    else
      (if Accepted(rows[0], categoryNames, subCategoryNames) then [rows[0]] else [])
      + AcceptedRows(rows[1..], categoryNames, subCategoryNames)
  }

  /** The first error any row is turned away with. */
  function FirstRejection(rows: seq<CsvRow>, categoryNames: seq<string>, subCategoryNames: seq<string>): (m: Option<string>)
    ensures m.None? <==> forall x :: x in rows ==> Accepted(x, categoryNames, subCategoryNames)
  {
    if rows == [] then None
    else if !Accepted(rows[0], categoryNames, subCategoryNames) then
      Rejection(rows[0], categoryNames, subCategoryNames)
    else FirstRejection(rows[1..], categoryNames, subCategoryNames)
  }

  /** `parseDateFns(s, "M/d/yyyy", new Date())` followed by `setHours(12, 0, 0, 0)`. */
  function NoonOf(d: Option<CivilDate>, tz: TzOffset): Option<int> {
    match d
    case None => None
    case Some(c) => LocalInstant(c, 12, 0, 0, 0, tz)
  }

  /** The entry `results.push` builds for an accepted row. */
  function Entry(row: CsvRow, id: string, parseMdy: string -> Option<CivilDate>, tz: TzOffset, now: int): NewExpense {
    NewExpense(id, NoonOf(parseMdy(row.expenseDate), tz), AmountText(row.amount),
               row.currency, row.reason, row.category, row.subCategory, now)
  }

  /** The entries of a sequence of accepted rows; the k-th gets the k-th generated id. */
  function Entries(accepted: seq<CsvRow>, ids: nat -> string, parseMdy: string -> Option<CivilDate>,
                   tz: TzOffset, now: int): seq<NewExpense>
  {
    seq(|accepted|, k requires 0 <= k < |accepted| => Entry(accepted[k], ids(k), parseMdy, tz, now))
  }

  /** The batch the rows of a file give. */
  function Batch(rows: seq<CsvRow>, categoryNames: seq<string>, subCategoryNames: seq<string>,
                 ids: nat -> string, parseMdy: string -> Option<CivilDate>, tz: TzOffset, now: int): seq<NewExpense>
  {
    Entries(AcceptedRows(rows, categoryNames, subCategoryNames), ids, parseMdy, tz, now)
  }

  /** The single insert of the batch succeeds: drizzle refuses an empty list of values, an
      Invalid Date fails in `toISOString`, and otherwise the database decides. */
  predicate InsertSucceeds(batch: seq<NewExpense>, insertOk: bool) {
    batch != [] && (forall e :: e in batch ==> e.expenseDate.Some?) && insertOk
  }

  // ---------------------------------------------------------------------------------------
  // The handler

  /** The handler as written. Without a file it answers 400 before anything else. A parse
      error removes the file and answers 500. At the end of the file the batch is inserted,
      the file removed, and 200 or 500 sent; but a rejected row has already sent a 400, which
      is the response the client sees, while the insert still happens. */
  function ImportAsWritten(file: Option<CsvInput>, categoryNames: seq<string>, subCategoryNames: seq<string>,
                           ids: nat -> string, parseMdy: string -> Option<CivilDate>, tz: TzOffset,
                           now: int, insertOk: bool): (r: Outcome)
    ensures r.fileRemoved <==> file.Some?
    ensures file.None? ==> r.response == Response(400, ErrorMessage("CSV file is required.")) && r.inserted == []
    ensures r.inserted != [] ==>
      file.Some? && file.value.Rows?
      && r.inserted == Batch(file.value.rows, categoryNames, subCategoryNames, ids, parseMdy, tz, now)
    ensures r.response.status == 200 ==>
      r.response.body.Uploaded? && r.response.body.data == r.inserted
      && r.response.body.count == |r.inserted| && r.inserted != []
  {
    match file
    case None => Outcome(Response(400, ErrorMessage("CSV file is required.")), [], false)
    case Some(ParseError(before)) =>
      var first := FirstRejection(before, categoryNames, subCategoryNames);
      var response :=
        if first.Some? then Response(400, ErrorMessage(first.value))
        else Response(500, ErrorField("Failed to parse CSV."));
      Outcome(response, [], true)
    case Some(Rows(rows)) =>
      var batch := Batch(rows, categoryNames, subCategoryNames, ids, parseMdy, tz, now);
      var ok := InsertSucceeds(batch, insertOk);
      var first := FirstRejection(rows, categoryNames, subCategoryNames);
      var response :=
        if first.Some? then Response(400, ErrorMessage(first.value))
        else if ok then Response(200, Uploaded(UploadedMessage, batch, |batch|))
        else Response(500, ErrorField("Failed to insert expenses."));
      Outcome(response, if ok then batch else [], true)
  }

  /** The intended handler: rows are checked before anything is inserted, and one rejected
      row rejects the whole file. */
  function Import(file: Option<CsvInput>, categoryNames: seq<string>, subCategoryNames: seq<string>,
                  ids: nat -> string, parseMdy: string -> Option<CivilDate>, tz: TzOffset,
                  now: int, insertOk: bool): (r: Outcome)
    ensures r.fileRemoved <==> file.Some?
    ensures r.inserted != [] ==> r.response.status == 200
    ensures r.response.status == 200 ==>
      r.response.body.Uploaded? && r.response.body.data == r.inserted
      && r.response.body.count == |r.inserted| && r.inserted != []
  {
    match file
    case None => Outcome(Response(400, ErrorMessage("CSV file is required.")), [], false)
    case Some(ParseError(_)) => Outcome(Response(500, ErrorField("Failed to parse CSV.")), [], true)
    case Some(Rows(rows)) =>
      var first := FirstRejection(rows, categoryNames, subCategoryNames);
      var batch := Batch(rows, categoryNames, subCategoryNames, ids, parseMdy, tz, now);
      if first.Some? then Outcome(Response(400, ErrorMessage(first.value)), [], true)
      else if InsertSucceeds(batch, insertOk) then
        Outcome(Response(200, Uploaded(UploadedMessage, batch, |batch|)), batch, true)
      else Outcome(Response(500, ErrorField("Failed to insert expenses.")), [], true)
  }

  /** The `data` callback over every delivered row: accepted rows are pushed onto `results`,
      and the first rejection is the error that reaches the client. */
  method ReadRows(rows: seq<CsvRow>, categoryNames: seq<string>, subCategoryNames: seq<string>,
                  ids: nat -> string, parseMdy: string -> Option<CivilDate>, tz: TzOffset, now: int)
    returns (results: seq<NewExpense>, first: Option<string>)
    ensures results == Batch(rows, categoryNames, subCategoryNames, ids, parseMdy, tz, now)
    ensures first == FirstRejection(rows, categoryNames, subCategoryNames)
  {
    results := [];
    first := None;
    ghost var accepted: seq<CsvRow> := [];
    var i := 0;
    while i < |rows|
      invariant 0 <= i <= |rows|
      invariant accepted == AcceptedRows(rows[..i], categoryNames, subCategoryNames)
      invariant results == Entries(accepted, ids, parseMdy, tz, now)
      invariant first == FirstRejection(rows[..i], categoryNames, subCategoryNames)
    {
      var row := rows[i];
      RowStep(rows, i, categoryNames, subCategoryNames);
      var rejection := Rejection(row, categoryNames, subCategoryNames);
      if rejection.Some? {
        if first.None? {
          first := rejection;
        }
      } else {
        var id := ids(|results|);
        EntriesPush(accepted, row, ids, parseMdy, tz, now);
        results := results + [Entry(row, id, parseMdy, tz, now)];
        accepted := accepted + [row];
      }
      i := i + 1;
    }
    assert rows[..|rows|] == rows;
  }

  /** Reading one more row: it joins the accepted rows when it passes, and its error becomes
      the first one when there was none. */
  lemma RowStep(rows: seq<CsvRow>, i: int, categoryNames: seq<string>, subCategoryNames: seq<string>)
    requires 0 <= i < |rows|
    ensures AcceptedRows(rows[..i + 1], categoryNames, subCategoryNames)
         == AcceptedRows(rows[..i], categoryNames, subCategoryNames)
            + (if Rejection(rows[i], categoryNames, subCategoryNames).None? then [rows[i]] else [])
    ensures FirstRejection(rows[..i + 1], categoryNames, subCategoryNames)
         == if FirstRejection(rows[..i], categoryNames, subCategoryNames).Some?
            then FirstRejection(rows[..i], categoryNames, subCategoryNames)
            else Rejection(rows[i], categoryNames, subCategoryNames)
  {
    assert rows[..i + 1] == rows[..i] + [rows[i]];
    AcceptedRowsAppend(rows[..i], [rows[i]], categoryNames, subCategoryNames);
    FirstRejectionAppend(rows[..i], rows[i], categoryNames, subCategoryNames);
    assert [rows[i]][1..] == [];
  }

  /** `handleBulkExpenseRecord`, with the stream replayed in order. */
  method HandleBulkExpenseRecord(file: Option<CsvInput>, categoryNames: seq<string>, subCategoryNames: seq<string>,
                                 ids: nat -> string, parseMdy: string -> Option<CivilDate>, tz: TzOffset,
                                 now: int, insertOk: bool)
    returns (r: Outcome)
    ensures r == ImportAsWritten(file, categoryNames, subCategoryNames, ids, parseMdy, tz, now, insertOk)
  {
    if file.None? {
      return Outcome(Response(400, ErrorMessage("CSV file is required.")), [], false);
    }
    match file.value
    case ParseError(before) =>
      var _, first := ReadRows(before, categoryNames, subCategoryNames, ids, parseMdy, tz, now);
      if first.Some? {
        r := Outcome(Response(400, ErrorMessage(first.value)), [], true);
      } else {
        r := Outcome(Response(500, ErrorField("Failed to parse CSV.")), [], true);
      }
    case Rows(rows) =>
      var results, first := ReadRows(rows, categoryNames, subCategoryNames, ids, parseMdy, tz, now);
      var inserted: seq<NewExpense> := [];
      var response: Response;
      var ok := results != [] && (forall e | e in results :: e.expenseDate.Some?) && insertOk;
      assert ok == InsertSucceeds(results, insertOk);
      if ok {
        inserted := results;
        response := Response(200, Uploaded(UploadedMessage, results, |results|));
      } else {
        response := Response(500, ErrorField("Failed to insert expenses."));
      }
      if first.Some? {
        response := Response(400, ErrorMessage(first.value));
      }
      r := Outcome(response, inserted, true);
  }

  // ---------------------------------------------------------------------------------------
  // Lemmas

  lemma {:induction false} AcceptedRowsAppend(a: seq<CsvRow>, b: seq<CsvRow>, categoryNames: seq<string>, subCategoryNames: seq<string>)
    ensures AcceptedRows(a + b, categoryNames, subCategoryNames)
         == AcceptedRows(a, categoryNames, subCategoryNames) + AcceptedRows(b, categoryNames, subCategoryNames)
  {
    if a == [] {
      assert a + b == b;
    } else {
      assert (a + b)[0] == a[0];
      assert (a + b)[1..] == a[1..] + b;
      AcceptedRowsAppend(a[1..], b, categoryNames, subCategoryNames);
    }
  }

  lemma {:induction false} FirstRejectionAppend(a: seq<CsvRow>, x: CsvRow, categoryNames: seq<string>, subCategoryNames: seq<string>)
    ensures FirstRejection(a + [x], categoryNames, subCategoryNames)
         == if FirstRejection(a, categoryNames, subCategoryNames).Some?
            then FirstRejection(a, categoryNames, subCategoryNames)
            else Rejection(x, categoryNames, subCategoryNames)
  {
    if a == [] {
      assert [x][1..] == [];
    } else {
      assert (a + [x])[0] == a[0];
      assert (a + [x])[1..] == a[1..] + [x];
      FirstRejectionAppend(a[1..], x, categoryNames, subCategoryNames);
    }
  }

  lemma EntriesPush(accepted: seq<CsvRow>, row: CsvRow, ids: nat -> string, parseMdy: string -> Option<CivilDate>,
                    tz: TzOffset, now: int)
    ensures Entries(accepted + [row], ids, parseMdy, tz, now)
         == Entries(accepted, ids, parseMdy, tz, now) + [Entry(row, ids(|accepted|), parseMdy, tz, now)]
  {
    var l := Entries(accepted + [row], ids, parseMdy, tz, now);
    var r := Entries(accepted, ids, parseMdy, tz, now) + [Entry(row, ids(|accepted|), parseMdy, tz, now)];
    assert |l| == |r|;
    forall k | 0 <= k < |l|
      ensures l[k] == r[k]
    {
      assert l[k] == Entry((accepted + [row])[k], ids(k), parseMdy, tz, now);
      if k < |accepted| {
        assert (accepted + [row])[k] == accepted[k];
        assert r[k] == Entries(accepted, ids, parseMdy, tz, now)[k];
      } else {
        assert (accepted + [row])[k] == row;
      }
    }
  }

  /** The batch keeps file order: the batch of two files read one after the other is the
      first file's batch followed by the second's, whose ids continue the count. */
  lemma BatchOrder(a: seq<CsvRow>, b: seq<CsvRow>, categoryNames: seq<string>, subCategoryNames: seq<string>,
                   ids: nat -> string, parseMdy: string -> Option<CivilDate>, tz: TzOffset, now: int)
    ensures var n: nat := |AcceptedRows(a, categoryNames, subCategoryNames)|;
      Batch(a + b, categoryNames, subCategoryNames, ids, parseMdy, tz, now)
      == Batch(a, categoryNames, subCategoryNames, ids, parseMdy, tz, now)
         + Batch(b, categoryNames, subCategoryNames, (k: nat) => ids(n + k), parseMdy, tz, now)
  {
    AcceptedRowsAppend(a, b, categoryNames, subCategoryNames);
    EntriesAppend(AcceptedRows(a, categoryNames, subCategoryNames), AcceptedRows(b, categoryNames, subCategoryNames),
                  ids, parseMdy, tz, now);
  }

  lemma EntriesAppend(a: seq<CsvRow>, b: seq<CsvRow>, ids: nat -> string, parseMdy: string -> Option<CivilDate>,
                      tz: TzOffset, now: int)
    ensures var n: nat := |a|;
      Entries(a + b, ids, parseMdy, tz, now)
      == Entries(a, ids, parseMdy, tz, now) + Entries(b, (k: nat) => ids(n + k), parseMdy, tz, now)
  {
    var n: nat := |a|;
    var l := Entries(a + b, ids, parseMdy, tz, now);
    var r := Entries(a, ids, parseMdy, tz, now) + Entries(b, (k: nat) => ids(n + k), parseMdy, tz, now);
    assert |l| == |r|;
    forall k | 0 <= k < |l|
      ensures l[k] == r[k]
    {
      if k < n {
        assert (a + b)[k] == a[k];
      } else {
        assert (a + b)[k] == b[k - n];
      }
    }
  }

  /** Each entry of the batch comes from an accepted row of the file: its names, currency and
      reason verbatim, the amount re-serialised from the parsed number, the date parsed at
      local noon, the clock's time as `createdAt`, and the k-th generated id. */
  lemma BatchEntries(rows: seq<CsvRow>, categoryNames: seq<string>, subCategoryNames: seq<string>,
                     ids: nat -> string, parseMdy: string -> Option<CivilDate>, tz: TzOffset, now: int, k: int)
    requires 0 <= k < |Batch(rows, categoryNames, subCategoryNames, ids, parseMdy, tz, now)|
    ensures var e := Batch(rows, categoryNames, subCategoryNames, ids, parseMdy, tz, now)[k];
      exists row :: row in rows && Accepted(row, categoryNames, subCategoryNames)
        && e.category == row.category && e.subCategory == row.subCategory
        && e.currency == row.currency && e.reason == row.reason
        && e.amount == AmountText(row.amount)
        && e.expenseDate == NoonOf(parseMdy(row.expenseDate), tz)
        && e.createdAt == now && e.id == ids(k)
  {
    var accepted := AcceptedRows(rows, categoryNames, subCategoryNames);
    var row := accepted[k];
    assert row in accepted;
    assert Batch(rows, categoryNames, subCategoryNames, ids, parseMdy, tz, now)[k]
        == Entry(row, ids(k), parseMdy, tz, now);
  }

  /** The date stored for a row is the date parsed from it: local noon falls on the same UTC
      date in every zone from UTC-11:59 to UTC+12:00. */
  lemma NoonKeepsTheDate(d: CivilDate, tz: TzOffset)
    requires -12 * HourMs < tz <= 12 * HourMs
    requires -99_999_999 <= DayNumber(d) <= 99_999_999
    ensures NoonOf(Some(d), tz).Some?
    ensures UtcDay(NoonOf(Some(d), tz).value) == DayNumber(d)
  {
    UtcDayOf(DayNumber(d), 12 * HourMs - tz);
  }

  /** As written, a file with a rejected row still has its accepted rows inserted, while the
      client is told the upload failed. */
  lemma AsWrittenPartialInsert(rows: seq<CsvRow>, categoryNames: seq<string>, subCategoryNames: seq<string>,
                               ids: nat -> string, parseMdy: string -> Option<CivilDate>, tz: TzOffset, now: int)
    requires exists x :: x in rows && !Accepted(x, categoryNames, subCategoryNames)
    requires InsertSucceeds(Batch(rows, categoryNames, subCategoryNames, ids, parseMdy, tz, now), true)
    ensures var r := ImportAsWritten(Some(Rows(rows)), categoryNames, subCategoryNames, ids, parseMdy, tz, now, true);
      r.response.status == 400 && r.inserted != []
      && r.inserted == Batch(rows, categoryNames, subCategoryNames, ids, parseMdy, tz, now)
  {
  }

  /** A two-row file whose first row names an unknown category, with any amount and any date
      within the range of time values: as written the second row is inserted and the response is a 400; the
      intended handler gives the same 400 and inserts nothing. */
  lemma PartialInsertExample(date: string, amount: string, d: CivilDate, tz: TzOffset)
    requires -12 * HourMs < tz <= 12 * HourMs
    requires -99_999_999 <= DayNumber(d) <= 99_999_999
    ensures var bad := CsvRow(date, amount, "USD", "", "Travel", "Lunch");
      var good := CsvRow(date, amount, "USD", "", "Food", "Lunch");
      var parse := (s: string) => Some(d);
      var asWritten := ImportAsWritten(Some(Rows([bad, good])), ["Food"], ["Lunch"], k => "id", parse, tz, 0, true);
      var intended := Import(Some(Rows([bad, good])), ["Food"], ["Lunch"], k => "id", parse, tz, 0, true);
      asWritten.response == Response(400, ErrorMessage("Expense record with category " + "Travel" + " was not found"))
      && |asWritten.inserted| == 1 && asWritten.inserted[0].category == "Food"
      && intended.response == asWritten.response && intended.inserted == []
  {
    var bad := CsvRow(date, amount, "USD", "", "Travel", "Lunch");
    var good := CsvRow(date, amount, "USD", "", "Food", "Lunch");
    var parse := (s: string) => Some(d);
    var rows := [bad, good];
    assert !Accepted(bad, ["Food"], ["Lunch"]) && bad in rows;
    assert Accepted(good, ["Food"], ["Lunch"]);
    assert rows[1..] == [good];
    assert AcceptedRows(rows, ["Food"], ["Lunch"]) == [good];
    assert FirstRejection(rows, ["Food"], ["Lunch"])
        == Some("Expense record with category " + "Travel" + " was not found");
    var batch := Batch(rows, ["Food"], ["Lunch"], k => "id", parse, tz, 0);
    assert batch == [Entry(good, "id", parse, tz, 0)];
    NoonKeepsTheDate(d, tz);
    assert batch[0].expenseDate == NoonOf(Some(d), tz);
    assert InsertSucceeds(batch, true);
    AsWrittenPartialInsert(rows, ["Food"], ["Lunch"], k => "id", parse, tz, 0);
  }

  /** The intended handler is all-or-nothing: rows reach the table only when every row of the
      file passed its checks, and then all of them do, in file order. */
  lemma ImportAllOrNothing(file: Option<CsvInput>, categoryNames: seq<string>, subCategoryNames: seq<string>,
                           ids: nat -> string, parseMdy: string -> Option<CivilDate>, tz: TzOffset,
                           now: int, insertOk: bool)
    ensures var r := Import(file, categoryNames, subCategoryNames, ids, parseMdy, tz, now, insertOk);
      r.inserted != [] ==>
        file.Some? && file.value.Rows?
        && (forall x :: x in file.value.rows ==> Accepted(x, categoryNames, subCategoryNames))
        && r.inserted == Entries(file.value.rows, ids, parseMdy, tz, now)
  {
    if file.Some? && file.value.Rows? {
      var rows := file.value.rows;
      if FirstRejection(rows, categoryNames, subCategoryNames).None? {
        AcceptedRowsAll(rows, categoryNames, subCategoryNames);
      }
    }
  }

  /** The intended handler turns the file away with the first row's error as soon as one row
      fails its checks, and inserts nothing. */
  lemma ImportRejects(rows: seq<CsvRow>, categoryNames: seq<string>, subCategoryNames: seq<string>,
                      ids: nat -> string, parseMdy: string -> Option<CivilDate>, tz: TzOffset,
                      now: int, insertOk: bool, i: int)
    requires 0 <= i < |rows| && !Accepted(rows[i], categoryNames, subCategoryNames)
    requires forall j :: 0 <= j < i ==> Accepted(rows[j], categoryNames, subCategoryNames)
    ensures var r := Import(Some(Rows(rows)), categoryNames, subCategoryNames, ids, parseMdy, tz, now, insertOk);
      r.inserted == [] && r.fileRemoved
      && r.response == Response(400, ErrorMessage(Rejection(rows[i], categoryNames, subCategoryNames).value))
  {
    FirstRejectionAt(rows, categoryNames, subCategoryNames, i);
  }

  lemma {:induction false} FirstRejectionAt(rows: seq<CsvRow>, categoryNames: seq<string>, subCategoryNames: seq<string>, i: int)
    requires 0 <= i < |rows| && !Accepted(rows[i], categoryNames, subCategoryNames)
    requires forall j :: 0 <= j < i ==> Accepted(rows[j], categoryNames, subCategoryNames)
    ensures FirstRejection(rows, categoryNames, subCategoryNames) == Rejection(rows[i], categoryNames, subCategoryNames)
  {
    if i > 0 {
      FirstRejectionAt(rows[1..], categoryNames, subCategoryNames, i - 1);
    }
  }

  lemma {:induction false} AcceptedRowsAll(rows: seq<CsvRow>, categoryNames: seq<string>, subCategoryNames: seq<string>)
    requires forall x :: x in rows ==> Accepted(x, categoryNames, subCategoryNames)
    ensures AcceptedRows(rows, categoryNames, subCategoryNames) == rows
  {
    if rows != [] {
      AcceptedRowsAll(rows[1..], categoryNames, subCategoryNames);
    }
  }
}
