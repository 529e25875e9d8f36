/** The single-record handlers of src/controllers/expenseRecordController.ts:
    `getExpenseRecordById`, `createExpenseRecord`, `updateExpenseRecord` and
    `deleteExpenseRecord`, over the expense-record table held as a map from id to row.

    The names of the existing categories and sub-categories are sets, and the fresh id and the
    clock are parameters. As written, creating a record always throws once its names are
    found; the intended create and update read a date text through the function `dateOf`. A
    value the database refuses (a missing NOT NULL column, a malformed amount, an id already
    taken) makes the handler throw. */
module ExpenseStore {
  import opened Common
  import opened Records
  import opened Amounts

  /** The JSON body of a create or update request, each field a string or absent. */
  datatype ExpenseBody = ExpenseBody(
    id: Option<string>,
    expenseDate: Option<string>,
    amount: Option<string>,
    currency: Option<string>,
    reason: Option<string>,
    category: Option<string>,
    subCategory: Option<string>,
    description: Option<string>)

  const NoDataMessage: string := "No data is updated"
  const RejectedMessage: string := "rejected by the database"

  function NotFoundMessage(id: string): string {
    "Expense record with the id of " + id + " was not found"
  }

  /** How a template string shows an optional value. */
  function Shown(o: Option<string>): string {
    if o.Some? then o.value else "undefined"
  }

  function UnknownCategory(name: string): string {
    "Expense record with category " + name + " was not found"
  }

  function UnknownSubCategory(name: string): string {
    "Expense record with sub-category " + name + " was not found"
  }

  /** A lookup `eq(table.name, value)`: an absent value finds no row. */
  predicate Known(value: Option<string>, names: set<string>) {
    value.Some? && value.value in names
  }

  /** Every record is stored under its own id. */
  predicate KeyedById(rows: map<string, ExpenseRecord>) {
    forall k :: k in rows ==> rows[k].id == k
  }

  /** Every record names an existing category and, if any, an existing sub-category. */
  predicate NamesKnown(rows: map<string, ExpenseRecord>, categories: set<string>, subCategories: set<string>) {
    forall k :: k in rows ==> RecordNamesKnown(rows[k], categories, subCategories)
  }

  predicate RecordNamesKnown(r: ExpenseRecord, categories: set<string>, subCategories: set<string>) {
    r.category in categories && (r.subCategory.Some? ==> r.subCategory.value in subCategories)
  }

  // ---------------------------------------------------------------------------------------
  // Get by id and delete

  /** `getExpenseRecordById`: the row with that id, or 404. */
  function FindById(rows: map<string, ExpenseRecord>, id: string): (r: Result<ExpenseRecord>)
    requires KeyedById(rows)
    ensures r.Ok? <==> id in rows
    ensures r.Ok? ==> r.value.id == id && r.value in rows.Values
    ensures !r.Ok? ==> r == Fail(404, NotFoundMessage(id))
  {
    if id in rows then Ok(rows[id]) else Fail(404, NotFoundMessage(id))
  }

  // ---------------------------------------------------------------------------------------
  // Create

  /** The amount column's reading of a text value, as a verdict on the insert. */
  function AmountColumn(text: Option<string>): (r: Result<int>)
    ensures r.Ok? <==> text.Some? && NumericCents(text.value).Cents?
    ensures r.Ok? ==> r.value == NumericCents(text.value).cents
  {
    if text.None? then Thrown(RejectedMessage)
    else
      match NumericCents(text.value)
      case Cents(c) => Ok(c)
      case _ => Thrown(RejectedMessage)
  }

  /** The date an intended handler stores for a text value. The column is declared with mode
      "date", whose encoder takes a Date, so the text must be turned into one first; that
      reading is the parameter `dateOf`. */
  function DateColumn(text: Option<string>, dateOf: string -> Option<CivilDate>): (r: Result<CivilDate>)
    ensures r.Ok? <==> text.Some? && dateOf(text.value).Some?
    ensures r.Ok? ==> r.value == dateOf(text.value).value
  {
    if text.None? || dateOf(text.value).None? then Thrown(RejectedMessage)
    else Ok(dateOf(text.value).value)
  }

  /** What the encoder of a mode-"date" column throws when given the body's text. */
  const NotADateMessage: string := "value.toISOString is not a function"

  /** `createExpenseRecord` as written: the category name is looked up first, then the
      sub-category name, each missing one failing with 400. The raw body is then inserted. Its
      `expenseDate` is a string, which the date column's encoder cannot convert, and without one
      the NOT NULL column refuses the row, so the insert always throws. */
  function CreateAsWritten(body: ExpenseBody, categories: set<string>, subCategories: set<string>)
    : (r: Result<ExpenseRecord>)
    ensures !r.Ok?
    ensures !Known(body.category, categories) ==> r == Fail(400, UnknownCategory(Shown(body.category)))
    ensures Known(body.category, categories) && !Known(body.subCategory, subCategories)
            ==> r == Fail(400, UnknownSubCategory(Shown(body.subCategory)))
    ensures r.Fail? <==> !Known(body.category, categories) || !Known(body.subCategory, subCategories)
    ensures r.Thrown? ==> (r.message == NotADateMessage <==> body.expenseDate.Some?)
  {
    if !Known(body.category, categories) then Fail(400, UnknownCategory(Shown(body.category)))
    else if !Known(body.subCategory, subCategories) then Fail(400, UnknownSubCategory(Shown(body.subCategory)))
    else if body.expenseDate.Some? then Thrown(NotADateMessage)
    else Thrown(RejectedMessage)
  }

  /** Every body the intended handler would store makes the handler as written throw. */
  lemma CreateNeverSucceeds(rows: map<string, ExpenseRecord>, body: ExpenseBody, newId: string,
                            categories: set<string>, subCategories: set<string>,
                            dateOf: string -> Option<CivilDate>, now: int)
    requires CreateOutcome(rows, body, newId, categories, subCategories, dateOf, now).Ok?
    ensures CreateAsWritten(body, categories, subCategories) == Thrown(NotADateMessage)
  {
  }

  /** `createExpenseRecord` as intended: the body's id is replaced by `newId`; the category
      name is looked up first, then the sub-category name, each missing one failing with 400;
      then the row is inserted, its date text read as a date, with `createdAt` defaulting to
      now. */
  function CreateOutcome(rows: map<string, ExpenseRecord>, body: ExpenseBody, newId: string,
                         categories: set<string>, subCategories: set<string>,
                         dateOf: string -> Option<CivilDate>, now: int): (r: Result<ExpenseRecord>)
    ensures !Known(body.category, categories) ==> r == Fail(400, UnknownCategory(Shown(body.category)))
    ensures Known(body.category, categories) && !Known(body.subCategory, subCategories)
            ==> r == Fail(400, UnknownSubCategory(Shown(body.subCategory)))
    ensures r.Fail? <==> !Known(body.category, categories) || !Known(body.subCategory, subCategories)
    ensures r.Ok? <==>
      Known(body.category, categories) && Known(body.subCategory, subCategories)
      && newId !in rows && body.currency.Some?
      && DateColumn(body.expenseDate, dateOf).Ok? && AmountColumn(body.amount).Ok?
    ensures r.Ok? ==>
      r.value.id == newId && r.value.category == body.category.value
      && r.value.subCategory == body.subCategory && r.value.reason == body.reason
      && Some(r.value.currency) == body.currency && r.value.expenseDate == dateOf(body.expenseDate.value).value
      && r.value.amount == NumericCents(body.amount.value).cents
      && r.value.createdAt == now && r.value.updatedAt.None?
      && RecordNamesKnown(r.value, categories, subCategories)
  {
    if !Known(body.category, categories) then Fail(400, UnknownCategory(Shown(body.category)))
    else if !Known(body.subCategory, subCategories) then Fail(400, UnknownSubCategory(Shown(body.subCategory)))
    else
      var date := DateColumn(body.expenseDate, dateOf);
      var amount := AmountColumn(body.amount);
      if newId in rows || body.currency.None? || !date.Ok? || !amount.Ok? then Thrown(RejectedMessage)
      else
        Ok(ExpenseRecord(newId, None, date.value, amount.value, body.currency.value, body.reason,
                         body.category.value, body.subCategory, None, None, now, None))
  }

  /** The id the body carries plays no part. */
  lemma CreateIgnoresBodyId(rows: map<string, ExpenseRecord>, body: ExpenseBody, other: Option<string>,
                            newId: string, categories: set<string>, subCategories: set<string>,
                            dateOf: string -> Option<CivilDate>, now: int)
    ensures CreateOutcome(rows, body.(id := other), newId, categories, subCategories, dateOf, now)
         == CreateOutcome(rows, body, newId, categories, subCategories, dateOf, now)
  {
  }

  // ---------------------------------------------------------------------------------------
  // Update

  /** The checks `updateExpenseRecord` makes before it writes: the id, the body, then each
      name that the body sets. None when all pass. */
  function UpdateRefusal(rows: map<string, ExpenseRecord>, id: string, body: Option<ExpenseBody>,
                         categories: set<string>, subCategories: set<string>): (r: Option<Result<ExpenseRecord>>)
    ensures id !in rows ==> r == Some(Fail(404, NotFoundMessage(id)))
    ensures id in rows && body.None? ==> r == Some(Fail(400, NoDataMessage))
    ensures r.None? <==>
      id in rows && body.Some?
      && (Truthy(body.value.category) ==> body.value.category.value in categories)
      && (Truthy(body.value.subCategory) ==> body.value.subCategory.value in subCategories)
    ensures r.Some? ==> r.value.Fail?
  {
    if id !in rows then Some(Fail(404, NotFoundMessage(id)))
    else if body.None? then Some(Fail(400, NoDataMessage))
    else if Truthy(body.value.category) && body.value.category.value !in categories then
      Some(Fail(400, UnknownCategory(body.value.category.value)))
    else if Truthy(body.value.subCategory) && body.value.subCategory.value !in subCategories then
      Some(Fail(400, UnknownSubCategory(body.value.subCategory.value)))
    else None
  }

  /** The patch as written: each truthy field among amount, currency, reason, category and
      sub-category is given the body's `description` (an absent description leaves it alone),
      the date goes to a key that is no column, and `updatedAt` is set. */
  function PatchAsWritten(rec: ExpenseRecord, body: ExpenseBody, now: int): (r: Result<ExpenseRecord>)
  {
    var d := body.description;
    var setAmount := Truthy(body.amount) && d.Some?;
    var amount := if setAmount then AmountColumn(d) else Ok(rec.amount);
    if !amount.Ok? then Thrown(RejectedMessage)
    else
      Ok(rec.(amount := amount.value,
              currency := if Truthy(body.currency) && d.Some? then d.value else rec.currency,
              reason := if Truthy(body.reason) && d.Some? then d else rec.reason,
              category := if Truthy(body.category) && d.Some? then d.value else rec.category,
              subCategory := if Truthy(body.subCategory) && d.Some? then d else rec.subCategory,
              updatedAt := Some(now)))
  }

  /** The patch the handler evidently means: each truthy field gets its own value. */
  function Patch(rec: ExpenseRecord, body: ExpenseBody, dateOf: string -> Option<CivilDate>, now: int)
    : (r: Result<ExpenseRecord>)
  {
    var date := if Truthy(body.expenseDate) then DateColumn(body.expenseDate, dateOf) else Ok(rec.expenseDate);
    var amount := if Truthy(body.amount) then AmountColumn(body.amount) else Ok(rec.amount);
    if !date.Ok? || !amount.Ok? then Thrown(RejectedMessage)
    else
      Ok(rec.(expenseDate := date.value,
              amount := amount.value,
              currency := if Truthy(body.currency) then body.currency.value else rec.currency,
              reason := if Truthy(body.reason) then body.reason else rec.reason,
              category := if Truthy(body.category) then body.category.value else rec.category,
              subCategory := if Truthy(body.subCategory) then body.subCategory else rec.subCategory,
              updatedAt := Some(now)))
  }

  /** `updateExpenseRecord` as written. */
  function UpdateOutcomeAsWritten(rows: map<string, ExpenseRecord>, id: string, body: Option<ExpenseBody>,
                                  categories: set<string>, subCategories: set<string>, now: int)
    : (r: Result<ExpenseRecord>)
    ensures id !in rows ==> r == Fail(404, NotFoundMessage(id))
    ensures r.Ok? ==> id in rows && body.Some? && r == PatchAsWritten(rows[id], body.value, now)
  {
    var refusal := UpdateRefusal(rows, id, body, categories, subCategories);
    if refusal.Some? then refusal.value else PatchAsWritten(rows[id], body.value, now)
  }

  /** `updateExpenseRecord` with the patch it evidently means. */
  function UpdateOutcome(rows: map<string, ExpenseRecord>, id: string, body: Option<ExpenseBody>,
                         categories: set<string>, subCategories: set<string>,
                         dateOf: string -> Option<CivilDate>, now: int)
    : (r: Result<ExpenseRecord>)
    ensures id !in rows ==> r == Fail(404, NotFoundMessage(id))
    ensures r.Ok? ==> id in rows && body.Some? && r == Patch(rows[id], body.value, dateOf, now)
  {
    var refusal := UpdateRefusal(rows, id, body, categories, subCategories);
    if refusal.Some? then refusal.value else Patch(rows[id], body.value, dateOf, now)
  }

  /** The table after a handler: the returned row stored under its id, or nothing changed. */
  function Stored(rows: map<string, ExpenseRecord>, r: Result<ExpenseRecord>): map<string, ExpenseRecord> {
    if r.Ok? then rows[r.value.id := r.value] else rows
  }

  /** The intended patch changes a field only when the body sets it, to the body's own value,
      always stamps `updatedAt`, and keeps the id and the creation time. */
  lemma PatchSetsOwnValues(rec: ExpenseRecord, body: ExpenseBody, dateOf: string -> Option<CivilDate>, now: int)
    requires Patch(rec, body, dateOf, now).Ok?
    ensures var p := Patch(rec, body, dateOf, now).value;
      p.id == rec.id && p.createdAt == rec.createdAt && p.updatedAt == Some(now)
      && p.expenseDate == (if Truthy(body.expenseDate) then dateOf(body.expenseDate.value).value else rec.expenseDate)
      && p.amount == (if Truthy(body.amount) then NumericCents(body.amount.value).cents else rec.amount)
      && p.currency == (if Truthy(body.currency) then body.currency.value else rec.currency)
      && p.reason == (if Truthy(body.reason) then body.reason else rec.reason)
      && p.category == (if Truthy(body.category) then body.category.value else rec.category)
      && p.subCategory == (if Truthy(body.subCategory) then body.subCategory else rec.subCategory)
  {
  }

  /** As written, the date is never changed, every other field that changes takes the
      description's value, and only a truthy field can change. */
  lemma PatchAsWrittenUsesDescription(rec: ExpenseRecord, body: ExpenseBody, now: int)
    requires PatchAsWritten(rec, body, now).Ok?
    ensures var p := PatchAsWritten(rec, body, now).value;
      p.id == rec.id && p.createdAt == rec.createdAt && p.updatedAt == Some(now)
      && p.expenseDate == rec.expenseDate
      && (p.currency != rec.currency ==> Truthy(body.currency) && Some(p.currency) == body.description)
      && (p.reason != rec.reason ==> Truthy(body.reason) && p.reason == body.description)
      && (p.category != rec.category ==> Truthy(body.category) && Some(p.category) == body.description)
      && (p.subCategory != rec.subCategory ==> Truthy(body.subCategory) && p.subCategory == body.description)
      && (p.amount != rec.amount ==> Truthy(body.amount) && p.amount == NumericCents(body.description.value).cents)
  {
  }

  /** Changing the currency as written: the body's currency is ignored and the description is
      stored in its place. */
  lemma CurrencyTakesDescription(rec: ExpenseRecord, now: int, currency: string, note: string)
    requires currency != "" && note != currency
    ensures var body := ExpenseBody(None, None, None, Some(currency), None, None, None, Some(note));
      PatchAsWritten(rec, body, now).Ok?
      && PatchAsWritten(rec, body, now).value.currency == note
      && Patch(rec, body, (t: string) => None, now).Ok?
      && Patch(rec, body, (t: string) => None, now).value.currency == currency
  {
  }

  /** As written, a category name that passes the check is not the one stored: the update
      can leave a record naming a category that does not exist. */
  lemma UncheckedCategoryStored(rows: map<string, ExpenseRecord>, id: string, categories: set<string>,
                                subCategories: set<string>, now: int, name: string, note: string)
    requires id in rows && name in categories && note !in categories && name != ""
    ensures var body := ExpenseBody(None, None, None, None, None, Some(name), None, Some(note));
      var r := UpdateOutcomeAsWritten(rows, id, Some(body), categories, subCategories, now);
      r.Ok? && !NamesKnown(Stored(rows, r), categories, subCategories)
  {
    var body := ExpenseBody(None, None, None, None, None, Some(name), None, Some(note));
    var r := UpdateOutcomeAsWritten(rows, id, Some(body), categories, subCategories, now);
    assert r == PatchAsWritten(rows[id], body, now);
    assert r.value.id == rows[id].id;
    assert Stored(rows, r)[r.value.id].category == note;
  }

  /** The intended update keeps every record naming existing categories and sub-categories. */
  lemma UpdateKeepsNamesKnown(rows: map<string, ExpenseRecord>, id: string, body: Option<ExpenseBody>,
                              categories: set<string>, subCategories: set<string>,
                              dateOf: string -> Option<CivilDate>, now: int)
    requires NamesKnown(rows, categories, subCategories)
    ensures NamesKnown(Stored(rows, UpdateOutcome(rows, id, body, categories, subCategories, dateOf, now)),
                       categories, subCategories)
  {
    var r := UpdateOutcome(rows, id, body, categories, subCategories, dateOf, now);
    if r.Ok? {
      assert UpdateRefusal(rows, id, body, categories, subCategories).None?;
      assert RecordNamesKnown(rows[id], categories, subCategories);
      PatchSetsOwnValues(rows[id], body.value, dateOf, now);
      assert RecordNamesKnown(r.value, categories, subCategories);
    }
  }

  /** A created record names existing categories, so creation keeps that property too. */
  lemma CreateKeepsNamesKnown(rows: map<string, ExpenseRecord>, body: ExpenseBody, newId: string,
                              categories: set<string>, subCategories: set<string>,
                              dateOf: string -> Option<CivilDate>, now: int)
    requires NamesKnown(rows, categories, subCategories)
    ensures NamesKnown(Stored(rows, CreateOutcome(rows, body, newId, categories, subCategories, dateOf, now)),
                       categories, subCategories)
  {
  }

  // ---------------------------------------------------------------------------------------
  // The table

  class ExpenseRecordTable {
    var rows: map<string, ExpenseRecord>

    predicate Valid()
      reads this
    {
      KeyedById(rows)
    }

    constructor(initial: map<string, ExpenseRecord>)
      requires KeyedById(initial)
      ensures Valid() && rows == initial
    {
      rows := initial;
    }

    /** `getExpenseRecordById`. */
    method GetById(id: string) returns (r: Result<ExpenseRecord>)
      requires Valid()
      ensures r.Ok? <==> id in rows
      ensures r.Ok? ==> r.value == rows[id] && r.value.id == id
      ensures !r.Ok? ==> r == Fail(404, NotFoundMessage(id))
    {
      r := FindById(rows, id);
    }

    /** `createExpenseRecord` as written: after the two lookups the insert throws, so the
        table never changes. */
    method Create(body: ExpenseBody, categories: set<string>, subCategories: set<string>)
      returns (r: Result<ExpenseRecord>)
      requires Valid()
      ensures r == CreateAsWritten(body, categories, subCategories)
    {
      if !Known(body.category, categories) {
        return Fail(400, UnknownCategory(Shown(body.category)));
      }
      if !Known(body.subCategory, subCategories) {
        return Fail(400, UnknownSubCategory(Shown(body.subCategory)));
      }
      if body.expenseDate.Some? {
        r := Thrown(NotADateMessage);
      } else {
        r := Thrown(RejectedMessage);
      }
    }

    /** `updateExpenseRecord` as written. */
    method Update(id: string, body: Option<ExpenseBody>, categories: set<string>, subCategories: set<string>,
                  now: int) returns (r: Result<ExpenseRecord>)
      requires Valid()
      modifies this
      ensures Valid()
      ensures r == UpdateOutcomeAsWritten(old(rows), id, body, categories, subCategories, now)
      ensures rows == Stored(old(rows), r)
      ensures r.Ok? ==> id in old(rows) && rows == old(rows)[id := r.value]
    {
      var refusal := UpdateRefusal(rows, id, body, categories, subCategories);
      if refusal.Some? {
        return refusal.value;
      }
      r := PatchAsWritten(rows[id], body.value, now);
      if r.Ok? {
        rows := rows[id := r.value];
      }
    }

    /** `deleteExpenseRecord`: 404 for an unknown id, otherwise exactly that row goes. */
    method Delete(id: string) returns (r: Result<ExpenseRecord>)
      requires Valid()
      modifies this
      ensures Valid()
      ensures r.Ok? <==> id in old(rows)
      ensures r.Ok? ==> r.value == old(rows)[id]
      ensures !r.Ok? ==> r == Fail(404, NotFoundMessage(id))
      ensures rows == old(rows) - {id}
    {
      r := FindById(rows, id);
      rows := rows - {id};
    }
  }
}
