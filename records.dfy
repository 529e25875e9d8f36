/** The rows the controllers read and write. Money is held in integer cents: the `amount` column
    is `numeric(12, 2)`. The expense record carries every field some controller uses: the text
    `category`/`subCategory` of the table definition, and the `userId`, `categoryId` and
    `subCategoryId` that the dashboard filters and joins on (absent from the table definition,
    so a row may lack them; SQL compares a missing value with nothing). */
module Records {
  import opened Common
  import opened Calendar

  /** A `date` column holds a valid calendar date. */
  type CivilDate = d: Date | IsValid(d) witness Date(1970, 1, 1)

  datatype ExpenseRecord = ExpenseRecord(
    id: string,
    userId: Option<string>,
    expenseDate: CivilDate,
    amount: int,
    currency: string,
    reason: Option<string>,
    category: string,
    subCategory: Option<string>,
    categoryId: Option<string>,
    subCategoryId: Option<string>,
    createdAt: int,
    updatedAt: Option<int>)

  datatype Category = Category(
    id: string,
    name: string,
    description: Option<string>,
    createdAt: int,
    updatedAt: Option<int>)

  datatype SubCategory = SubCategory(
    id: string,
    name: string,
    description: Option<string>,
    categoryId: string,
    createdAt: int,
    updatedAt: Option<int>)

  /** The configured high-expense threshold, "500", in cents. */
  const HighExpenseThreshold: int := 50_000

  /** `lt(amount, config.highExpenseThreshold)`. */
  predicate BelowThreshold(r: ExpenseRecord) {
    r.amount < HighExpenseThreshold
  }

  /** `eq(column, value)`: a missing column value equals nothing. */
  predicate Matches(column: Option<string>, value: string) {
    column == Some(value)
  }
}
