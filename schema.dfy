/** Entities of the family-budget ledger: the rows of the `users`, `incomes`,
    `expenses` and `families` tables, and the values that travel between
    the chat handlers and the store. */
module Schema {

  datatype Option<+T> = None | Some(value: T)

  /** Telegram user ids, family ids and row ids are SQLite INTEGERs. */
  type UserId = int
  type FamilyId = int
  type TxId = int

  /** The moment a row is saved; the clock is read by the caller. */
  type Timestamp = int

  /** The `role` column; a NULL role is `None` in an `Option<Role>`. */
  datatype Role = Head | Member

  /** The two transaction tables. */
  datatype Kind = Income | Expense

  /** A row of `users`. */
  datatype User = User(
    language: string,
    firstTime: bool,
    familyId: Option<FamilyId>,
    role: Option<Role>,
    budget: real)

  /** A row of `families`. */
  datatype Family = Family(name: string, headId: UserId)

  /** A row of `incomes` or of `expenses` (the two tables have one shape). */
  datatype Transaction = Transaction(
    owner: UserId,
    date: Timestamp,
    amount: real,
    currency: string,
    category: string,
    comment: string,
    familyId: Option<FamilyId>,
    approved: bool)

  /** What the entry dialogue collected in `user_data` before saving. */
  datatype Entry = Entry(amount: real, currency: string, category: string, comment: string)

  /** The table name fragment used both in SQL dispatch and in callback data. */
  function KindName(k: Kind): (name: string)
    ensures name == "income" || name == "expense"
    ensures name == "income" <==> k == Income
  {
    match k
    case Income => "income"
    case Expense => "expense"
  }

  /** Reads a transaction type as the store's `if`/`elif` on it does:
      only the two literal names select a table. */
  function KindOf(s: string): (r: Option<Kind>)
    ensures r.Some? <==> (s == "income" || s == "expense")
    ensures r.Some? ==> KindName(r.value) == s
  {
    if s == "income" then Some(Income)
    else if s == "expense" then Some(Expense)
    else None
  }
}
