/** The SQLite store: the `users`, `incomes`, `expenses` and `families`
    tables, the reads and writes the bot makes on them, and the approval
    rule applied when an income or expense is saved.

    `Db` is the content of the four tables (with the AUTOINCREMENT
    counters); the functions below give the content after each write, and
    the class `Store` performs the writes in place. */
module Ledger {
  import opened Schema
  import opened Utilities
  import opened Callbacks

  datatype Db = Db(
    users: map<UserId, User>,
    incomes: map<TxId, Transaction>,
    expenses: map<TxId, Transaction>,
    families: map<FamilyId, Family>,
    nextIncomeId: TxId,
    nextExpenseId: TxId,
    nextFamilyId: FamilyId)

  /** A freshly created database file. */
  const Empty: Db := Db(map[], map[], map[], map[], 1, 1, 1)

  /** AUTOINCREMENT: ids start at 1 and every id handed out is below the
      table's counter, so a deleted id is never handed out again. */
  ghost predicate WellFormed(db: Db)
  {
    && 1 <= db.nextIncomeId && 1 <= db.nextExpenseId && 1 <= db.nextFamilyId
    && (forall id :: id in db.incomes ==> 1 <= id < db.nextIncomeId)
    && (forall id :: id in db.expenses ==> 1 <= id < db.nextExpenseId)
    && (forall id :: id in db.families ==> 1 <= id < db.nextFamilyId)
  }

  function Table(db: Db, k: Kind): map<TxId, Transaction>
  {
    match k
    case Income => db.incomes
    case Expense => db.expenses
  }

  function NextId(db: Db, k: Kind): TxId
  {
    match k
    case Income => db.nextIncomeId
    case Expense => db.nextExpenseId
  }

  /** `db` with table `k` and its counter replaced. */
  function WithTable(db: Db, k: Kind, t: map<TxId, Transaction>, next: TxId): (r: Db)
    ensures Table(r, k) == t && NextId(r, k) == next
    ensures forall k' :: k' != k ==> Table(r, k') == Table(db, k') && NextId(r, k') == NextId(db, k')
    ensures r.users == db.users && r.families == db.families && r.nextFamilyId == db.nextFamilyId
  {
    match k
    case Income => db.(incomes := t, nextIncomeId := next)
    case Expense => db.(expenses := t, nextExpenseId := next)
  }

  // ---------------------------------------------------------------------
  // Reads. Each returns the column of the user's row, or the value the
  // `get_*` function returns when `fetchone()` finds no row.

  function GetUserLanguage(db: Db, u: UserId): (r: Option<string>)
    ensures r.Some? <==> u in db.users
    ensures r.Some? ==> r.value == db.users[u].language
  {
    if u in db.users then Some(db.users[u].language) else None
  }

  function IsFirstTimeUser(db: Db, u: UserId): (r: bool)
    ensures u !in db.users ==> r
    ensures u in db.users ==> r == db.users[u].firstTime
  {
    if u in db.users then db.users[u].firstTime else true
  }

  function GetUserRole(db: Db, u: UserId): (r: Option<Role>)
    ensures u !in db.users ==> r == None
    ensures u in db.users ==> r == db.users[u].role
  {
    if u in db.users then db.users[u].role else None
  }

  function GetUserFamilyId(db: Db, u: UserId): (r: Option<FamilyId>)
    ensures u !in db.users ==> r == None
    ensures u in db.users ==> r == db.users[u].familyId
  {
    if u in db.users then db.users[u].familyId else None
  }

  function GetFamilyHeadId(db: Db, f: FamilyId): (r: Option<UserId>)
    ensures r.Some? <==> f in db.families
    ensures r.Some? ==> r.value == db.families[f].headId
  {
    if f in db.families then Some(db.families[f].headId) else None
  }

  function GetUserBudget(db: Db, u: UserId): (r: real)
    ensures u !in db.users ==> r == 0.0
    ensures u in db.users ==> r == db.users[u].budget
  {
    if u in db.users then db.users[u].budget else 0.0
  }

  // ---------------------------------------------------------------------
  // Writes, as the table content they leave behind.

  /** The greeting write of show_main_menu, `UPDATE users SET first_time = 0`
      on the user's row. */
  function FirstTimeCleared(db: Db, u: UserId): (r: Db)
    ensures r.users.Keys == db.users.Keys
    ensures u in db.users ==> r.users[u] == db.users[u].(firstTime := false)
    ensures forall v :: v in db.users && v != u ==> r.users[v] == db.users[v]
    ensures r == db.(users := r.users)
    ensures u in db.users ==> !IsFirstTimeUser(r, u)
  {
    if u in db.users
    then db.(users := db.users[u := db.users[u].(firstTime := false)])
    else db
  }

  /** set_user_language: update an existing row (and clear first_time), or
      insert a new row with first_time = 1 and every other column at its
      default. */
  function LanguageSet(db: Db, u: UserId, language: string): (r: Db)
    ensures r.users.Keys == db.users.Keys + {u}
    ensures u in db.users ==> r.users[u] == db.users[u].(language := language, firstTime := false)
    ensures u !in db.users ==> r.users[u] == User(language, true, None, None, 0.0)
    ensures forall v :: v in db.users && v != u ==> r.users[v] == db.users[v]
    ensures r == db.(users := r.users)
  {
    if u in db.users then db.(users := db.users[u := db.users[u].(language := language, firstTime := false)])
    else db.(users := db.users[u := User(language, true, None, None, 0.0)])
  }

  /** create_family: insert the family under the next id with the creator
      as head; the creator's row, if any, now points at it with role head,
      whatever family it pointed at before. */
  function CreatedFamily(db: Db, name: string, head: UserId): (r: Db)
    ensures r.families == db.families[db.nextFamilyId := Family(name, head)]
    ensures r.nextFamilyId == db.nextFamilyId + 1
    ensures r.users.Keys == db.users.Keys
    ensures head in db.users ==> r.users[head] == db.users[head].(familyId := Some(db.nextFamilyId), role := Some(Head))
    ensures forall v :: v in db.users && v != head ==> r.users[v] == db.users[v]
    ensures r == db.(users := r.users, families := r.families, nextFamilyId := r.nextFamilyId)
    ensures WellFormed(db) ==> WellFormed(r) && db.nextFamilyId !in db.families
  {
    var id := db.nextFamilyId;
    var users := if head in db.users
      then db.users[head := db.users[head].(familyId := Some(id), role := Some(Head))]
      else db.users;
    db.(families := db.families[id := Family(name, head)], nextFamilyId := id + 1, users := users)
  }

  /** join_family: point the user's row at `f` with role member; no check
      that family `f` exists. */
  function Joined(db: Db, u: UserId, f: FamilyId): (r: Db)
    ensures r.users.Keys == db.users.Keys
    ensures u in db.users ==> r.users[u] == db.users[u].(familyId := Some(f), role := Some(Member))
    ensures forall v :: v in db.users && v != u ==> r.users[v] == db.users[v]
    ensures r == db.(users := r.users)
  {
    if u in db.users then db.(users := db.users[u := db.users[u].(familyId := Some(f), role := Some(Member))])
    else db
  }

  /** SQLite's INTEGER is a signed 64-bit value: binding a larger Python
      int as a parameter raises OverflowError before the statement runs. */
  predicate FitsSqliteInteger(i: int)
  {
    -0x8000_0000_0000_0000 <= i <= 0x7FFF_FFFF_FFFF_FFFF
  }

  /** The approval rule of save_income / save_expense: a member's entry
      waits for the head, everybody else's is approved at once. */
  predicate NeedsApproval(db: Db, u: UserId)
    ensures NeedsApproval(db, u) <==>
      u in db.users && db.users[u].role == Some(Member) && db.users[u].familyId.Some?
  {
    GetUserRole(db, u) == Some(Member) && GetUserFamilyId(db, u).Some?
  }

  /** The row save_income / save_expense inserts. */
  function NewRow(db: Db, u: UserId, e: Entry, now: Timestamp): (t: Transaction)
    ensures t.owner == u && t.date == now
    ensures t.amount == e.amount && t.currency == e.currency && t.category == e.category
    ensures t.comment == SanitizeComment(e.comment)
    ensures t.familyId == GetUserFamilyId(db, u)
    ensures !t.approved <==> (GetUserRole(db, u) == Some(Member) && GetUserFamilyId(db, u) != None)
  {
    Transaction(u, now, e.amount, e.currency, e.category, SanitizeComment(e.comment),
                GetUserFamilyId(db, u), !NeedsApproval(db, u))
  }

  /** save_income (`k == Income`) and save_expense (`k == Expense`): the
      new row goes in under the table's next id. */
  function Saved(db: Db, k: Kind, u: UserId, e: Entry, now: Timestamp): (r: Db)
    ensures Table(r, k) == Table(db, k)[NextId(db, k) := NewRow(db, u, e, now)]
    ensures NextId(r, k) == NextId(db, k) + 1
    ensures forall k' :: k' != k ==> Table(r, k') == Table(db, k') && NextId(r, k') == NextId(db, k')
    ensures r.users == db.users && r.families == db.families && r.nextFamilyId == db.nextFamilyId
  {
    var id := NextId(db, k);
    WithTable(db, k, Table(db, k)[id := NewRow(db, u, e, now)], id + 1)
  }

  /** approve_transaction: `approved = 1` on row `id` of the table the type
      names; an unknown type or a missing id leaves everything as it was. */
  function Approved(db: Db, id: TxId, typeText: string): (r: Db)
    ensures KindOf(typeText) == None ==> r == db
    ensures forall k :: Table(r, k).Keys == Table(db, k).Keys && NextId(r, k) == NextId(db, k)
    ensures forall k, j :: j in Table(db, k) ==>
      Table(r, k)[j] == if KindOf(typeText) == Some(k) && j == id
                        then Table(db, k)[j].(approved := true)
                        else Table(db, k)[j]
    ensures r.users == db.users && r.families == db.families && r.nextFamilyId == db.nextFamilyId
  {
    match KindOf(typeText)
    case None => db
    case Some(k) =>
      var t := Table(db, k);
      if id in t then WithTable(db, k, t[id := t[id].(approved := true)], NextId(db, k)) else db
  }

  /** reject_transaction: delete row `id` of the table the type names. */
  function Rejected(db: Db, id: TxId, typeText: string): (r: Db)
    ensures forall k :: Table(r, k) == if KindOf(typeText) == Some(k) then Table(db, k) - {id} else Table(db, k)
    ensures forall k :: NextId(r, k) == NextId(db, k)
    ensures r.users == db.users && r.families == db.families && r.nextFamilyId == db.nextFamilyId
  {
    match KindOf(typeText)
    case None => db
    case Some(k) => WithTable(db, k, Table(db, k) - {id}, NextId(db, k))
  }

  /** set_user_budget: overwrite one user's budget. */
  function BudgetSet(db: Db, u: UserId, amount: real): (r: Db)
    ensures r.users.Keys == db.users.Keys
    ensures u in db.users ==> r.users[u] == db.users[u].(budget := amount)
    ensures forall v :: v in db.users && v != u ==> r.users[v] == db.users[v]
    ensures r == db.(users := r.users)
  {
    if u in db.users then db.(users := db.users[u := db.users[u].(budget := amount)]) else db
  }

  /** reduce_user_budget: read the budget (0 for an unknown user), subtract,
      write it back to the user's row. */
  function BudgetReduced(db: Db, u: UserId, amount: real): (r: Db)
    ensures GetUserBudget(r, u) == if u in db.users then GetUserBudget(db, u) - amount else 0.0
    ensures u !in db.users ==> r == db
    ensures forall v :: v != u ==> GetUserBudget(r, v) == GetUserBudget(db, v)
    ensures r.users.Keys == db.users.Keys
    ensures u in db.users ==> r.users[u] == db.users[u].(budget := db.users[u].budget - amount)
    ensures forall v :: v in db.users && v != u ==> r.users[v] == db.users[v]
    ensures r == db.(users := r.users)
  {
    BudgetSet(db, u, GetUserBudget(db, u) - amount)
  }

  /** The request notify_family_head is asked to send for row `id` of table
      `k`, given the table content right after that row was inserted:
      only a row stored with `approved = 0` asks for one. */
  function RowNotice(db: Db, k: Kind, id: TxId): (n: Option<Notice>)
    ensures n.Some? ==> id in Table(db, k) && !Table(db, k)[id].approved
  {
    var t := Table(db, k);
    if id in t && !t[id].approved && t[id].familyId.Some?
    then NotifyFamilyHead(db.families, t[id].familyId.value, id, k, t[id].owner)
    else None
  }

  /** The approved rows a report reads (report_generation.py, the queries of
      create_report): the family's rows when the user's family id is set
      and non-zero, the user's own rows otherwise. */
  function ReportRows(db: Db, k: Kind, u: UserId): (r: map<TxId, Transaction>)
    ensures forall id :: id in r ==> id in Table(db, k) && r[id] == Table(db, k)[id] && r[id].approved
    ensures forall id :: id in Table(db, k) && Table(db, k)[id].approved ==>
      (id in r <==> match GetUserFamilyId(db, u)
                     case Some(f) => if f != 0 then Table(db, k)[id].familyId == Some(f)
                                     else Table(db, k)[id].owner == u
                     case None => Table(db, k)[id].owner == u)
  {
    var t := Table(db, k);
    match GetUserFamilyId(db, u)
    case Some(f) =>
      if f != 0 then map id | id in t && t[id].familyId == Some(f) && t[id].approved :: t[id]
      else map id | id in t && t[id].owner == u && t[id].approved :: t[id]
    case None => map id | id in t && t[id].owner == u && t[id].approved :: t[id]
  }

  // ---------------------------------------------------------------------
  // Properties of the writes.

  lemma WellFormedTables(db: Db, k: Kind)
    requires WellFormed(db)
    ensures 1 <= NextId(db, k)
    ensures forall id :: id in Table(db, k) ==> 1 <= id < NextId(db, k)
  {
  }

  /** Every write keeps the AUTOINCREMENT invariant. */
  lemma SavedKeepsWellFormed(db: Db, k: Kind, u: UserId, e: Entry, now: Timestamp)
    requires WellFormed(db)
    ensures WellFormed(Saved(db, k, u, e, now))
  {
    var r := Saved(db, k, u, e, now);
    match k
    case Income =>
      assert r.incomes.Keys == db.incomes.Keys + {db.nextIncomeId};
    case Expense =>
      assert r.expenses.Keys == db.expenses.Keys + {db.nextExpenseId};
  }

  lemma ApprovedKeepsWellFormed(db: Db, id: TxId, typeText: string)
    requires WellFormed(db)
    ensures WellFormed(Approved(db, id, typeText))
  {
    var r := Approved(db, id, typeText);
    assert Table(r, Income).Keys == Table(db, Income).Keys;
    assert Table(r, Expense).Keys == Table(db, Expense).Keys;
  }

  lemma RejectedKeepsWellFormed(db: Db, id: TxId, typeText: string)
    requires WellFormed(db)
    ensures WellFormed(Rejected(db, id, typeText))
  {
    var r := Rejected(db, id, typeText);
    assert Table(r, Income).Keys <= Table(db, Income).Keys;
    assert Table(r, Expense).Keys <= Table(db, Expense).Keys;
  }

  lemma UserWritesKeepWellFormed(db: Db, u: UserId, f: FamilyId, name: string, language: string, amount: real)
    requires WellFormed(db)
    ensures WellFormed(CreatedFamily(db, name, u))
    ensures WellFormed(Joined(db, u, f))
    ensures WellFormed(LanguageSet(db, u, language))
    ensures WellFormed(BudgetSet(db, u, amount))
    ensures WellFormed(BudgetReduced(db, u, amount))
    ensures WellFormed(FirstTimeCleared(db, u))
  {
  }

  /** The saved row is new: nothing is overwritten and the table grows by one. */
  lemma SavedRowIsNew(db: Db, k: Kind, u: UserId, e: Entry, now: Timestamp)
    requires WellFormed(db)
    ensures NextId(db, k) !in Table(db, k)
    ensures Table(Saved(db, k, u, e, now), k).Keys == Table(db, k).Keys + {NextId(db, k)}
    ensures |Table(Saved(db, k, u, e, now), k)| == |Table(db, k)| + 1
  {
    WellFormedTables(db, k);
    var t := Table(db, k);
    var t' := Table(Saved(db, k, u, e, now), k);
    assert t'.Keys == t.Keys + {NextId(db, k)};
    assert |t'| == |t'.Keys| && |t| == |t.Keys|;
  }

  /** A saved row is pending exactly when its owner is a member with a
      family; it records the family read at save time. */
  lemma SavedPendingIffMember(db: Db, k: Kind, u: UserId, e: Entry, now: Timestamp)
    ensures var row := Table(Saved(db, k, u, e, now), k)[NextId(db, k)];
      && row.familyId == GetUserFamilyId(db, u)
      && (!row.approved <==> GetUserRole(db, u) == Some(Member) && GetUserFamilyId(db, u).Some?)
      && (GetUserRole(db, u) != Some(Member) ==> row.approved)
      && (u !in db.users ==> row.approved && row.familyId == None)
  {
  }

  /** The head is asked to decide exactly when the new row is pending and
      its family has a row; the request goes to that family's head and its
      buttons name the new row. */
  lemma SaveNoticeIffPending(db: Db, k: Kind, u: UserId, e: Entry, now: Timestamp)
    ensures var id := NextId(db, k);
            var n := RowNotice(Saved(db, k, u, e, now), k, id);
      && (n.Some? <==> NeedsApproval(db, u) && GetUserFamilyId(db, u).value in db.families)
      && (n.Some? ==>
            && n.value == ApprovalRequest(db.families[GetUserFamilyId(db, u).value].headId, k,
                                          EncodeCallback(ApproveAction, k, id, u),
                                          EncodeCallback(RejectAction, k, id, u)))
  {
  }

  /** A transaction without a pending state never asks anybody. */
  lemma ApprovedSaveSendsNothing(db: Db, k: Kind, u: UserId, e: Entry, now: Timestamp)
    requires !NeedsApproval(db, u)
    ensures RowNotice(Saved(db, k, u, e, now), k, NextId(db, k)) == None
  {
    assert Table(Saved(db, k, u, e, now), k)[NextId(db, k)].approved;
  }

  /** Approving twice is approving once. */
  lemma ApproveIdempotent(db: Db, id: TxId, typeText: string)
    ensures Approved(Approved(db, id, typeText), id, typeText) == Approved(db, id, typeText)
  {
    match KindOf(typeText)
    case None =>
    case Some(k) =>
      var r := Approved(db, id, typeText);
      if id in Table(db, k) {
        assert Table(r, k)[id].approved;
        assert Table(r, k)[id := Table(r, k)[id].(approved := true)] == Table(r, k);
      }
  }

  /** Approving a row that is not there (never saved, or rejected) changes nothing. */
  lemma ApproveMissingIsNoop(db: Db, id: TxId, typeText: string)
    requires KindOf(typeText) == None || id !in Table(db, KindOf(typeText).value)
    ensures Approved(db, id, typeText) == db
  {
  }

  /** Rejecting removes exactly the one row. */
  lemma RejectRemovesOneRow(db: Db, id: TxId, typeText: string)
    requires KindOf(typeText).Some? && id in Table(db, KindOf(typeText).value)
    ensures var k := KindOf(typeText).value;
      && Table(Rejected(db, id, typeText), k).Keys == Table(db, k).Keys - {id}
      && |Table(Rejected(db, id, typeText), k)| == |Table(db, k)| - 1
      && (forall j :: j in Table(db, k) && j != id ==> Table(Rejected(db, id, typeText), k)[j] == Table(db, k)[j])
  {
    var k := KindOf(typeText).value;
    assert Table(Rejected(db, id, typeText), k).Keys == Table(db, k).Keys - {id};
  }

  /** After a rejection, a second rejection or an approval of the same row is a no-op. */
  lemma AfterRejectNoop(db: Db, id: TxId, typeText: string)
    ensures var r := Rejected(db, id, typeText);
      Rejected(r, id, typeText) == r && Approved(r, id, typeText) == r
  {
    var r := Rejected(db, id, typeText);
    match KindOf(typeText)
    case None =>
    case Some(k) =>
      assert id !in Table(r, k);
      assert Table(r, k) - {id} == Table(r, k);
  }

  /** A rejected row stays gone: later saves use fresh ids. */
  lemma RejectedIdNotReused(db: Db, id: TxId, k: Kind, u: UserId, e: Entry, now: Timestamp)
    requires WellFormed(db) && id in Table(db, k)
    ensures id != NextId(Rejected(db, id, KindName(k)), k)
    ensures id !in Table(Saved(Rejected(db, id, KindName(k)), k, u, e, now), k)
  {
    WellFormedTables(db, k);
  }

  /** Reports never show a pending row; approving a member's row of the
      family makes it show up in the head's report. */
  lemma ReportsShowApprovedOnly(db: Db, k: Kind, u: UserId, id: TxId, f: FamilyId)
    requires id in Table(db, k) && !Table(db, k)[id].approved
    requires GetUserFamilyId(db, u) == Some(f) && f != 0 && Table(db, k)[id].familyId == Some(f)
    ensures id !in ReportRows(db, k, u)
    ensures id in ReportRows(Approved(db, id, KindName(k)), k, u)
  {
    var r := Approved(db, id, KindName(k));
    assert Table(r, k)[id].approved;
    assert GetUserFamilyId(r, u) == Some(f);
  }

  /** reduce_user_budget of a known user lowers exactly that budget by the amount. */
  lemma ReduceLowersBudget(db: Db, u: UserId, amount: real)
    requires u in db.users
    ensures BudgetReduced(db, u, amount) == db.(users := db.users[u := db.users[u].(budget := db.users[u].budget - amount)])
  {
  }

  /** first_time is set on the first language choice and cleared by any later one. */
  lemma LanguageFirstTime(db: Db, u: UserId, language: string)
    ensures IsFirstTimeUser(LanguageSet(db, u, language), u) == (u !in db.users)
    ensures GetUserLanguage(LanguageSet(db, u, language), u) == Some(language)
    ensures IsFirstTimeUser(LanguageSet(LanguageSet(db, u, language), u, language), u) == false
  {
  }

  /** Creating a family makes the creator its head and points them at it. */
  lemma CreateFamilyMakesHead(db: Db, name: string, u: UserId)
    requires u in db.users
    ensures var r := CreatedFamily(db, name, u);
      && GetUserRole(r, u) == Some(Head)
      && GetUserFamilyId(r, u) == Some(db.nextFamilyId)
      && GetFamilyHeadId(r, db.nextFamilyId) == Some(u)
  {
  }

  /** Without a user row the family is still inserted and no user changes;
      a creator who belonged elsewhere now points at the new family. */
  lemma CreateFamilyOverwrites(db: Db, name: string, u: UserId)
    ensures u !in db.users ==> CreatedFamily(db, name, u).users == db.users
    ensures db.nextFamilyId in CreatedFamily(db, name, u).families
    ensures u in db.users && db.users[u].familyId.Some? ==>
      GetUserFamilyId(CreatedFamily(db, name, u), u) == Some(db.nextFamilyId)
  {
  }

  /** join_family makes the user a member of any family id, existing or
      not, and does nothing for an unknown user. */
  lemma JoinWithoutCheck(db: Db, u: UserId, f: FamilyId)
    ensures u in db.users ==>
      GetUserRole(Joined(db, u, f), u) == Some(Member) && GetUserFamilyId(Joined(db, u, f), u) == Some(f)
    ensures u !in db.users ==> Joined(db, u, f) == db
    ensures Joined(db, u, f).families == db.families
  {
  }

  /** For a returning user (or one without a row) the greeting write changes
      nothing, and clearing the flag twice is clearing it once. */
  lemma FirstTimeClearedNoopWhenReturning(db: Db, u: UserId)
    ensures !IsFirstTimeUser(db, u) || u !in db.users ==> FirstTimeCleared(db, u) == db
    ensures FirstTimeCleared(FirstTimeCleared(db, u), u) == FirstTimeCleared(db, u)
  {
  }

  /** The walk-through of the approval workflow: U1 creates a family, U2
      joins it by its id, U2 saves an expense, which is stored pending and
      makes a request to U1; the approve button of that request, handed
      back to the store, approves the row. */
  lemma {:induction false} FamilyApprovalScenario(db: Db, u1: UserId, u2: UserId, name: string, e: Entry, now: Timestamp)
    requires WellFormed(db)
    requires u1 in db.users && u2 in db.users && u1 != u2
    ensures var f := db.nextFamilyId;
            var d1 := Joined(CreatedFamily(db, name, u1), u2, f);
            var id := NextId(d1, Expense);
            var d2 := Saved(d1, Expense, u2, e, now);
      && GetUserRole(d1, u1) == Some(Head) && GetUserRole(d1, u2) == Some(Member)
      && !Table(d2, Expense)[id].approved
      && RowNotice(d2, Expense, id).Some?
      && RowNotice(d2, Expense, id).value.recipient == u1
      && Table(Approved(d2, id, KindName(Expense)), Expense)[id].approved
  {
    var f := db.nextFamilyId;
    var d0 := CreatedFamily(db, name, u1);
    var d1 := Joined(d0, u2, f);
    assert d1.families == d0.families;
    assert f in d1.families && d1.families[f].headId == u1;
    assert GetUserFamilyId(d1, u2) == Some(f);
    SaveNoticeIffPending(d1, Expense, u2, e, now);
  }

  // ---------------------------------------------------------------------
  // The store as the bot uses it: one object whose tables the writes
  // update in place.

  class Store {
    var users: map<UserId, User>
    var incomes: map<TxId, Transaction>
    var expenses: map<TxId, Transaction>
    var families: map<FamilyId, Family>
    var nextIncomeId: TxId
    var nextExpenseId: TxId
    var nextFamilyId: FamilyId

    /** The content of the four tables. */
    function Snapshot(): Db
      reads this
    {
      Db(users, incomes, expenses, families, nextIncomeId, nextExpenseId, nextFamilyId)
    }

    ghost predicate Valid()
      reads this
    {
      WellFormed(Snapshot())
    }

    /** init_db on a new database file: four empty tables. */
    constructor ()
      ensures Valid() && Snapshot() == Empty
    {
      users, incomes, expenses, families := map[], map[], map[], map[];
      nextIncomeId, nextExpenseId, nextFamilyId := 1, 1, 1;
    }

    method SetUserLanguage(u: UserId, language: string)
      requires Valid()
      modifies this
      ensures Valid()
      ensures Snapshot() == LanguageSet(old(Snapshot()), u, language)
    {
      if u in users {
        users := users[u := users[u].(language := language, firstTime := false)];
      } else {
        users := users[u := User(language, true, None, None, 0.0)];
      }
      UserWritesKeepWellFormed(old(Snapshot()), u, 0, "", language, 0.0);
    }

    /** create_family: returns the new family's id (`lastrowid`). */
    method CreateFamily(name: string, head: UserId) returns (familyId: FamilyId)
      requires Valid()
      modifies this
      ensures Valid()
      ensures familyId == old(nextFamilyId) && familyId !in old(families)
      ensures Snapshot() == CreatedFamily(old(Snapshot()), name, head)
    {
      familyId := nextFamilyId;
      families := families[familyId := Family(name, head)];
      nextFamilyId := nextFamilyId + 1;
      if head in users {
        users := users[head := users[head].(familyId := Some(familyId), role := Some(Head))];
      }
    }

    method JoinFamily(u: UserId, f: FamilyId)
      requires Valid()
      modifies this
      ensures Valid()
      ensures Snapshot() == Joined(old(Snapshot()), u, f)
    {
      if u in users {
        users := users[u := users[u].(familyId := Some(f), role := Some(Member))];
      }
    }

    /** save_income. The notice is the approval request it makes, if any. */
    method SaveIncome(u: UserId, e: Entry, now: Timestamp) returns (notice: Option<Notice>)
      requires Valid()
      modifies this
      ensures Valid()
      ensures Snapshot() == Saved(old(Snapshot()), Income, u, e, now)
      ensures notice == RowNotice(Snapshot(), Income, old(nextIncomeId))
    {
      notice := Save(Income, u, e, now);
    }

    /** save_expense. The notice is the approval request it makes, if any. */
    method SaveExpense(u: UserId, e: Entry, now: Timestamp) returns (notice: Option<Notice>)
      requires Valid()
      modifies this
      ensures Valid()
      ensures Snapshot() == Saved(old(Snapshot()), Expense, u, e, now)
      ensures notice == RowNotice(Snapshot(), Expense, old(nextExpenseId))
    {
      notice := Save(Expense, u, e, now);
    }

    /** The body shared by save_income and save_expense: read the owner's
        family and role, insert the row, then ask for approval when the row
        went in pending. */
    method Save(k: Kind, u: UserId, e: Entry, now: Timestamp) returns (notice: Option<Notice>)
      requires Valid()
      modifies this
      ensures Valid()
      ensures Snapshot() == Saved(old(Snapshot()), k, u, e, now)
      ensures notice == RowNotice(Snapshot(), k, NextId(old(Snapshot()), k))
    {
      ghost var before := Snapshot();
      var comment := SanitizeComment(e.comment);
      var familyId := GetUserFamilyId(Snapshot(), u);
      var approved := true;
      var role := GetUserRole(Snapshot(), u);
      if role == Some(Member) && familyId.Some? {
        approved := false;
      }
      var row := Transaction(u, now, e.amount, e.currency, e.category, comment, familyId, approved);
      var id;
      if k == Income {
        id := nextIncomeId;
        incomes := incomes[id := row];
        nextIncomeId := nextIncomeId + 1;
      } else {
        id := nextExpenseId;
        expenses := expenses[id := row];
        nextExpenseId := nextExpenseId + 1;
      }
      assert Snapshot() == Saved(before, k, u, e, now);
      SavedKeepsWellFormed(before, k, u, e, now);
      if !approved {
        notice := NotifyFamilyHead(families, familyId.value, id, k, u);
      } else {
        notice := None;
      }
    }

    method ApproveTransaction(id: TxId, typeText: string)
      requires Valid()
      modifies this
      ensures Valid()
      ensures Snapshot() == Approved(old(Snapshot()), id, typeText)
    {
      ApprovedKeepsWellFormed(Snapshot(), id, typeText);
      if typeText == "income" {
        if id in incomes {
          incomes := incomes[id := incomes[id].(approved := true)];
        }
      } else if typeText == "expense" {
        if id in expenses {
          expenses := expenses[id := expenses[id].(approved := true)];
        }
      }
    }

    method RejectTransaction(id: TxId, typeText: string)
      requires Valid()
      modifies this
      ensures Valid()
      ensures Snapshot() == Rejected(old(Snapshot()), id, typeText)
    {
      RejectedKeepsWellFormed(Snapshot(), id, typeText);
      if typeText == "income" {
        incomes := incomes - {id};
      } else if typeText == "expense" {
        expenses := expenses - {id};
      }
    }

    /** The `UPDATE users SET first_time = 0` that show_main_menu runs
        for a first-time user. */
    method ClearFirstTime(u: UserId)
      requires Valid()
      modifies this
      ensures Valid()
      ensures Snapshot() == FirstTimeCleared(old(Snapshot()), u)
    {
      if u in users {
        users := users[u := users[u].(firstTime := false)];
      }
    }

    method SetUserBudget(u: UserId, amount: real)
      requires Valid()
      modifies this
      ensures Valid()
      ensures Snapshot() == BudgetSet(old(Snapshot()), u, amount)
    {
      if u in users {
        users := users[u := users[u].(budget := amount)];
      }
    }

    /** reduce_user_budget: a read followed by a separate write. */
    method ReduceUserBudget(u: UserId, amount: real)
      requires Valid()
      modifies this
      ensures Valid()
      ensures Snapshot() == BudgetReduced(old(Snapshot()), u, amount)
    {
      var current := GetUserBudget(Snapshot(), u);
      SetUserBudget(u, current - amount);
    }
  }
}
