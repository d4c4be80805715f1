/** The family-budget conversation handlers: which step follows the family
    budget button, the guards of the create and join steps, and the loop
    that gives every member of the head's family the same budget.
    Messages, keyboards and localisation are not modelled; the cancel
    button's label and the `int()` / `float()` parses are parameters. */
module Handlers {
  import opened Schema
  import opened Ledger

  /** The conversation states these handlers return (`End` is
      ConversationHandler.END). */
  datatype ConversationState =
    | FamilyBudgetMenu
    | FamilyCreate
    | FamilyJoin
    | FamilyBudgetActions
    | FamilyBudgetSetAmount
    | End

  /** The rows `SELECT user_id FROM users WHERE family_id = ? AND role = 'member'`
      returns; with no family id the comparison with NULL matches nothing. */
  predicate IsFamilyMember(user: User, f: Option<FamilyId>)
  {
    f.Some? && user.familyId == f && user.role == Some(Member)
  }

  function FamilyMembers(db: Db, f: Option<FamilyId>): (ms: set<UserId>)
    ensures forall v :: v in ms <==> v in db.users && IsFamilyMember(db.users[v], f)
  {
    set v | v in db.users && IsFamilyMember(db.users[v], f)
  }

  /** The users table after every member of family `f` got budget `amount`. */
  function BudgetPropagated(db: Db, f: Option<FamilyId>, amount: real): (r: Db)
    ensures r == db.(users := r.users)
    ensures r.users.Keys == db.users.Keys
  {
    db.(users := map v | v in db.users ::
                   if IsFamilyMember(db.users[v], f) then db.users[v].(budget := amount) else db.users[v])
  }

  /** Every member of the family ends with exactly the amount. */
  lemma PropagatedMembersGetAmount(db: Db, f: Option<FamilyId>, amount: real, v: UserId)
    requires v in db.users && IsFamilyMember(db.users[v], f)
    ensures GetUserBudget(BudgetPropagated(db, f, amount), v) == amount
    ensures BudgetPropagated(db, f, amount).users[v] == db.users[v].(budget := amount)
  {
  }

  /** The head, members of other families and users without a family keep
      their row as it was. */
  lemma PropagatedOthersUnchanged(db: Db, f: Option<FamilyId>, amount: real, v: UserId)
    requires v in db.users && !IsFamilyMember(db.users[v], f)
    ensures BudgetPropagated(db, f, amount).users[v] == db.users[v]
  {
  }

  /** A caller without a family changes nobody's budget. */
  lemma PropagatedWithoutFamilyIsNoop(db: Db, amount: real)
    ensures BudgetPropagated(db, None, amount) == db
  {
    var r := BudgetPropagated(db, None, amount);
    forall v | v in r.users ensures r.users[v] == db.users[v] {
      assert !IsFamilyMember(db.users[v], None);
    }
    assert r.users == db.users;
  }

  lemma PropagatedKeepsWellFormed(db: Db, f: Option<FamilyId>, amount: real)
    requires WellFormed(db)
    ensures WellFormed(BudgetPropagated(db, f, amount))
  {
  }

  /** show_main_menu's one store write: after greeting a first-time user it
      clears their flag. The menu and the greeting text are not modelled. */
  method ShowMainMenu(store: Store, u: UserId)
    requires store.Valid()
    modifies store
    ensures store.Valid()
    ensures store.Snapshot() == FirstTimeCleared(old(store.Snapshot()), u)
  {
    if IsFirstTimeUser(store.Snapshot(), u) {
      store.ClearFirstTime(u);
    } else {
      FirstTimeClearedNoopWhenReturning(store.Snapshot(), u);
    }
  }

  /** family_budget_start: a head goes on to the head's actions, a member is
      sent back to the main menu and done, anybody else is offered to create
      or join a family. */
  method FamilyBudgetStart(store: Store, u: UserId) returns (next: ConversationState)
    requires store.Valid()
    modifies store
    ensures store.Valid()
    ensures GetUserRole(old(store.Snapshot()), u) == Some(Head) ==>
      next == FamilyBudgetActions && store.Snapshot() == old(store.Snapshot())
    ensures GetUserRole(old(store.Snapshot()), u) == Some(Member) ==>
      next == End && store.Snapshot() == FirstTimeCleared(old(store.Snapshot()), u)
    ensures GetUserRole(old(store.Snapshot()), u) == None ==>
      next == FamilyBudgetMenu && store.Snapshot() == old(store.Snapshot())
  {
    var role := GetUserRole(store.Snapshot(), u);
    if role == Some(Head) {
      next := FamilyBudgetActions;
    } else if role == Some(Member) {
      ShowMainMenu(store, u);
      next := End;
    } else {
      next := FamilyBudgetMenu;
    }
  }

  /** family_create: the typed text is the family name unless it is the
      cancel label; both ways end in the main menu. `shown` is the family id
      read back for the reply. */
  method FamilyCreateStep(store: Store, u: UserId, text: string, cancelLabel: string)
    returns (next: ConversationState, shown: Option<FamilyId>)
    requires store.Valid()
    modifies store
    ensures store.Valid() && next == End
    ensures text == cancelLabel ==>
      store.Snapshot() == FirstTimeCleared(old(store.Snapshot()), u) && shown == None
    ensures text != cancelLabel ==>
      && store.Snapshot() == FirstTimeCleared(CreatedFamily(old(store.Snapshot()), text, u), u)
      && shown == GetUserFamilyId(CreatedFamily(old(store.Snapshot()), text, u), u)
  {
    if text == cancelLabel {
      ShowMainMenu(store, u);
      return End, None;
    }
    var _ := store.CreateFamily(text, u);
    shown := GetUserFamilyId(store.Snapshot(), u);
    ShowMainMenu(store, u);
    next := End;
  }

  /** family_join: the typed text is a family id unless it is the cancel
      label; text that `int()` rejects joins nothing, and an id that
      `join_family` cannot bind as a 64-bit integer raises OverflowError,
      which is not caught and ends the handler before any write. */
  method FamilyJoinStep(store: Store, u: UserId, text: string, cancelLabel: string, parseInt: string -> Option<int>)
    returns (next: ConversationState)
    requires store.Valid()
    modifies store
    ensures store.Valid() && next == End
    ensures text == cancelLabel || parseInt(text) == None ==>
      store.Snapshot() == FirstTimeCleared(old(store.Snapshot()), u)
    ensures text != cancelLabel && parseInt(text).Some? && !FitsSqliteInteger(parseInt(text).value) ==>
      store.Snapshot() == old(store.Snapshot())
    ensures text != cancelLabel && parseInt(text).Some? && FitsSqliteInteger(parseInt(text).value) ==>
      store.Snapshot() == FirstTimeCleared(Joined(old(store.Snapshot()), u, parseInt(text).value), u)
  {
    if text == cancelLabel {
      ShowMainMenu(store, u);
      return End;
    }
    var f := parseInt(text);
    if f.Some? {
      if !FitsSqliteInteger(f.value) {
        return End;
      }
      store.JoinFamily(u, f.value);
    }
    ShowMainMenu(store, u);
    next := End;
  }

  /** family_budget_set_amount: cancel, re-ask on an amount that `float()`
      rejects, or set the amount as the budget of every member of the
      caller's family, one `set_user_budget` per member, and return to the
      main menu. */
  method FamilyBudgetSetAmountStep(store: Store, u: UserId, text: string, cancelLabel: string,
                                   parseFloat: string -> Option<real>)
    returns (next: ConversationState)
    requires store.Valid()
    modifies store
    ensures store.Valid()
    ensures text == cancelLabel ==>
      next == End && store.Snapshot() == FirstTimeCleared(old(store.Snapshot()), u)
    ensures text != cancelLabel && parseFloat(text) == None ==>
      next == FamilyBudgetSetAmount && store.Snapshot() == old(store.Snapshot())
    ensures text != cancelLabel && parseFloat(text).Some? ==>
      && next == End
      && store.Snapshot() == FirstTimeCleared(
           BudgetPropagated(old(store.Snapshot()), GetUserFamilyId(old(store.Snapshot()), u), parseFloat(text).value), u)
  {
    if text == cancelLabel {
      ShowMainMenu(store, u);
      return End;
    }
    var parsed := parseFloat(text);
    if parsed.None? {
      return FamilyBudgetSetAmount;
    }
    var amount := parsed.value;
    var f := GetUserFamilyId(store.Snapshot(), u);
    ghost var start := store.Snapshot();
    var members := FamilyMembers(store.Snapshot(), f);
    var remaining := members;
    while exists m :: m in remaining
      invariant remaining <= members
      invariant store.Valid()
      invariant store.Snapshot() == start.(users := store.users)
      invariant store.users.Keys == start.users.Keys
      invariant forall v :: v in store.users ==>
        store.users[v] == if v in members - remaining then start.users[v].(budget := amount) else start.users[v]
      decreases remaining
    {
      var m :| m in remaining;
      store.SetUserBudget(m, amount);
      remaining := remaining - {m};
    }
    ghost var target := BudgetPropagated(start, f, amount).users;
    forall v | v in store.users ensures store.users[v] == target[v] {
      assert v in members <==> IsFamilyMember(start.users[v], f);
    }
    assert store.users == target;
    ShowMainMenu(store, u);
    next := End;
  }
}
