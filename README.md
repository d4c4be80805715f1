# Family budget ledger — a Dafny model

This project models the core of a Telegram bot that keeps incomes, expenses and budgets for a family. Each user has one row. A user can create a family, which makes them its head, or join one as a member.

A member's income or expense is stored pending. `notify_family_head` then tries to send the family head an approval request with two inline buttons; as written that send always fails (see below). Pressing approve on such a request marks the row approved. Pressing reject deletes it.

The head can also set one budget for every member of the family. Comments are sanitised before they are stored.

The model has six modules:

- `Schema` (`schema.dfy`) holds the table rows (`User`, `Family`, `Transaction`) and the two transaction kinds.
- `Utilities` (`utilities.dfy`) holds `sanitize_comment`: take the first 200 characters, then keep the printable ones.
- `Callbacks` (`callbacks.dfy`) holds the button callback data `approve_{type}_{id}_{member}` / `reject_{type}_{id}_{member}`, which is built by `notify_family_head` and split on `_` by `handle_approval`. It also defines the decimal form of ids and the approval request as an emitted `Notice`.
- `Ledger` (`ledger.dfy`) holds the SQLite store:
  - `Db` is the content of the `users`, `incomes`, `expenses` and `families` tables, with their AUTOINCREMENT counters;
  - one function per write gives the tables that write leaves behind;
  - the lemmas state the store's rules;
  - `class Store` performs the writes in place on map fields; each method is proved to leave exactly the state given by its function.
- `FamilyBudget` (`family_budget.dfy`) holds `handle_approval`: decode the pressed button, approve or delete the row, and tell the member.
- `Handlers` (`handlers.dfy`) holds the conversation steps:
  - the role routing of the family budget button;
  - the cancel and parse guards of family creation and family joining;
  - the one store write of the main menu that these steps return to (clearing a first-time user's flag);
  - the loop that sets each family member's budget, one `set_user_budget` call per member.

Design choices:

- Amounts are `real`. Timestamps and ids are `int`. A NULL column is `None`.
- `int()` and `float()` in the handlers are function parameters that return a value or a failure. The cancel button's localised label is a parameter too.
- The approval request is returned as a `Notice` value. It is not delivered.

The model follows the code on two points where a stricter design is conceivable:

- `create_family` accepts any name, including an empty one.
- `approve_transaction` / `reject_transaction` do not check that the caller heads the row's family. Any callback data that reaches `handle_approval` is acted on.

The implementation also reads the bot handle from the `CallbackContext` class instead of a context object (`family_budget.py:35`). So the request delivery in `notify_family_head` goes into its exception handler and is only logged. The model stops at the request that is asked for.

## Model

| member | source | states |
|---|---|---|
| Schema.KindOf | db_functions.py:237-240 | only the texts "income" and "expense" name a table, and each names its own kind |
| Utilities.Take | utilities.py:38 | `comment[:200]` is the prefix of the comment of length 200, or the whole comment when it is shorter |
| Utilities.IsPrintable | utilities.py:40 | ASCII control characters are not printable and every other ASCII character is |
| Utilities.KeepPrintable | utilities.py:40 | the filtered string is no longer than the input and every character in it is printable |
| Utilities.SanitizeComment | utilities.py:35-41 | the sanitised comment has at most 200 characters, all printable |
| Utilities.KeepPrintableIsSubsequence | utilities.py:40 | the filter keeps characters in their original order (an order-preserving subsequence) |
| Utilities.KeepPrintableCounts | utilities.py:40 | every printable character survives as often as it occurs; no non-printable one survives |
| Utilities.KeepPrintableLength | utilities.py:40 | the output length is the number of printable characters of the input |
| Utilities.KeepPrintableOfPrintable | utilities.py:40 | an all-printable string passes the filter unchanged |
| Utilities.SanitizeIsFilteredPrefix | utilities.py:37-40 | the result is exactly the printable characters of `comment[:200]`, in order, with their multiplicities and count |
| Utilities.SanitizeKeepsCleanComment | utilities.py:38-41 | a comment of at most 200 printable characters is stored as typed |
| Utilities.SanitizeIdempotent | utilities.py:35-41 | sanitising twice equals sanitising once |
| Callbacks.IntToString | family_budget.py:26-27 | an id is written as a minus sign exactly when it is negative, followed by decimal digits only |
| Callbacks.NatToStringValue | family_budget.py:26-27 | the decimal digits written for an id read back as the same number |
| Callbacks.ParseIntToString | family_budget.py:26-27 | every integer id written into callback data parses back to itself |
| Callbacks.IntToStringHasNoSeparator | family_budget.py:26-27 | an id's text contains no `_`, so it cannot shift the split |
| Callbacks.ParseInt | family_budget.py:52 | a text parses exactly when it is an optional `-` followed by at least one ASCII digit, and its value is that of the digits, negated after a `-` |
| Callbacks.Split | family_budget.py:48 | `str.split('_')` returns at least one part and no part contains the separator |
| Callbacks.Join | family_budget.py:26-27 | joining puts one separator between parts, so the result has no separator exactly when it is one separator-free part |
| Callbacks.SplitJoin | family_budget.py:48 | splitting the join of separator-free parts gives back those parts |
| Callbacks.JoinSplit | family_budget.py:48 | joining the parts of a split gives back the string |
| Callbacks.DecodeCallback | family_budget.py:47-55 | data decodes exactly when it splits into 4 parts and starts with `approve_` or `reject_`; the type, id and member texts are the second, third and fourth parts; the action is approve exactly when the prefix is `approve_` |
| Callbacks.StartsWith | family_budget.py:47 | `startswith` holds exactly when the prefix fits and agrees with the string character by character |
| Callbacks.EncodeCallback | family_budget.py:26-27 | the data of a button starts with its action word followed by `_` |
| Callbacks.EncodeSplitsIntoFour | family_budget.py:26-27 | the callback data splits into exactly the four fields it was built from |
| Callbacks.EncodeStartsWithAction | family_budget.py:26-27 | approve data starts with `approve_` and not `reject_`, and reject data the other way round |
| Callbacks.CallbackRoundTrip | family_budget.py:26-27 | decoding the data of a button gives back its action, type, row id and member id |
| Callbacks.ButtonsShareFields | family_budget.py:26-27 | the two buttons of one request carry the same type, id and member and differ only in the action word |
| Callbacks.NotifyFamilyHead | family_budget.py:11-38 | a request is produced exactly when the family has a row, and it goes to that family's head |
| Callbacks.ApprovalRequestButtons | family_budget.py:24-28 | the buttons of a request decode to the request's own kind, row and member |
| Ledger.GetUserLanguage | db_functions.py:80-89 | the user's language, or None for an unknown user |
| Ledger.IsFirstTimeUser | db_functions.py:112-121 | the first-time flag, and True for an unknown user |
| Ledger.GetUserRole | db_functions.py:124-133 | the user's role, or None for an unknown user |
| Ledger.GetUserFamilyId | db_functions.py:136-145 | the user's family id, or None for an unknown user |
| Ledger.GetFamilyHeadId | db_functions.py:256-265 | a head id exactly when the family has a row |
| Ledger.GetUserBudget | db_functions.py:268-277 | the user's budget, or 0 for an unknown user |
| Ledger.LanguageSet | db_functions.py:92-109 | an existing row gets the language and first_time cleared; otherwise a new row is inserted with first_time set and default columns; no other user changes |
| Ledger.CreatedFamily | db_functions.py:148-157 | the family goes in under a fresh id with the creator as head; the creator's row, if any, points at it as head; nothing else changes; the AUTOINCREMENT invariant is kept |
| Ledger.Joined | db_functions.py:160-165 | the user's row points at the family as member; no other row changes; an unknown user changes nothing |
| Ledger.FitsSqliteInteger | db_functions.py:163 | the ids SQLite can bind are exactly the signed 64-bit integers |
| Ledger.NeedsApproval | db_functions.py:176-179 | an entry waits for approval exactly when its owner has a row whose role is member and whose family id is set |
| Ledger.NewRow | db_functions.py:174-192 | the inserted row records the owner, time, entry, sanitised comment and family read at save time; it is pending exactly for a member with a family |
| Ledger.Saved | db_functions.py:168-195 | the new row goes in under the table's next id; the other table, users and families are unchanged |
| Ledger.Approved | db_functions.py:234-242 | row `id` of the named table is marked approved; every other row, the other table and the rest of the store are unchanged; an unknown type changes nothing |
| Ledger.Rejected | db_functions.py:245-253 | row `id` is removed from the named table; everything else is unchanged |
| Ledger.BudgetSet | db_functions.py:280-285 | one user's budget is overwritten and no other user changes |
| Ledger.BudgetReduced | db_functions.py:288-295 | a known user's budget drops by the amount and their other columns stay; an unknown user changes nothing; no other user, table or counter changes |
| Ledger.RowNotice | db_functions.py:196-198 | a request is asked for only when the new row is stored pending |
| Ledger.ReportRows | report_generation.py:16-34 | a report reads only approved rows: the family's rows when the family id is set and non-zero, the user's own otherwise |
| Ledger.WellFormedTables | db_functions.py:7-77 | every stored id is at least 1 and below its table's counter |
| Ledger.SavedKeepsWellFormed | db_functions.py:180-193 | inserting a row keeps the AUTOINCREMENT invariant |
| Ledger.ApprovedKeepsWellFormed | db_functions.py:234-242 | approving keeps the AUTOINCREMENT invariant |
| Ledger.RejectedKeepsWellFormed | db_functions.py:245-253 | deleting keeps the AUTOINCREMENT invariant |
| Ledger.UserWritesKeepWellFormed | db_functions.py:92-165 | the user and family writes keep the AUTOINCREMENT invariant |
| Ledger.SavedRowIsNew | db_functions.py:180-193 | the saved row overwrites nothing and the table grows by exactly one row |
| Ledger.SavedPendingIffMember | db_functions.py:175-179 | the new row is pending exactly when its owner is a member with a family; a head or an unknown user gets an approved row |
| Ledger.SaveNoticeIffPending | db_functions.py:193-198 | the head is asked exactly when the new row is pending and its family has a row; the request's buttons name the new row and its owner |
| Ledger.ApprovedSaveSendsNothing | db_functions.py:196-198 | a row stored approved produces no request |
| Ledger.ApproveIdempotent | db_functions.py:234-242 | approving twice equals approving once |
| Ledger.ApproveMissingIsNoop | db_functions.py:234-242 | approving a missing row or an unknown type changes nothing |
| Ledger.RejectRemovesOneRow | db_functions.py:245-253 | rejecting removes exactly that one row and keeps every other row of the table |
| Ledger.AfterRejectNoop | db_functions.py:245-253 | after a rejection, rejecting or approving the same row again changes nothing |
| Ledger.RejectedIdNotReused | db_functions.py:193 | a deleted row id is never handed out again |
| Ledger.ReportsShowApprovedOnly | report_generation.py:19-26 | a pending family row is missing from the head's report until it is approved, then it appears |
| Ledger.ReduceLowersBudget | db_functions.py:288-295 | reducing a known user's budget leaves the whole store as before except that budget, lowered by exactly the amount |
| Ledger.LanguageFirstTime | db_functions.py:92-121 | after the first language choice the user is marked first-time; any later choice clears the flag; the language is stored |
| Ledger.CreateFamilyMakesHead | db_functions.py:148-157 | the creator becomes head of the new family, and the family's head id is the creator |
| Ledger.CreateFamilyOverwrites | db_functions.py:148-157 | without a user row the family is still inserted and no user changes; an earlier family is overwritten |
| Ledger.JoinWithoutCheck | db_functions.py:160-165 | joining makes a known user a member of any family id, whether or not it exists; an unknown user changes nothing |
| Ledger.FirstTimeCleared | handlers.py:108-112 | only the user's first_time flag is cleared; every other row, column and table is unchanged; an unknown user changes nothing |
| Ledger.FirstTimeClearedNoopWhenReturning | handlers.py:103-112 | for a returning user, or one without a row, the greeting write changes nothing; clearing twice is clearing once |
| Ledger.FamilyApprovalScenario | db_functions.py:148-242 | create, join and save leave the member's expense pending with a request to the head, and approving it makes it approved |
| Ledger.Store.constructor | db_functions.py:7-77 | a new store has four empty tables and the counters at 1 |
| Ledger.Store.SetUserLanguage | db_functions.py:92-109 | the store becomes `LanguageSet` of its old state |
| Ledger.Store.CreateFamily | db_functions.py:148-157 | returns a fresh family id; the store becomes `CreatedFamily` of its old state |
| Ledger.Store.JoinFamily | db_functions.py:160-165 | the store becomes `Joined` of its old state |
| Ledger.Store.SaveIncome | db_functions.py:168-198 | the store becomes `Saved` of its old state; the emitted request is the one the stored row asks for |
| Ledger.Store.SaveExpense | db_functions.py:201-231 | the store becomes `Saved` of its old state; the emitted request is the one the stored row asks for |
| Ledger.Store.Save | db_functions.py:168-198 | the shared save: insert under the next id, then emit a request only for a pending row |
| Ledger.Store.ApproveTransaction | db_functions.py:234-242 | the store becomes `Approved` of its old state |
| Ledger.Store.RejectTransaction | db_functions.py:245-253 | the store becomes `Rejected` of its old state |
| Ledger.Store.ClearFirstTime | handlers.py:108-112 | the store becomes `FirstTimeCleared` of its old state |
| Ledger.Store.SetUserBudget | db_functions.py:280-285 | the store becomes `BudgetSet` of its old state |
| Ledger.Store.ReduceUserBudget | db_functions.py:288-295 | a read followed by a write; the store becomes `BudgetReduced` of its old state |
| FamilyBudget.AfterCallback | family_budget.py:41-61 | data that does not decode, or starts with neither prefix, leaves the store unchanged |
| FamilyBudget.CallbackNotice | family_budget.py:51-60 | a member is told only when the data decodes, and the message says approved exactly for `approve_` data |
| FamilyBudget.HandleApproval | family_budget.py:41-61 | the store becomes `AfterCallback` of its old state, and the member notice is `CallbackNotice` of the data |
| FamilyBudget.ApproveButtonApproves | family_budget.py:47-53 | pressing a request's approve button approves its row and tells its member "approved" |
| FamilyBudget.RejectButtonDeletes | family_budget.py:54-60 | pressing a request's reject button deletes its row and tells its member "rejected" |
| FamilyBudget.SecondPressIsNoop | family_budget.py:41-61 | pressing the same button twice leaves the tables as the first press left them |
| FamilyBudget.ApproveAfterRejectIsNoop | family_budget.py:47-60 | after reject, both buttons of the same request find no row and change nothing |
| Handlers.FamilyMembers | handlers.py:623-627 | the queried users are exactly those whose row has the caller's family id and role member |
| Handlers.BudgetPropagated | handlers.py:620-630 | only the users table changes, and it keeps its keys |
| Handlers.PropagatedMembersGetAmount | handlers.py:621-629 | every member of the family ends with a budget of exactly the amount |
| Handlers.PropagatedOthersUnchanged | handlers.py:623-629 | the head, members of other families and users without a family keep their row |
| Handlers.PropagatedWithoutFamilyIsNoop | handlers.py:622-629 | a caller with no family changes no one |
| Handlers.PropagatedKeepsWellFormed | handlers.py:620-630 | setting the budgets keeps the store invariant |
| Handlers.ShowMainMenu | handlers.py:93-115 | the main menu's store effect is exactly `FirstTimeCleared`: a first-time user's flag is cleared, nothing else changes |
| Handlers.FamilyBudgetStart | handlers.py:490-523 | a head goes to the budget actions and a user without a role to the create-or-join menu, both with the store unchanged; a member ends the conversation after the main menu's flag write |
| Handlers.FamilyCreateStep | handlers.py:557-569 | the cancel label changes nothing but the main menu's first_time write; any other text creates the family, reads back its id, then returns to the main menu; both end the conversation |
| Handlers.FamilyJoinStep | handlers.py:571-588 | the cancel label or text that is not an integer changes nothing but the main menu's first_time write; an integer outside SQLite's 64-bit range changes nothing at all; any other integer joins that family, then returns to the main menu |
| Handlers.FamilyBudgetSetAmountStep | handlers.py:613-639 | cancel changes nothing but the main menu's first_time write, and ends; an amount that does not parse changes nothing and asks again; a parsed amount leaves the store as `BudgetPropagated` of its old state, one `set_user_budget` per member, followed by the main menu's write |

## Left out

- Telegram transport: sending and deleting messages, inline and reply keyboards, `query.answer`, and the job-queue timers. The conversation states appear only as return values.
- Localisation: the `languages` tables and their labels. A missing language entry would raise a `KeyError`, and the model ignores that path. The cancel label is a parameter.
- Delivery of the approval request and of the member notice (`family_budget.py:34-38`, `family_budget.py:53`, `family_budget.py:60`). Both are modelled as returned `Notice` values.
- `report_generation.py` beyond the row selection of `create_report`: the DataFrames, charts, date windows and sums.
- `main.py`: handler registration and polling only.
- The schema creation and column migration of `init_db` (`db_functions.py:7-77`). The model starts from empty tables. `WellFormed` states the AUTOINCREMENT guarantee that ids only grow.
- Concurrency: every write is one atomic sequential step. `ReduceUserBudget` keeps the read and the write as two steps inside one call.
- `datetime.now()`: the timestamp is a parameter.
- Floating point: amounts and budgets are exact reals.
- Utilities.IsPrintable: an approximation of Python's `str.isprintable`. It is exact on Latin-1 and on the common format, separator and private-use blocks. Other unassigned or format code points count as printable.
- Callbacks.ParseInt: `int()` on the member id, and SQLite's text-to-integer comparison on the row id, are modelled as an optional `-` followed by ASCII digits. Surrounding whitespace, a `+` sign, `_` digit groups and non-ASCII digits are not accepted, although Python and SQLite accept some of them. Nor are real-number texts such as `5.0` or `5e0`, which SQLite's numeric comparison `id = ?` matches to row 5. The ids that `notify_family_head` writes are always in the accepted form (`Callbacks.ParseIntToString`).
- FamilyBudget.HandleApproval: an exception raised after the store call ends the handler. The member notice is then absent, while the store change stays. Later steps such as `delete_previous_bot_message` are not modelled.
- Handlers.ShowMainMenu: only its store write is modelled; the keyboard and the greeting text are transport.
- Handlers.FamilyJoinStep and Handlers.FamilyBudgetSetAmountStep: `int()` and `float()` are parameters, so which texts parse is not modelled.
- Handlers.FamilyJoinStep: for an id outside the 64-bit range the handler ends with an uncaught OverflowError and returns no conversation state; the model leaves the store unchanged and returns `End`. `Ledger.Joined` and `Ledger.Store.JoinFamily` describe the update for ids that can be bound; their only caller never passes another.
- The other handlers in `handlers.py` (menus, income and expense entry, reports) are outside the modelled core.
