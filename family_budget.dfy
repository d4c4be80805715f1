/** handle_approval: the head pressed one of the two buttons of an approval
    request; the callback data says which row to approve or delete and
    which member to tell. */
module FamilyBudget {
  import opened Schema
  import opened Callbacks
  import opened Ledger

  /** The tables after the button press. The type and id go to the store
      as text; an id that is not an integer matches no row. */
  function AfterCallback(db: Db, data: string): (r: Db)
    ensures DecodeCallback(data) == None ==> r == db
    ensures !StartsWith(data, "approve_") && !StartsWith(data, "reject_") ==> r == db
  {
    match DecodeCallback(data)
    case None => db
    case Some(cb) =>
      match ParseInt(cb.idText)
      case None => db
      case Some(id) =>
        match cb.action
        case ApproveAction => Approved(db, id, cb.typeText)
        case RejectAction => Rejected(db, id, cb.typeText)
  }

  /** The message to the member, sent after the store call; `int(member_id)`
      failing raises before it is sent. */
  function CallbackNotice(data: string): (n: Option<Notice>)
    ensures n.Some? ==> DecodeCallback(data).Some? && n.value.DecisionNotice?
    ensures n.Some? ==> (n.value.approved <==> StartsWith(data, "approve_"))
  {
    match DecodeCallback(data)
    case None => None
    case Some(cb) =>
      match ParseInt(cb.memberText)
      case None => None
      case Some(m) => Some(DecisionNotice(m, cb.action == ApproveAction))
  }

  method HandleApproval(store: Store, data: string) returns (notice: Option<Notice>)
    requires store.Valid()
    modifies store
    ensures store.Valid()
    ensures store.Snapshot() == AfterCallback(old(store.Snapshot()), data)
    ensures notice == CallbackNotice(data)
  {
    notice := None;
    var cb := DecodeCallback(data);
    if cb.Some? {
      var id := ParseInt(cb.value.idText);
      if id.Some? {
        if cb.value.action == ApproveAction {
          store.ApproveTransaction(id.value, cb.value.typeText);
        } else {
          store.RejectTransaction(id.value, cb.value.typeText);
        }
      }
      var member := ParseInt(cb.value.memberText);
      if member.Some? {
        notice := Some(DecisionNotice(member.value, cb.value.action == ApproveAction));
      }
    }
  }

  /** Pressing approve on a request approves its row and tells its member. */
  lemma ApproveButtonApproves(db: Db, k: Kind, id: TxId, member: UserId)
    ensures AfterCallback(db, EncodeCallback(ApproveAction, k, id, member)) == Approved(db, id, KindName(k))
    ensures CallbackNotice(EncodeCallback(ApproveAction, k, id, member)) == Some(DecisionNotice(member, true))
  {
    CallbackRoundTrip(ApproveAction, k, id, member);
  }

  /** Pressing reject on a request deletes its row and tells its member. */
  lemma RejectButtonDeletes(db: Db, k: Kind, id: TxId, member: UserId)
    ensures AfterCallback(db, EncodeCallback(RejectAction, k, id, member)) == Rejected(db, id, KindName(k))
    ensures CallbackNotice(EncodeCallback(RejectAction, k, id, member)) == Some(DecisionNotice(member, false))
  {
    CallbackRoundTrip(RejectAction, k, id, member);
  }

  /** A second press of the same button leaves the tables as the first left them. */
  lemma SecondPressIsNoop(db: Db, data: string)
    ensures AfterCallback(AfterCallback(db, data), data) == AfterCallback(db, data)
  {
    match DecodeCallback(data)
    case None =>
    case Some(cb) =>
      match ParseInt(cb.idText)
      case None =>
      case Some(id) =>
        if cb.action == ApproveAction {
          ApproveIdempotent(db, id, cb.typeText);
        } else {
          AfterRejectNoop(db, id, cb.typeText);
        }
  }

  /** Approving after the head already rejected (or rejecting again) finds no row. */
  lemma ApproveAfterRejectIsNoop(db: Db, k: Kind, id: TxId, member: UserId)
    ensures var r := AfterCallback(db, EncodeCallback(RejectAction, k, id, member));
      && AfterCallback(r, EncodeCallback(ApproveAction, k, id, member)) == r
      && AfterCallback(r, EncodeCallback(RejectAction, k, id, member)) == r
  {
    RejectButtonDeletes(db, k, id, member);
    var r := Rejected(db, id, KindName(k));
    ApproveButtonApproves(r, k, id, member);
    RejectButtonDeletes(r, k, id, member);
    AfterRejectNoop(db, id, KindName(k));
  }
}
