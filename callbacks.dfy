/** The approval request sent to a family head: its inline-button callback
    data `approve_{type}_{id}_{member}` / `reject_{type}_{id}_{member}`,
    how that string is built and how it is split back, and the notice
    descriptor handed to the messaging layer. */
module Callbacks {
  import opened Schema

  // ---------------------------------------------------------------------
  // Decimal rendering of integers (Python's `str(int)`) and its parse
  // (Python's `int(str)` on the strings `str` produces).

  function DigitChar(d: nat): (c: char)
    requires d < 10
    ensures '0' <= c <= '9'
  {
    "0123456789"[d]
  }

  predicate IsDigit(c: char)
  {
    '0' <= c <= '9'
  }

  function DigitValue(c: char): (d: nat)
    requires IsDigit(c)
    ensures d < 10
  {
    (c as int) - ('0' as int)
  }

  function NatToString(n: nat): (s: string)
    ensures |s| >= 1
    ensures forall i :: 0 <= i < |s| ==> IsDigit(s[i])
  {
    if n < 10 then [DigitChar(n)] else NatToString(n / 10) + [DigitChar(n % 10)]
  }

  /** A minus sign for a negative number, then the digits of its magnitude. */
  function IntToString(i: int): (s: string)
    ensures |s| >= 1
    ensures s[0] == '-' <==> i < 0
    ensures forall k :: 1 <= k < |s| ==> IsDigit(s[k])
    ensures i >= 0 ==> IsDigit(s[0])
  {
    if i < 0 then "-" + NatToString(-i) else NatToString(i)
  }

  predicate AllDigits(s: string)
  {
    forall i :: 0 <= i < |s| ==> IsDigit(s[i])
  }

  /** The value of a run of decimal digits, most significant first. */
  function DigitsValue(s: string): (n: nat)
    requires AllDigits(s)
    decreases |s|
  {
    if s == [] then 0
    else DigitsValue(s[..|s| - 1]) * 10 + DigitValue(s[|s| - 1])
  }

  function ParseNat(s: string): (r: Option<nat>)
    ensures r.Some? <==> (s != [] && AllDigits(s))
  {
    if s != [] && AllDigits(s) then Some(DigitsValue(s)) else None
  }

  /** An optional minus sign followed by decimal digits. */
  function ParseInt(s: string): (r: Option<int>)
    ensures r.Some? <==> s != [] && (if s[0] == '-' then |s| > 1 && AllDigits(s[1..]) else AllDigits(s))
    ensures r.Some? && s[0] == '-' ==> r.value == -(DigitsValue(s[1..]) as int)
    ensures r.Some? && s[0] != '-' ==> r.value == DigitsValue(s)
  {
    if s != [] && s[0] == '-' then
      match ParseNat(s[1..])
      case Some(n) => Some(-(n as int))
      case None => None
    else
      match ParseNat(s)
      case Some(n) => Some(n)
      case None => None
  }

  lemma {:induction false} NatToStringValue(n: nat)
    ensures DigitsValue(NatToString(n)) == n
  {
    var s := NatToString(n);
    if n < 10 {
      assert s[..|s| - 1] == [];
    } else {
      NatToStringValue(n / 10);
      assert s[..|s| - 1] == NatToString(n / 10);
      assert s[|s| - 1] == DigitChar(n % 10);
    }
  }

  /** Every integer id reads back as itself. */
  lemma ParseIntToString(i: int)
    ensures ParseInt(IntToString(i)) == Some(i)
  {
    var s := IntToString(i);
    if i < 0 {
      var d := NatToString(-i);
      NatToStringValue(-i);
      assert s == "-" + d;
      assert s[0] == '-' && s[1..] == d;
      assert ParseNat(d) == Some(-i);
    } else {
      NatToStringValue(i);
      assert IsDigit(s[0]);
      assert ParseNat(s) == Some(i);
    }
  }

  lemma IntToStringHasNoSeparator(i: int)
    ensures '_' !in IntToString(i)
  {
    var d := NatToString(if i < 0 then -i else i);
    assert forall k :: 0 <= k < |d| ==> d[k] != '_';
  }

  // ---------------------------------------------------------------------
  // Python's `str.split(sep)` and `sep.join(parts)` for a one-character separator.

  /** Every separator starts a new part, so `k` separators give `k + 1` parts,
      the empty ones included. */
  function Split(s: string, sep: char): (parts: seq<string>)
    ensures |parts| >= 1
    ensures forall i :: 0 <= i < |parts| ==> sep !in parts[i]
    decreases |s|
  {
    if s == [] then [""]
    else
      var rest := Split(s[1..], sep);
      if s[0] == sep then [""] + rest
      else [[s[0]] + rest[0]] + rest[1..]
  }

  /** Every part but the last is followed by one separator, so the result
      holds no separator exactly when there is one separator-free part. */
  function Join(parts: seq<string>, sep: char): (s: string)
    requires |parts| >= 1
    ensures |s| >= |parts| - 1
    ensures sep !in s <==> |parts| == 1 && sep !in parts[0]
  {
    if |parts| == 1 then parts[0] else parts[0] + [sep] + Join(parts[1..], sep)
  }

  lemma {:induction false} SplitWithoutSeparator(s: string, sep: char)
    requires sep !in s
    ensures Split(s, sep) == [s]
  {
    if s != [] {
      SplitWithoutSeparator(s[1..], sep);
      assert [s[0]] + s[1..] == s;
    }
  }

  /** A leading separator-free part splits off on the first separator. */
  lemma {:induction false} SplitAtFirst(a: string, sep: char, b: string)
    requires sep !in a
    ensures Split(a + [sep] + b, sep) == [a] + Split(b, sep)
  {
    var s := a + [sep] + b;
    if a == [] {
      assert s[0] == sep && s[1..] == b;
    } else {
      assert s[0] == a[0];
      assert s[1..] == a[1..] + [sep] + b;
      SplitAtFirst(a[1..], sep, b);
      assert [a[0]] + a[1..] == a;
    }
  }

  /** Splitting undoes joining parts that hold no separator. */
  lemma {:induction false} SplitJoin(parts: seq<string>, sep: char)
    requires |parts| >= 1
    requires forall i :: 0 <= i < |parts| ==> sep !in parts[i]
    ensures Split(Join(parts, sep), sep) == parts
    decreases |parts|
  {
    if |parts| == 1 {
      SplitWithoutSeparator(parts[0], sep);
    } else {
      SplitJoin(parts[1..], sep);
      SplitAtFirst(parts[0], sep, Join(parts[1..], sep));
      assert [parts[0]] + parts[1..] == parts;
    }
  }

  /** Joining undoes splitting. */
  lemma {:induction false} JoinSplit(s: string, sep: char)
    ensures Join(Split(s, sep), sep) == s
    decreases |s|
  {
    if s != [] {
      JoinSplit(s[1..], sep);
      var rest := Split(s[1..], sep);
      if s[0] == sep {
        assert ([""] + rest)[1..] == rest;
        assert s == [sep] + s[1..];
      } else {
        var parts := [[s[0]] + rest[0]] + rest[1..];
        assert parts[1..] == rest[1..];
        if |rest| == 1 {
          assert s == [s[0]] + rest[0];
        } else {
          assert Join(rest, sep) == rest[0] + [sep] + Join(rest[1..], sep);
          assert s == [s[0]] + s[1..];
        }
      }
    }
  }

  /** `s.startswith(prefix)`. */
  predicate StartsWith(s: string, prefix: string)
    ensures StartsWith(s, prefix) <==> |prefix| <= |s| && forall i :: 0 <= i < |prefix| ==> s[i] == prefix[i]
  {
    |prefix| <= |s| && s[..|prefix|] == prefix
  }

  // ---------------------------------------------------------------------
  // The callback data itself.

  datatype Action = ApproveAction | RejectAction

  function ActionName(a: Action): string
  {
    match a
    case ApproveAction => "approve"
    case RejectAction => "reject"
  }

  /** `f'{action}_{transaction_type}_{transaction_id}_{member_id}'`. */
  function EncodeCallback(a: Action, k: Kind, id: TxId, member: UserId): (data: string)
    ensures StartsWith(data, ActionName(a) + "_")
  {
    var rest := KindName(k) + "_" + IntToString(id) + "_" + IntToString(member);
    Regroup(ActionName(a), KindName(k), IntToString(id), IntToString(member));
    StartsWithConcat(ActionName(a) + "_", rest);
    ActionName(a) + "_" + KindName(k) + "_" + IntToString(id) + "_" + IntToString(member)
  }

  /** The three fields unpacked from the callback data, still as text:
      handle_approval hands type and id to the store unparsed. */
  datatype Callback = Callback(action: Action, typeText: string, idText: string, memberText: string)

  /** handle_approval's dispatch: the prefix picks the action; the
      four-way unpacking of `data.split('_')` raises (no callback) unless
      there are exactly four parts. */
  function DecodeCallback(data: string): (r: Option<Callback>)
    ensures r.Some? ==> |Split(data, '_')| == 4
    ensures r.Some? ==> (r.value.action == ApproveAction <==> StartsWith(data, "approve_"))
    ensures !StartsWith(data, "approve_") && !StartsWith(data, "reject_") ==> r == None
    ensures |Split(data, '_')| == 4 && (StartsWith(data, "approve_") || StartsWith(data, "reject_")) ==>
      && r.Some?
      && r.value.typeText == Split(data, '_')[1]
      && r.value.idText == Split(data, '_')[2]
      && r.value.memberText == Split(data, '_')[3]
  {
    var parts := Split(data, '_');
    if |parts| != 4 then None
    else if StartsWith(data, "approve_") then Some(Callback(ApproveAction, parts[1], parts[2], parts[3]))
    else if StartsWith(data, "reject_") then Some(Callback(RejectAction, parts[1], parts[2], parts[3]))
    else None
  }

  lemma EncodeAsJoin(a: Action, k: Kind, id: TxId, member: UserId)
    ensures EncodeCallback(a, k, id, member)
         == Join([ActionName(a), KindName(k), IntToString(id), IntToString(member)], '_')
  {
    var p := [ActionName(a), KindName(k), IntToString(id), IntToString(member)];
    assert p[1..][1..][1..] == [IntToString(member)];
    assert Join(p[1..][1..], '_') == IntToString(id) + "_" + IntToString(member);
  }

  /** The encoded data always splits into exactly the four fields it was built from. */
  lemma {:induction false} EncodeSplitsIntoFour(a: Action, k: Kind, id: TxId, member: UserId)
    ensures Split(EncodeCallback(a, k, id, member), '_')
         == [ActionName(a), KindName(k), IntToString(id), IntToString(member)]
  {
    EncodeAsJoin(a, k, id, member);
    IntToStringHasNoSeparator(id);
    IntToStringHasNoSeparator(member);
    var p := [ActionName(a), KindName(k), IntToString(id), IntToString(member)];
    assert forall i :: 0 <= i < |p| ==> '_' !in p[i];
    SplitJoin(p, '_');
  }

  /** The data after the action word, shared by both buttons. */
  lemma EncodeSplitsAtAction(a: Action, k: Kind, id: TxId, member: UserId)
    ensures EncodeCallback(a, k, id, member)
         == ActionName(a) + ("_" + KindName(k) + "_" + IntToString(id) + "_" + IntToString(member))
    ensures EncodeCallback(a, k, id, member)
         == (ActionName(a) + "_") + (KindName(k) + "_" + IntToString(id) + "_" + IntToString(member))
  {
    Regroup(ActionName(a), KindName(k), IntToString(id), IntToString(member));
  }

  lemma Regroup(a: string, b: string, c: string, d: string)
    ensures a + "_" + b + "_" + c + "_" + d == (a + "_") + (b + "_" + c + "_" + d)
    ensures a + "_" + b + "_" + c + "_" + d == a + ("_" + b + "_" + c + "_" + d)
  {
  }

  lemma StartsWithConcat(head: string, rest: string)
    ensures StartsWith(head + rest, head)
  {
    assert (head + rest)[..|head|] == head;
  }

  lemma DifferentFirstChar(s: string, prefix: string)
    requires s != [] && prefix != [] && s[0] != prefix[0]
    ensures !StartsWith(s, prefix)
  {
  }

  lemma EncodeStartsWithAction(a: Action, k: Kind, id: TxId, member: UserId)
    ensures StartsWith(EncodeCallback(a, k, id, member), ActionName(a) + "_")
    ensures a == ApproveAction ==> !StartsWith(EncodeCallback(a, k, id, member), "reject_")
    ensures a == RejectAction ==> !StartsWith(EncodeCallback(a, k, id, member), "approve_")
  {
    var s := EncodeCallback(a, k, id, member);
    var head := ActionName(a) + "_";
    var rest := KindName(k) + "_" + IntToString(id) + "_" + IntToString(member);
    EncodeSplitsAtAction(a, k, id, member);
    StartsWithConcat(head, rest);
    assert s[0] == head[0];
    if a == ApproveAction {
      DifferentFirstChar(s, "reject_");
    } else {
      DifferentFirstChar(s, "approve_");
    }
  }

  /** Decoding the encoded data gives back the action, the type, the id
      and the member it was made from. */
  lemma CallbackRoundTrip(a: Action, k: Kind, id: TxId, member: UserId)
    ensures DecodeCallback(EncodeCallback(a, k, id, member)).Some?
    ensures var cb := DecodeCallback(EncodeCallback(a, k, id, member)).value;
      && cb.action == a
      && KindOf(cb.typeText) == Some(k)
      && ParseInt(cb.idText) == Some(id)
      && ParseInt(cb.memberText) == Some(member)
  {
    EncodeSplitsIntoFour(a, k, id, member);
    EncodeStartsWithAction(a, k, id, member);
    ParseIntToString(id);
    ParseIntToString(member);
  }

  /** The approve and reject buttons of one request differ only in the
      action word in front. */
  lemma ButtonsShareFields(k: Kind, id: TxId, member: UserId)
    ensures var ap := EncodeCallback(ApproveAction, k, id, member);
            var rj := EncodeCallback(RejectAction, k, id, member);
      && ap[|"approve"|..] == rj[|"reject"|..]
      && ap[..|"approve"|] == "approve" && rj[..|"reject"|] == "reject"
  {
    EncodeSplitsAtAction(ApproveAction, k, id, member);
    EncodeSplitsAtAction(RejectAction, k, id, member);
  }

  // ---------------------------------------------------------------------
  // Notices for the messaging layer.

  /** What the transport is asked to deliver; delivery itself is not modelled. */
  datatype Notice =
    | ApprovalRequest(recipient: UserId, kind: Kind, approveData: string, rejectData: string)
    | DecisionNotice(recipient: UserId, approved: bool)

  /** notify_family_head: look up the family's head; without a family row
      nothing is sent, otherwise the head gets the two buttons. */
  function NotifyFamilyHead(families: map<FamilyId, Family>, familyId: FamilyId, txId: TxId, kind: Kind, member: UserId)
    : (r: Option<Notice>)
    ensures r.Some? <==> familyId in families
    ensures r.Some? ==> r.value.ApprovalRequest? && r.value.recipient == families[familyId].headId
  {
    if familyId in families then
      Some(ApprovalRequest(families[familyId].headId, kind,
                           EncodeCallback(ApproveAction, kind, txId, member),
                           EncodeCallback(RejectAction, kind, txId, member)))
    else None
  }

  /** Both buttons of a request decode to the request's own type, row and
      member, with the action their label says. */
  lemma ApprovalRequestButtons(families: map<FamilyId, Family>, familyId: FamilyId, txId: TxId, kind: Kind, member: UserId)
    requires familyId in families
    ensures var n := NotifyFamilyHead(families, familyId, txId, kind, member).value;
      && DecodeCallback(n.approveData) == Some(Callback(ApproveAction, KindName(kind), IntToString(txId), IntToString(member)))
      && DecodeCallback(n.rejectData) == Some(Callback(RejectAction, KindName(kind), IntToString(txId), IntToString(member)))
  {
    EncodeSplitsIntoFour(ApproveAction, kind, txId, member);
    EncodeStartsWithAction(ApproveAction, kind, txId, member);
    EncodeSplitsIntoFour(RejectAction, kind, txId, member);
    EncodeStartsWithAction(RejectAction, kind, txId, member);
  }
}
