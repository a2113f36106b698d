/** The wallet flow: a user's wallet log rows, each joined with the order it
    refers to and with the other party of that order. */
module Wallet {
  import opened Wrappers
  import opened Tables
  import opened Schema

  /** A row of the flow listing: the log's own columns, the related order's
      number, and the nickname and avatar of the other party. A column the
      left joins find nothing for is None. */
  datatype FlowRow = FlowRow(
    id: Id,
    userId: Id,
    kind: string,
    amount: Cents,
    relatedId: Option<Id>,
    createdAt: int,
    orderNo: Option<string>,
    otherNickname: Option<string>,
    otherAvatar: Option<string>)

  /** The order a log refers to, when `related_id` names one. */
  function RelatedOrder(db: Db, log: WalletLog): (r: Option<Order>)
    ensures r.Some? <==> log.relatedId.Some? && log.relatedId.value in db.orders
    ensures r.Some? ==> r.value == db.orders[log.relatedId.value]
  {
    if log.relatedId.Some? && log.relatedId.value in db.orders then Some(db.orders[log.relatedId.value])
    else None
  }

  /** The CASE expression of the join: the companion when the log's owner
      placed the related order, the client when the owner served it, and no
      one otherwise (no related order, or the owner is neither party). */
  function Counterpart(db: Db, log: WalletLog): (r: Option<Id>)
    ensures r.Some? ==> RelatedOrder(db, log).Some?
    ensures r.Some? ==> var o := RelatedOrder(db, log).value;
      (o.clientId == log.userId && r.value == o.companionId) || (o.companionId == log.userId && r.value == o.clientId)
    ensures RelatedOrder(db, log).Some? ==> var o := RelatedOrder(db, log).value;
      (o.clientId == log.userId || o.companionId == log.userId) ==> r.Some?
  {
    match RelatedOrder(db, log)
    case None => None
    case Some(o) =>
      if o.clientId == log.userId then Some(o.companionId)
      else if o.companionId == log.userId then Some(o.clientId)
      else None
  }

  /** One log joined with its order and its counterpart. */
  function Row(db: Db, log: WalletLog): (r: FlowRow)
    ensures r.id == log.id && r.userId == log.userId && r.kind == log.kind && r.amount == log.amount
    ensures r.relatedId == log.relatedId && r.createdAt == log.createdAt
    ensures r.orderNo.Some? <==> RelatedOrder(db, log).Some?
    ensures r.orderNo.Some? ==> r.orderNo.value == RelatedOrder(db, log).value.orderNo
    ensures r.otherNickname.Some? <==> Counterpart(db, log).Some? && Counterpart(db, log).value in db.users
    ensures r.otherNickname.Some? ==> r.otherNickname.value == db.users[Counterpart(db, log).value].nickname
    ensures r.otherAvatar.Some? <==> r.otherNickname.Some?
    ensures r.otherAvatar.Some? ==> r.otherAvatar.value == db.users[Counterpart(db, log).value].avatar
  {
    var order := RelatedOrder(db, log);
    var other := Counterpart(db, log);
    var user := if other.Some? && other.value in db.users then Some(db.users[other.value]) else None;
    FlowRow(log.id, log.userId, log.kind, log.amount, log.relatedId, log.createdAt,
            if order.Some? then Some(order.value.orderNo) else None,
            if user.Some? then Some(user.value.nickname) else None,
            if user.Some? then Some(user.value.avatar) else None)
  }

  function LogStamp(l: WalletLog): int { l.createdAt }

  /** Joins every log of a sequence. */
  function Rows(db: Db, logs: seq<WalletLog>): (r: seq<FlowRow>)
    ensures |r| == |logs|
    ensures forall i :: 0 <= i < |logs| ==> r[i] == Row(db, logs[i])
  {
    seq(|logs|, i requires 0 <= i < |logs| => Row(db, logs[i]))
  }

  /** The ids of the caller's logs. */
  function OwnLogs(db: Db, caller: Id): set<Id>
  {
    set k | k in db.walletLogs && db.walletLogs[k].userId == caller
  }

  /** getWalletFlowList: one row per log of the caller and no other, newest
      first. */
  function Flow(db: Db, caller: Id): (r: seq<FlowRow>)
    ensures |r| == |OwnLogs(db, caller)|
    ensures forall l :: l in db.walletLogs.Values && l.userId == caller ==> Row(db, l) in r
    ensures forall i :: 0 <= i < |r| ==> r[i].userId == caller
    ensures forall i :: 0 <= i < |r| ==> FromOwnLog(db, caller, r[i])
    ensures forall i, j :: 0 <= i < j < |r| ==> r[i].createdAt >= r[j].createdAt
  {
    var logs := Query(db.walletLogs, (l: WalletLog) => l.userId == caller, LogStamp);
    assert Matching(db.walletLogs, (l: WalletLog) => l.userId == caller) == OwnLogs(db, caller);
    JoinedLogs(db, caller, logs);
    Rows(db, logs)
  }

  /** `row` is the joined row of one of the caller's logs. */
  predicate FromOwnLog(db: Db, caller: Id, row: FlowRow)
  {
    exists k :: k in OwnLogs(db, caller) && row == Row(db, db.walletLogs[k])
  }

  lemma JoinedLogs(db: Db, caller: Id, logs: seq<WalletLog>)
    requires forall l :: l in logs <==> l in db.walletLogs.Values && l.userId == caller
    requires NewestFirstOrdered(logs, LogStamp)
    ensures var r := Rows(db, logs);
      && (forall l :: l in db.walletLogs.Values && l.userId == caller ==> Row(db, l) in r)
      && (forall i :: 0 <= i < |r| ==> r[i].userId == caller)
      && (forall i :: 0 <= i < |r| ==> FromOwnLog(db, caller, r[i]))
      && (forall i, j :: 0 <= i < j < |r| ==> r[i].createdAt >= r[j].createdAt)
  {
    var r := Rows(db, logs);
    forall l | l in db.walletLogs.Values && l.userId == caller ensures Row(db, l) in r {
      var i :| 0 <= i < |logs| && logs[i] == l;
      assert r[i] == Row(db, l);
    }
    forall i | 0 <= i < |r| ensures r[i].userId == caller && FromOwnLog(db, caller, r[i]) {
      assert logs[i] in logs;
      HasKey(db.walletLogs, logs[i]);
      var k :| k in db.walletLogs && db.walletLogs[k] == logs[i];
      assert k in OwnLogs(db, caller) && r[i] == Row(db, db.walletLogs[k]);
    }
    forall i, j | 0 <= i < j < |r| ensures r[i].createdAt >= r[j].createdAt {
      assert LogStamp(logs[i]) >= LogStamp(logs[j]);
    }
  }

  /** For an order between two different users, the client's log names the
      companion and the companion's log names the client: each side of an
      order sees the other. */
  lemma CounterpartsSwap(db: Db, mine: WalletLog, theirs: WalletLog)
    requires mine.relatedId.Some? && mine.relatedId == theirs.relatedId && mine.relatedId.value in db.orders
    requires var o := db.orders[mine.relatedId.value];
      o.clientId != o.companionId && mine.userId == o.clientId && theirs.userId == o.companionId
    ensures Counterpart(db, mine) == Some(theirs.userId)
    ensures Counterpart(db, theirs) == Some(mine.userId)
  {
  }

  /** A counterpart is never a stranger: it and the log's owner are exactly the
      two parties of the related order. */
  lemma CounterpartIsParty(db: Db, log: WalletLog)
    requires Counterpart(db, log).Some?
    ensures var o := db.orders[log.relatedId.value];
      {log.userId, Counterpart(db, log).value} == {o.clientId, o.companionId}
  {
  }
}
