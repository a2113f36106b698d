/** The rows of the marketplace's tables and the outcome of a request handler.
    Money (balances, order and refund amounts, listing prices) is in integer
    cents, the DECIMAL(10,2) columns scaled by 100; an order's duration is in
    hundredths of an hour, its DECIMAL(5,2) column scaled likewise. Timestamps
    are whatever the clock gave the handler, as integers. */
module Schema {
  import opened Wrappers

  type Id = int
  type Cents = int

  /** Order lifecycle: pending -> accepted -> completed, pending -> cancelled. */
  datatype OrderStatus = Pending | Accepted | Completed | Cancelled

  datatype Order = Order(
    id: Id,
    orderNo: string,
    clientId: Id,        // the `user_id` column: who placed the order
    companionId: Id,
    gameId: Id,
    amount: Cents,
    duration: int,       // hundredths of an hour
    remark: Option<string>,
    status: OrderStatus,
    completedAt: Option<int>,
    rating: Option<int>,
    review: Option<string>,
    evaluatedAt: Option<int>,
    createdAt: int)

  datatype RefundStatus = RefundPending | RefundApproved | RefundRejected

  /** The status names stored in the `refund_requests.status` column. */
  function RefundStatusName(s: RefundStatus): string
  {
    match s
    case RefundPending => "pending"
    case RefundApproved => "approved"
    case RefundRejected => "rejected"
  }

  datatype Refund = Refund(
    id: Id,
    orderId: Id,
    applicantId: Id,
    amount: Cents,       // copied from the order when the refund is applied for
    reason: Option<string>,
    status: RefundStatus,
    processedAt: Option<int>,
    createdAt: int)

  datatype User = User(
    id: Id,
    username: string,
    password: string,
    nickname: string,
    avatar: string,
    role: string,        // "user" or "admin"
    isCompanion: bool,
    balance: Cents,
    createdAt: int)

  /** What the user listing and the user update send back: a user row without
      its password. */
  datatype PublicUser = PublicUser(
    id: Id,
    username: string,
    nickname: string,
    avatar: string,
    role: string,
    isCompanion: bool,
    balance: Cents,
    createdAt: int)

  function Public(u: User): PublicUser
  {
    PublicUser(u.id, u.username, u.nickname, u.avatar, u.role, u.isCompanion, u.balance, u.createdAt)
  }

  /** A companion-service listing: one user offering to play one game. */
  datatype Service = Service(
    id: Id,
    userId: Id,
    gameId: Id,
    price: Cents,
    description: Option<string>,
    auditStatus: string, // "pending", "approved", "rejected", or whatever the auditor sent
    online: bool,        // the `status` column: true online, false offline
    createdAt: int)

  datatype Game = Game(
    id: Id,
    name: string,
    icon: Option<string>,
    cover: Option<string>,
    createdAt: int)

  datatype WalletLog = WalletLog(
    id: Id,
    userId: Id,
    kind: string,        // deposit, payment, income, withdraw
    amount: Cents,
    relatedId: Option<Id>,
    createdAt: int)

  /** A row of `user_follows`; the pair is unique, so the table is a set. */
  datatype Follow = Follow(follower: Id, following: Id)

  /** The whole store the handlers read and write. */
  datatype Db = Db(
    users: map<Id, User>,
    orders: map<Id, Order>,
    refunds: map<Id, Refund>,
    services: map<Id, Service>,
    games: map<Id, Game>,
    follows: set<Follow>,
    walletLogs: map<Id, WalletLog>)

  /** The identity the authentication layer attaches to a request. */
  datatype Caller = Caller(id: Id, role: string)

  /** How a handler ended, without the HTTP envelope. */
  datatype Outcome = Ok | NotFound | BadRequest | Forbidden

  /** A state-changing handler's outcome and the store it leaves behind. */
  datatype Step = Step(outcome: Outcome, db: Db)

  /** A read-only handler's outcome and the data it sends back. */
  datatype Reply<T> = Reply(outcome: Outcome, data: T)
}

/** The settlement of an order: the only code that moves balances. */
module Ledger {
  import opened Schema

  /** Reads the client's and the companion's rows, adds `clientDelta` to the
      client's balance and subtracts it from the companion's, then saves the
      client and then the companion. When either user is missing nothing is
      saved. Both rows are read before either is saved, so when the two ids
      are the same the second save overwrites the first. */
  function Settle(users: map<Id, User>, clientId: Id, companionId: Id, clientDelta: Cents): (r: map<Id, User>)
    ensures r.Keys == users.Keys
    ensures !(clientId in users && companionId in users) ==> r == users
    ensures forall id :: id in users ==> r[id] == users[id].(balance := r[id].balance)
    ensures forall id :: id in users && id != clientId && id != companionId ==> r[id] == users[id]
    ensures clientId in users && companionId in users ==>
      && r[companionId].balance == users[companionId].balance - clientDelta
      && (clientId != companionId ==> r[clientId].balance == users[clientId].balance + clientDelta)
  {
    if clientId in users && companionId in users then
      var client := users[clientId];
      var companion := users[companionId];
      users[clientId := client.(balance := client.balance + clientDelta)]
           [companionId := companion.(balance := companion.balance - clientDelta)]
    else users
  }

  /** Between two distinct users, a settlement moves exactly `clientDelta` from
      the companion to the client, keeps the sum of their balances, and touches
      no other user and no other column. */
  lemma SettleMoves(users: map<Id, User>, clientId: Id, companionId: Id, clientDelta: Cents)
    requires clientId in users && companionId in users && clientId != companionId
    ensures var after := Settle(users, clientId, companionId, clientDelta);
      && after.Keys == users.Keys
      && after[clientId].balance == users[clientId].balance + clientDelta
      && after[companionId].balance == users[companionId].balance - clientDelta
      && after[clientId].balance + after[companionId].balance
         == users[clientId].balance + users[companionId].balance
      && after[clientId] == users[clientId].(balance := after[clientId].balance)
      && after[companionId] == users[companionId].(balance := after[companionId].balance)
      && forall id :: id in users && id != clientId && id != companionId ==> after[id] == users[id]
  {
  }

  /** When either party is missing, a settlement changes nothing. */
  lemma SettleMissingParty(users: map<Id, User>, clientId: Id, companionId: Id, clientDelta: Cents)
    requires clientId !in users || companionId !in users
    ensures Settle(users, clientId, companionId, clientDelta) == users
  {
  }

  /** Settling `-a` and then `+a` between the same two ids restores every row,
      whether the parties are distinct, the same user, or missing. */
  lemma SettleUndone(users: map<Id, User>, clientId: Id, companionId: Id, a: Cents)
    ensures Settle(Settle(users, clientId, companionId, -a), clientId, companionId, a) == users
  {
    var once := Settle(users, clientId, companionId, -a);
    if clientId in users && companionId in users {
      if clientId == companionId {
        assert once[clientId].balance == users[clientId].balance + a;
      } else {
        SettleMoves(users, clientId, companionId, -a);
        SettleMoves(once, clientId, companionId, a);
      }
      var twice := Settle(once, clientId, companionId, a);
      assert twice.Keys == users.Keys;
      forall id | id in users ensures twice[id] == users[id] {
      }
    }
  }

  /** A settlement between one user and itself is the case that breaks
      conservation: the companion's save overwrites the client's, so that
      user's balance moves by `-clientDelta` instead of by zero. */
  lemma SettleSelf(users: map<Id, User>, id: Id, clientDelta: Cents)
    requires id in users
    ensures Settle(users, id, id, clientDelta)[id].balance == users[id].balance - clientDelta
  {
  }
}
