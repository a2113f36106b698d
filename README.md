# Gaming-companion marketplace: business rules

A model of the request handlers of a marketplace backend in which players
hire companions to play games with them. Clients place orders with
companions. A companion accepts an order and the client completes it, which
moves the order's amount from the client's balance to the companion's. A
client may rate a completed order once, and may ask for a refund, which an
administrator approves (reversing the payment) or rejects. Users list
themselves as companions for a game, and an auditor approves the listing.
Users follow each other. Administrators maintain the game catalogue and the
users, and read the dashboard figures. Every user can read their wallet flow.

The store is a value `Schema.Db`: one map per table, keyed by primary key,
plus a set of follow pairs. Each handler is a function from the store before
the request to an outcome (`Ok`, `NotFound`, `BadRequest`, `Forbidden`) and
the store after it, or to the data a read-only handler sends back. The
handlers that change rows are also written imperatively, as the methods of
`Backend.Server`. That class holds one mutable field per table. Each method
checks the guards in the handler's order, assigns the changed columns and
saves rows one at a time. Its contract equates the outcome and the new
tables with the handler's function applied to the old tables. It also keeps
the store invariant `Invariants.Consistent`.

Representation choices:
- Money is integer cents (the DECIMAL(10,2) columns scaled by 100). An
  order's duration is in hundredths of an hour.
- Timestamps, the order number (a random UUID) and the caller's id and role
  are parameters.
- A new row takes a key one larger than every key in use, standing in for
  auto-increment.
- Listings come out in ascending key order, then stably sorted newest first
  by `created_at`.
- `LIKE '%k%'` is substring containment, and an empty keyword means no
  filter.

## Model

| member | source | states |
|---|---|---|
| Orders.Create | project/be/controllers/orderController.js:14-37 | Ok exactly when the caller is not the companion and duration and amount are present and positive; otherwise BadRequest and nothing changes. On success exactly one new order is added under the next key, stated in full: the given order number, the caller as client, the given companion, game, amount, duration and remark, pending, no completion, rating, review or evaluation time, created now. Parties are distinct and no balance changes. |
| Orders.ListMine | project/be/controllers/orderController.js:52-61 | Exactly the orders whose companion is the caller when role is "companion", otherwise those whose client is the caller; one row per such order; newest first. |
| Orders.ListAll | project/be/controllers/orderController.js:203-218 | Exactly the orders whose order number contains the keyword (all when none is given), one row per such order, newest first. |
| Orders.Accept | project/be/controllers/orderController.js:77-87 | NotFound unless the caller is the order's companion; BadRequest unless it is pending; Ok in every other case (no other outcome is possible), and then only its status becomes accepted; otherwise nothing changes. |
| Orders.Complete | project/be/controllers/orderController.js:103-126 | NotFound unless the caller is the client; BadRequest unless accepted; Ok in every other case. On success the order becomes completed with completed_at stamped, and the balances are settled with the client paying the amount. |
| Orders.Cancel | project/be/controllers/orderController.js:141-157 | NotFound unless the caller is either party; BadRequest unless pending; Ok in every other case, and then only the status becomes cancelled. |
| Orders.Evaluate | project/be/controllers/orderController.js:173-191 | A missing, zero or out-of-range rating is refused before any lookup. Then NotFound unless the caller is the client. Ok exactly for a completed, unrated order, and BadRequest in every other case. The stored rating is the floor of the given one and lies in 1..5, the review is trimmed, and evaluated_at is stamped. |
| Orders.CompleteTransfers | project/be/controllers/orderController.js:118-126 | With both users present and distinct, completion lowers the client's balance by exactly the amount and raises the companion's by exactly the amount. Their sum is unchanged, and no other user changes. |
| Orders.CompleteWithoutParty | project/be/controllers/orderController.js:112-121 | When either user is missing, the order still ends completed and no balance moves. |
| Orders.CompleteOnce | project/be/controllers/orderController.js:108-110 | A second completion of the same order is refused and changes nothing, so an order is settled at most once. |
| Orders.EvaluateOnce | project/be/controllers/orderController.js:184-186 | A rated order cannot be rated again. |
| Text.TrimKeepsCore | project/be/controllers/orderController.js:188 | Trimming yields the slice between the leading and trailing whitespace, and the result neither starts nor ends with whitespace. |
| Text.TrimIdempotent | project/be/controllers/orderController.js:188 | Trimming twice is trimming once. |
| Text.Trim | project/be/controllers/orderController.js:188 | The trimmed review is a piece of the input starting at its first non-whitespace character, and is empty when the input is whitespace only. |
| Refunds.Apply | project/be/controllers/refundController.js:13-41 | NotFound unless the caller is the order's client; BadRequest or Ok otherwise. Ok exactly for a completed order with no pending or approved refund; a rejected refund does not block. The new refund is stated in full: the next key, the order, the caller as applicant, the order's amount, the given reason, pending, unprocessed, created now. |
| Refunds.ListMine | project/be/controllers/refundController.js:55-61 | Exactly the caller's own applications, one row each, newest first. |
| Refunds.ListAll | project/be/controllers/refundController.js:73-106 | Forbidden with no rows for a non-administrator. Otherwise exactly the refunds with the given status whose order number, applicant's nickname or companion's nickname contains the keyword, one row each, newest first. |
| Refunds.Approve | project/be/controllers/refundController.js:119-163 | Forbidden for non-administrators; for administrators only NotFound, BadRequest or Ok. NotFound for an unknown id. Ok exactly when the refund is pending, its order is completed and both users exist; otherwise nothing changes. On success the client is credited and the companion debited by the refund's amount, and the refund becomes approved with processed_at stamped. The order's status is left alone. |
| Refunds.Reject | project/be/controllers/refundController.js:177-194 | Forbidden for non-administrators; for administrators NotFound for an unknown id, Ok exactly from pending and BadRequest otherwise; sets rejected and processed_at; no balance ever changes. |
| Refunds.ApplyKeepsOneActive | project/be/controllers/refundController.js:25-34 | The duplicate check keeps at most one pending or approved refund per order. |
| Refunds.DecideKeepsOneActive | project/be/controllers/refundController.js:119-194 | Approving or rejecting keeps at most one pending or approved refund per order. |
| Refunds.AtMostOneApproval | project/be/controllers/refundController.js:25-34 | Hence no order has two approved refunds. |
| Refunds.ApproveOnce | project/be/controllers/refundController.js:137-140 | A second approval of the same refund is refused and moves no money. |
| Refunds.ApproveTransfers | project/be/controllers/refundController.js:156-159 | Between distinct users, approval moves exactly the refund's amount back to the client, conserving the pair's sum and leaving other users alone. |
| Refunds.RefundUndoesCompletion | project/be/controllers/refundController.js:156-163 | Completing an order, applying for a refund and approving it all succeed, and the users' table ends exactly as it was before the completion, for any pair of parties. |
| Ledger.SettleMoves | project/be/controllers/orderController.js:118-126 | Between two distinct existing users a settlement moves exactly the delta and conserves their sum. No other user and no other column changes. |
| Ledger.SettleMissingParty | project/be/controllers/orderController.js:121 | With either party missing a settlement changes nothing. |
| Ledger.SettleUndone | project/be/controllers/refundController.js:156-159 | A settlement of -a followed by one of +a between the same ids restores every row. |
| Ledger.SettleSelf | project/be/controllers/orderController.js:118-125 | When client and companion are one user, the companion's save overwrites the client's, so that user's balance moves by the negated delta. |
| Ledger.Settle | project/be/controllers/orderController.js:118-126 | Both users are read before either is saved. When one is missing nothing changes. Otherwise only the two parties' rows change and only in their balance: the companion's balance moves by minus the delta, and, when the two are distinct users, the client's by the delta. The set of users is unchanged. |
| Companions.ListPublic | project/be/controllers/companionController.js:10-31 | Exactly the approved, online listings for the game asked for. With a keyword, only those whose owner exists and whose nickname contains it. Newest first. |
| Companions.Apply | project/be/controllers/companionController.js:43-57 | BadRequest when the caller already lists the game. Otherwise exactly one listing is added: pending audit, offline. |
| Companions.ApplyKeepsOneListingPerGame | project/be/controllers/companionController.js:46-50 | Apply never creates a second listing for the same user and game. Across every handler the property is part of `Invariants.Consistent`. |
| Companions.Update | project/be/controllers/companionController.js:70-85 | NotFound unless the caller owns the listing; only the price and description sent change. |
| Companions.ListMine | project/be/controllers/companionController.js:96-100 | Exactly the caller's listings, one row each. |
| Companions.Toggle | project/be/controllers/companionController.js:111-124 | NotFound unless owned, BadRequest unless approved, Ok otherwise; on success only the online flag flips. |
| Companions.ToggleTwice | project/be/controllers/companionController.js:123 | Toggling twice restores the store. |
| Companions.ListForAudit | project/be/controllers/companionController.js:136-147 | Exactly the listings with the given audit status (all when none), one row each, newest first. |
| Companions.Audit | project/be/controllers/companionController.js:159-176 | NotFound for an unknown listing. Otherwise the audit status is set to whatever was sent. Only "approved" also marks an existing owner as a companion, and no other user or column changes. |
| Companions.GetDetail | project/be/controllers/companionController.js:187-204 | BadRequest without an id, NotFound for an unknown one. The evaluation count is the number of the owner's orders that carry a rating, at most the number of orders. |
| Companions.RatingCounted | project/be/controllers/companionController.js:201-204 | A successful rating adds exactly one to the rated companion's evaluation count and leaves every other companion's count alone. |
| Follows.DoFollow | project/be/controllers/followController.js:7-22 | BadRequest for a missing, zero or own target. Otherwise the pair is present afterwards and no other pair changes. |
| Follows.DoUnfollow | project/be/controllers/followController.js:33-43 | BadRequest for a missing or zero target; otherwise the pair is absent afterwards, no other pair changes, and it succeeds whether or not the pair was there. |
| Follows.Check | project/be/controllers/followController.js:54-64 | BadRequest for a missing or zero target; otherwise true exactly when the pair is present. |
| Follows.FollowIdempotent | project/be/controllers/followController.js:13-22 | Following twice is following once, and the second call still succeeds. |
| Follows.UnfollowIdempotent | project/be/controllers/followController.js:39-43 | Unfollowing twice is unfollowing once; unfollowing an absent pair changes nothing. |
| Follows.CheckAfter | project/be/controllers/followController.js:60-64 | Check reports true right after a follow and false right after an unfollow. |
| Follows.FollowThenUnfollow | project/be/controllers/followController.js:13-16 | Following and unfollowing a target not followed before restores the relation. |
| Follows.NoSelfFollow | project/be/controllers/followController.js:9-11 | No handler ever adds a self-follow pair. |
| Games.List | project/be/controllers/gameController.js:9-18 | Exactly the games whose name contains the keyword (all when none is given), one row each, newest first. |
| Games.Create | project/be/controllers/gameController.js:30-35 | BadRequest and no change for a missing or empty name; otherwise exactly one game is added with the given fields. |
| Games.Update | project/be/controllers/gameController.js:46-54 | NotFound and no change for an unknown id; otherwise only that game changes, taking the fields sent and keeping the rest. |
| Games.Delete | project/be/controllers/gameController.js:65-89 | NotFound for an unknown id. BadRequest, with the game kept, while any order refers to it. Ok otherwise: that game is removed and, by the listings' cascading foreign key, exactly the listings for it; every other row is kept. |
| Games.DeleteKeepsOrderGames | project/be/controllers/gameController.js:72-80 | If every order's game exists before a delete, it still exists after. |
| Games.DeleteKeepsListingGames | project/be/controllers/gameController.js:82-89 | With the cascade, if every listing's game exists before a delete, it still exists after, so no orphaned listing is left for a later game to inherit. |
| Users.List | project/be/controllers/userController.js:10-21 | Every user whose username contains the keyword appears, each row is such a user's row, and there is one row per such user. Rows are newest first and never carry a password. |
| Users.Found | project/be/controllers/userController.js:13-21 | Exactly the users whose username contains the keyword, one row each, newest first. |
| Users.Update | project/be/controllers/userController.js:36-57 | NotFound for an unknown id. The resulting role is the one sent unless it is missing or empty, in which case the stored role is kept; it must be "user" or "admin", else BadRequest; Ok otherwise. On failure nothing changes. On success only that user's row changes: nickname and balance are replaced only when sent, the companion flag only when a boolean is sent, every other column (the password included) is kept, and the reply is that row without the password. |
| Users.UpdateKeepsRolesKnown | project/be/controllers/userController.js:42-45 | If every role is "user" or "admin" before an update, so it is after. |
| Users.Delete | project/be/controllers/userController.js:69-74 | NotFound for an unknown id; otherwise exactly that user is removed. |
| Users.Dashboard | project/be/controllers/userController.js:85-91 | The four row counts. The revenue is 0 when no order is completed, and non-negative when no amount is negative. |
| Users.RevenueOf | project/be/controllers/userController.js:91 | The sum of the completed orders' amounts: 0 when no order is completed (an empty sum is null, which the handler turns into 0), and never negative when no amount is. |
| Users.CompleteAddsRevenue | project/be/controllers/userController.js:91 | A successful completion raises the revenue by exactly the order's amount and keeps the user and order counts. |
| Users.RevenueOfCompletion | project/be/controllers/userController.js:91 | The revenue sum changes by exactly the amount when one listed order becomes completed. |
| Wallet.Counterpart | project/be/controllers/walletController.js:31-37 | The related order's companion when the log's owner is its client, its client when the owner is its companion, none otherwise or without an order. |
| Wallet.RelatedOrder | project/be/controllers/walletController.js:28-29 | The order whose id is the log's related id, exactly when one exists. |
| Wallet.Row | project/be/controllers/walletController.js:17-37 | The log's own columns. The order number exactly when the related order exists. The counterpart's nickname and avatar exactly when the counterpart exists. |
| Wallet.Flow | project/be/controllers/walletController.js:15-44 | One row per log of the caller: every log of the caller has its joined row in the result, and every row is the joined row of one of the caller's logs. A log with no matching order still appears. Newest first. |
| Wallet.CounterpartsSwap | project/be/controllers/walletController.js:32-35 | For an order between two users, each side's log names the other. |
| Wallet.CounterpartIsParty | project/be/controllers/walletController.js:31-37 | A counterpart and the log's owner are exactly the order's two parties. |
| Invariants.CreateConsistent | project/be/controllers/orderController.js:14-37 | Creating an order keeps the store invariant: distinct parties, ratings only on completed orders, one live refund per order, live refunds on completed orders, one listing per user and game. |
| Invariants.CompleteConsistent | project/be/controllers/orderController.js:103-126 | Completion keeps the store invariant. |
| Invariants.EvaluateConsistent | project/be/controllers/orderController.js:173-191 | Rating keeps the store invariant. |
| Invariants.ApplyRefundConsistent | project/be/controllers/refundController.js:13-41 | Applying for a refund keeps the store invariant. |
| Invariants.CompleteConserves | project/be/controllers/orderController.js:118-126 | In a consistent store a successful completion with both users present moves exactly the amount and conserves the pair's sum. |
| Invariants.ApproveConserves | project/be/controllers/refundController.js:156-159 | In a consistent store an approval moves exactly the refund's amount back to the client. |
| Invariants.UntouchedConsistent | project/be/controllers/followController.js:6-43 | A handler that changes neither orders, refunds nor listings (follows, games, users) keeps the invariant. |
| Invariants.ListingsKeptConsistent | project/be/controllers/companionController.js:70-176 | A handler that adds no listing and keeps every remaining listing's owner and game keeps the invariant. |
| Invariants.ApplyServiceConsistent | project/be/controllers/companionController.js:43-57 | Applying for a listing keeps the invariant, one listing per user and game included. |
| Invariants.UpdateServiceConsistent | project/be/controllers/companionController.js:70-85 | Editing a listing keeps the invariant. |
| Invariants.ToggleServiceConsistent | project/be/controllers/companionController.js:111-124 | Switching a listing on or off keeps the invariant. |
| Invariants.AuditServiceConsistent | project/be/controllers/companionController.js:159-176 | Auditing a listing keeps the invariant. |
| Invariants.DeleteGameConsistent | project/be/controllers/gameController.js:65-89 | Deleting a game, with its listings, keeps the invariant. |
| Invariants.OrdersKeepRefundTargets | project/be/controllers/refundController.js:21-23 | Orders that only move along the status machine keep every live refund pointing at a completed order. |
| Invariants.AcceptConsistent | project/be/controllers/orderController.js:77-87 | Accepting keeps the store invariant. |
| Invariants.CancelConsistent | project/be/controllers/orderController.js:141-157 | Cancelling keeps the store invariant. |
| Invariants.DecideRefundConsistent | project/be/controllers/refundController.js:119-194 | Approving and rejecting keep the store invariant. |
| Backend.Server.CreateOrder | project/be/controllers/orderController.js:14-37 | Checking the three guards in order and inserting the pending order gives the outcome and tables of `Orders.Create`, and keeps the invariant. |
| Backend.Server.AcceptOrder | project/be/controllers/orderController.js:77-87 | Fetching, checking and saving the accepted order gives the outcome and tables of `Orders.Accept`, and keeps the invariant. |
| Backend.Server.CancelOrder | project/be/controllers/orderController.js:141-157 | Gives the outcome and tables of `Orders.Cancel`, and keeps the invariant. |
| Backend.Server.EvaluateOrder | project/be/controllers/orderController.js:173-191 | Assigning rating, review and evaluated_at in turn and saving gives the outcome and tables of `Orders.Evaluate`, and keeps the invariant. |
| Backend.Server.ApplyRefund | project/be/controllers/refundController.js:13-41 | Gives the outcome and tables of `Refunds.Apply`, and keeps the invariant. |
| Backend.Server.RejectRefund | project/be/controllers/refundController.js:177-194 | Gives the outcome and tables of `Refunds.Reject`, and keeps the invariant. |
| Backend.Server.ApplyService | project/be/controllers/companionController.js:43-57 | Gives the outcome and tables of `Companions.Apply`. |
| Backend.Server.UpdateService | project/be/controllers/companionController.js:70-85 | Assigning the price and the description when sent, then saving, gives the outcome and tables of `Companions.Update`. |
| Backend.Server.ToggleService | project/be/controllers/companionController.js:111-124 | Gives the outcome and tables of `Companions.Toggle`. |
| Backend.Server.Follow | project/be/controllers/followController.js:6-22 | Gives the outcome and follow set of `Follows.DoFollow`. |
| Backend.Server.Unfollow | project/be/controllers/followController.js:32-43 | Gives the outcome and follow set of `Follows.DoUnfollow`. |
| Backend.Server.CreateGame | project/be/controllers/gameController.js:30-35 | Gives the outcome and tables of `Games.Create`. |
| Backend.Server.UpdateGame | project/be/controllers/gameController.js:46-54 | Gives the outcome and tables of `Games.Update`. |
| Backend.Server.DeleteGame | project/be/controllers/gameController.js:65-89 | Removing the game and, as the cascade does, its listings gives the outcome and tables of `Games.Delete`. |
| Backend.Server.DeleteUser | project/be/controllers/userController.js:67-74 | Gives the outcome and tables of `Users.Delete`. |
| Backend.Server.CompleteOrder | project/be/controllers/orderController.js:103-126 | Saving the completed order, then the debited client, then the credited companion, gives the outcome and tables of `Orders.Complete`, and keeps the invariant. |
| Backend.Server.ApproveRefund | project/be/controllers/refundController.js:119-163 | Saving the credited client, the debited companion, then the approved refund, gives the outcome and tables of `Refunds.Approve`, and keeps the invariant. |
| Backend.Server.AuditService | project/be/controllers/companionController.js:159-176 | Saving the audit status and then flagging the owner gives the outcome and tables of `Companions.Audit`. |
| Backend.Server.UpdateUser | project/be/controllers/userController.js:36-57 | Merging the fields into the fetched user and saving it gives the tables and reply of `Users.Update`, and keeps the invariant. |
| SelfOrder.CreateAsWritten | project/be/controllers/orderController.js:13-37 | The guard as written: Ok exactly when the id as sent is not the caller's number and duration and amount are positive. The new order's companion is the id the column stores. |
| SelfOrder.CreateFromBody | project/be/controllers/orderController.js:13-37 | The guard applied to the stored id: a created order never has its client as its companion. |
| SelfOrder.NumbersAgree | project/be/controllers/orderController.js:14 | For an id sent as a number, the guard as written and the corrected guard give the same result. |
| SelfOrder.StringIdSlipsThrough | project/be/controllers/orderController.js:13-15 | The caller's own id sent as a string passes the guard as written and yields an order whose client is its companion. The corrected guard refuses it. |
| SelfOrder.SelfOrderMintsMoney | project/be/controllers/orderController.js:118-125 | Such an order, accepted and completed by its one user, raises that user's balance by the amount. |

## Left out

- HTTP plumbing: routes, the JSON envelope, status codes, and the catch-all server-error paths. This includes exceptions from validation (a null game name or price, a non-numeric id string) and from foreign-key constraints (deleting a user or game still referenced).
- Authentication: the caller's id and role are inputs. No route reaches the refund, wallet and follow handlers (app.js mounts none of their routers), the rating handler, or the user update and delete handlers (the user router serves only the dashboard and the user list); the model covers the handlers regardless.
- Transactions, row locks and concurrency: each handler is one atomic step. The source runs refund approval in a transaction and the other handlers without one.
- JavaScript number coercion beyond what the guards test. Amounts, durations and ratings arrive already parsed. A missing or NaN value is `None`. An id sent as a string is modelled only in `SelfOrder`.
- The difference between an omitted field and an explicit null: both are `None`.
- `LIKE` semantics: case-insensitive collation and the `%`/`_` wildcards inside a keyword are not modelled. A keyword is matched as a case-sensitive substring.
- The average rating in the listing detail (a floating-point mean rounded by `toFixed`). Only the evaluation count is modelled.
- The joined display columns (client, companion and game names and icons) that the order, refund and listing queries attach to each row. The rows themselves are modelled.
- Tables.FreshKey: a new row takes one more than the largest key in use, so after the row with the largest key is deleted the model reuses its id, where MySQL's auto-increment would not. No row can then inherit anything from the deleted one: a game is deleted only when no order refers to it and its listings go with it by the cascade, users are never created here (registration is not part of this model), and orders, refunds and listings are deleted by no other handler.
- The login, registration and profile handlers (authController.js) are not part of this model.
- Ledger.Settle: DECIMAL(10,2) range limits are not modelled; balances are unbounded integers and may go negative, as the source allows.
- Users.Dashboard: its contract states the revenue's zero case and sign, not the sum itself. `Users.CompleteAddsRevenue` and `Users.RevenueOfCompletion` relate the sum to completions.

## Findings

| source | as written | input that shows it | evidently intended | confidence | as-written member | corrected member |
|---|---|---|---|---|---|---|
| project/be/controllers/orderController.js:14 | `user_id === companion_id` compares the token's numeric id with the body's value before the INTEGER column converts it | caller 5 sends `"companion_id": "5"`: the guard passes, and the order has client 5 and companion 5. Accepting and completing it adds the amount to user 5's balance, because the second save overwrites the debit | refuse any order whose stored companion is the caller | not executed | SelfOrder.CreateAsWritten (SelfOrder.StringIdSlipsThrough, SelfOrder.SelfOrderMintsMoney) | SelfOrder.CreateFromBody (the rest of the model uses Orders.Create, which compares stored ids) |
