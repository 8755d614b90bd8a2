# Bank cards: a verified model of the card, transfer and account rules

This project models the business core of a bank-card service: card status
changes, balance transfers between two cards of one holder with their
ledger, the holder's and the administrator's views of cards, and the
administrator's rules for disabling and re-enabling user accounts. It also
models the masking of card numbers.

Layout, one module per source component:

- `domain.dfy` (`Domain`): cards, transfers, users, the card view, and
  `Result`. A failure carries only its message, because every business
  rejection in the services is the same exception kind with a message.
  Money is an integer count of minor units (1.00 = 100).
- `repositories.dfy` (`Repositories`): the stores. `CardRepository` holds
  `cards: map<CardId, Card>` and the next generated id. `TransferRepository`
  holds the append-only `transfers: seq<Transfer>`. `UserRepository` holds
  `users: map<UserId, User>`. The repository queries the services use are
  functions over these values.
- `card_mask.dfy` (`CardMask`): `**** **** **** ` followed by the last four
  characters of a 16-character number.
- `transfers.dfy` (`Transfers`): the transfer engine and the per-user
  history.
- `user_cards.dfy` (`UserCards`): the card holder's operations.
- `admin_cards.dfy` (`AdminCards`): card issue and forced status changes.
- `admin_users.dfy` (`AdminUsers`): disabling and re-enabling accounts.
- `card_lifecycle.dfy` (`CardLifecycle`): lemmas across services.

Each operation that changes state is a module-level method that takes the
repository objects it updates as parameters.
Its postcondition ties the new store to a pure function of the old store
(`CheckTransfer` with `Settle`, `RequestBlockOutcome`, `SetStatusOutcome`,
`NewCard`, `BlockOutcome`, `UnblockOutcome`). The lemmas are proved about
those functions. Read-only operations are functions over the store's contents.

Points where the code behaves in a way worth spelling out:

- If the destination card is missing or not the requester's, the transfer
  fails with "Source card not found" (`TransferService.java:43-44`), while
  `TransferServiceImplTest.java:130` expects "Target card not found".
- Every business rejection is a `BusinessException`, which always has the
  status BAD_REQUEST. The code has no not-found, conflict or forbidden kinds.
  The one other rejection is the mask's "Invalid card number", an
  `IllegalArgumentException` (`CardMaskUtil.java:19-21`) that the exception
  handler turns into a 500 "Unexpected server error"
  (`GlobalExceptionHandler.java:95-105`).
- The transfer engine finds cards with `findByIdAndUserUsername`. That query
  does not exclude CLOSED cards. So a closed card is rejected as "Only ACTIVE
  cards can be used for transfer", not as not found (`ClosedCardAfterDelete`).
- The administrator's block, activate and delete have no guard on the
  previous status. CLOSED is therefore not terminal: activation reopens a
  closed card (`ActivateReopensClosedCard`). Also, an administrator can
  block an EXPIRED card (`AdminBlocksExpiredCard`).

## Model

| member | source | states |
|---|---|---|
| `Domain.ToResponse` | src/main/java/com/example/bankcards/service/CardServiceImpl.java:82-91 | the card view carries exactly the card's id, masked number, holder name, expiry, status and balance (the same view as AdminCardServiceImpl.java's mapToDto) |
| `CardMask.Mask` | src/main/java/com/example/bankcards/util/CardMaskUtil.java:18-24 | fails with "Invalid card number" exactly for a null number or a length other than 16; otherwise 19 characters, the fixed prefix, then the number's last four |
| `CardMask.MaskHidesLeadingDigits` | src/main/java/com/example/bankcards/util/CardMaskUtil.java:23 | the first 15 characters of a mask are only '*' and ' ', so no leading digit shows |
| `CardMask.MaskDependsOnlyOnLastFour` | src/main/java/com/example/bankcards/util/CardMaskUtil.java:23 | numbers with the same last four characters mask to the same string |
| `Repositories.FindByIdAndUserUsername` | src/main/java/com/example/bankcards/repository/CardRepository.java:26 | finds a card exactly when that id exists and its owner has that login name, whatever the card's status, and returns the stored card |
| `Repositories.FindAllByUser` | src/main/java/com/example/bankcards/repository/TransferRepository.java:14-19 | each ledger entry whose source or destination card the user owns, as often as in the ledger; no other entry |
| `Repositories.FindByUsername` | src/main/java/com/example/bankcards/service/AdminUserServiceImpl.java:30-32 | finds a user exactly when one has that login name, and returns that stored user |
| `Repositories.CardRepository.Save` | src/main/java/com/example/bankcards/service/AdminCardServiceImpl.java:49 | stores the card under a new id that no existing card has; no other card changes |
| `Repositories.TransferRepository.Save` | src/main/java/com/example/bankcards/service/TransferService.java:57 | appends the entry with the next id; earlier entries are untouched |
| `Transfers.ValidateCards` | src/main/java/com/example/bankcards/service/TransferService.java:72-81 | passes exactly when both cards are ACTIVE and the source balance covers the amount; the status error comes before the balance error |
| `Transfers.CheckTransfer` | src/main/java/com/example/bankcards/service/TransferService.java:36-46 | succeeds exactly for distinct cards, both owned by the requester, both ACTIVE, source balance at least the amount (equal is enough); failures in source order, each with its exact message: same card, source lookup, destination lookup (same message), status, then "Insufficient balance" for distinct owned ACTIVE cards whose source balance is below the amount |
| `Transfers.Settle` | src/main/java/com/example/bankcards/service/TransferService.java:48-49 | source down by the amount, destination up by it, their sum kept, no other card or field changed, owners unchanged, no balance negative when the source covers the amount |
| `Transfers.MapToDto` | src/main/java/com/example/bankcards/service/TransferService.java:83-94 | copies the entry's fields; OUTGOING exactly when the requester owns the source card |
| `Transfers.GetUserTransfers` | src/main/java/com/example/bankcards/service/TransferService.java:62-70 | one response per entry of the user's ledger query, in order; each touches the user's cards; an INCOMING one has the user's card as destination |
| `Transfers.Transfer` | src/main/java/com/example/bankcards/service/TransferService.java:29-60 | on a failed check returns its message and changes nothing; otherwise settles the balances, appends exactly one entry (from, to, amount, time) and returns it as OUTGOING; the total balance of the store is conserved |
| `Transfers.TransferConservesTotal` | src/main/java/com/example/bankcards/service/TransferService.java:48-49 | a transfer creates and destroys no money: the sum of balances over any id range covering both cards is unchanged |
| `Transfers.FindAllByUserAppend` | src/main/java/com/example/bankcards/repository/TransferRepository.java:14-19 | appending an entry extends the user's ledger query by that entry exactly when it touches the user's cards |
| `Transfers.FindAllByUserSameOwners` | src/main/java/com/example/bankcards/repository/TransferRepository.java:14-19 | the ledger query depends on the store only through card ownership |
| `Transfers.HistorySameOwners` | src/main/java/com/example/bankcards/service/TransferService.java:62-70 | the history depends on the store only through card ownership, so balance and status changes do not alter it |
| `Transfers.HistoryAfterTransfer` | src/main/java/com/example/bankcards/service/TransferService.java:51-70 | after a successful transfer the requester's history is the old history plus exactly the returned response |
| `Transfers.TransferExample` | src/main/java/com/example/bankcards/service/TransferService.java:48-49 | 100.00 and 50.00 with 30.00 moved become 70.00 and 80.00 |
| `UserCards.GetUserCards` | src/main/java/com/example/bankcards/service/CardServiceImpl.java:27-31 | exactly the requester's cards that are not CLOSED, each as its view |
| `UserCards.GetUserCardsByStatus` | src/main/java/com/example/bankcards/service/CardServiceImpl.java:35-43 | CLOSED is refused with "Closed cards are not accessible for user"; any other status gives exactly the requester's cards with that status |
| `UserCards.GetUserCard` | src/main/java/com/example/bankcards/service/CardServiceImpl.java:76-80 | finds the card exactly when it exists, is the requester's and is not CLOSED; otherwise "Card not found" |
| `UserCards.GetBalance` | src/main/java/com/example/bankcards/service/CardServiceImpl.java:47-54 | for a visible card, the card's own id and balance; otherwise "Card not found" |
| `UserCards.RequestBlockOutcome` | src/main/java/com/example/bankcards/service/CardServiceImpl.java:58-74 | succeeds exactly on the requester's ACTIVE card, changing only its status to BLOCKED; a hidden card gives "Card not found", then BLOCKED gives "Card is already blocked", then EXPIRED gives "Expired card cannot be blocked" |
| `UserCards.RequestBlock` | src/main/java/com/example/bankcards/service/CardServiceImpl.java:58-74 | the store afterwards is the outcome's store, or unchanged on failure with the outcome's message |
| `UserCards.UserCardsByStatusPartition` | src/main/java/com/example/bankcards/service/CardServiceImpl.java:27-43 | the visible cards are the union of the ACTIVE, BLOCKED and EXPIRED listings |
| `AdminCards.NewCard` | src/main/java/com/example/bankcards/service/AdminCardServiceImpl.java:31-47 | unknown user gives "User not found", a number of wrong length gives "Invalid card number"; otherwise ACTIVE, with the request's balance, holder name, expiry and user, the encrypted number, and the mask of the number (ending with its last four) |
| `AdminCards.Create` | src/main/java/com/example/bankcards/service/AdminCardServiceImpl.java:31-52 | on failure the store is unchanged; otherwise exactly one card is added under a fresh id and its view is returned |
| `AdminCards.GetCard` | src/main/java/com/example/bankcards/service/AdminCardServiceImpl.java:94-98 | finds any existing card whatever its owner or status; otherwise "Card not found" |
| `AdminCards.SetStatusOutcome` | src/main/java/com/example/bankcards/service/AdminCardServiceImpl.java:56-85 | unknown id gives "Card not found"; otherwise only that card's status becomes the given one, whatever it was, and no card is added or removed |
| `AdminCards.Block` | src/main/java/com/example/bankcards/service/AdminCardServiceImpl.java:56-62 | sets the status to BLOCKED whatever it was; unknown id changes nothing |
| `AdminCards.Activate` | src/main/java/com/example/bankcards/service/AdminCardServiceImpl.java:66-73 | sets the status to ACTIVE whatever it was; unknown id changes nothing |
| `AdminCards.Delete` | src/main/java/com/example/bankcards/service/AdminCardServiceImpl.java:77-85 | sets the status to CLOSED and keeps the card in the store; unknown id changes nothing |
| `AdminCards.GetAll` | src/main/java/com/example/bankcards/service/AdminCardServiceImpl.java:89-92 | every stored card, closed ones included, as its view |
| `AdminUsers.GetUser` | src/main/java/com/example/bankcards/service/AdminUserServiceImpl.java:75-78 | finds the user exactly when the id exists; otherwise "User not found" |
| `AdminUsers.BlockOutcome` | src/main/java/com/example/bankcards/service/AdminUserServiceImpl.java:29-49 | "User not found" for an unknown administrator or target; then "User already blocked", then "Admin cannot block himself", then "Admin cannot block another admin"; otherwise only the target's flag becomes false |
| `AdminUsers.UnblockOutcome` | src/main/java/com/example/bankcards/service/AdminUserServiceImpl.java:53-73 | "User not found" for an unknown administrator or target; then "User already active", then "Admin cannot unblock himself", then "Admin cannot unblock another admin"; otherwise only the target's flag becomes true |
| `AdminUsers.Block` | src/main/java/com/example/bankcards/service/AdminUserServiceImpl.java:29-49 | the user store afterwards is the outcome's store, or unchanged on failure with the outcome's message |
| `AdminUsers.Unblock` | src/main/java/com/example/bankcards/service/AdminUserServiceImpl.java:53-73 | the user store afterwards is the outcome's store, or unchanged on failure with the outcome's message |
| `AdminUsers.GetAll` | src/main/java/com/example/bankcards/service/AdminUserServiceImpl.java:22-25 | every user with id, login name, role title and enabled flag |
| `AdminUsers.EnabledChangeKeepsValid` | src/main/java/com/example/bankcards/service/AdminUserServiceImpl.java:48 | changing one account's flag keeps login names unique, and lookup by login name finds the same account |
| `AdminUsers.BlockThenUnblockRestores` | src/main/java/com/example/bankcards/service/AdminUserServiceImpl.java:29-73 | a successful block followed by unblock, by the same administrator, succeeds and restores the user store exactly |
| `AdminUsers.UnblockThenBlockRestores` | src/main/java/com/example/bankcards/service/AdminUserServiceImpl.java:29-73 | a successful unblock followed by block succeeds and restores the user store exactly |
| `CardLifecycle.RequestBlockMatchesAdminBlock` | src/main/java/com/example/bankcards/service/CardServiceImpl.java:69-73 | a holder's successful block request has the same effect as an administrator's block |
| `CardLifecycle.SecondRequestBlockFails` | src/main/java/com/example/bankcards/service/CardServiceImpl.java:61-63 | a second block request on the same card fails with "Card is already blocked" |
| `CardLifecycle.StatusChangeKeepsHistory` | src/main/java/com/example/bankcards/service/AdminCardServiceImpl.java:56-85 | administrative status changes leave every user's transfer history unchanged |
| `CardLifecycle.RequestBlockKeepsHistory` | src/main/java/com/example/bankcards/service/CardServiceImpl.java:73 | a holder's block request leaves every user's transfer history unchanged |
| `CardLifecycle.ClosedCardAfterDelete` | src/main/java/com/example/bankcards/service/AdminCardServiceImpl.java:77-85 | a closed card disappears from the holder's list and balance lookup, but a transfer from or to it fails with "Only ACTIVE cards can be used for transfer" |
| `CardLifecycle.ActivateReopensClosedCard` | src/main/java/com/example/bankcards/service/AdminCardServiceImpl.java:66-73 | activation turns a CLOSED card back to ACTIVE |
| `CardLifecycle.AdminBlocksExpiredCard` | src/main/java/com/example/bankcards/service/AdminCardServiceImpl.java:56-62 | an administrator's block succeeds on an EXPIRED card; the holder's request is refused with "Expired card cannot be blocked" |

## Left out

- Transfers.Transfer: requires an amount of at least one minor unit. This is the request validation (`TransferRequestDto.java:17`), which runs before the service; the service itself does not check the amount.
- AdminCards.Create: requires a non-negative initial balance. This is the request validation (`CreateCardRequestDto.java:24-26`). The card number's 16-digit pattern is not required; a number of the wrong length takes the mask's error path.
- AdminCards.Create: the mask's error is an `IllegalArgumentException`, a different exception kind from the services' `BusinessException` (reported as 500, not 400); the model folds it into the same `Failure("Invalid card number")` as the business rejections, and so do `CardMask.Mask` and `AdminCards.NewCard`.
- HTTP controllers, security configuration, JWT handling and the authentication service are not modelled. The requester is a login-name parameter.
- Card-number encryption is a foreign cipher call. It is the function parameter `encrypt`. The database's uniqueness constraint on encrypted numbers is not modelled.
- The status catalog lookups (`findByStatusCode`) are taken to always succeed, as the catalog is seed data. Their `IllegalStateException` / `NoSuchElementException` paths are not modelled.
- Transactions, concurrency and locking are not modelled. Each method runs as one atomic step.
- Timestamps are parameters. The model does not require them to increase along the ledger.
- Pagination is not modelled. Card and user lists are maps keyed by id. The history query has no ORDER BY, so the database may return entries in any order; the model returns them in ledger order.
- `CardRepository.java` does not declare the two queries the holder's service calls: all cards by owner with status not CLOSED, and one card by id, owner and status not CLOSED. They are modelled by what their derived-query names say.
- The card view has the six fields that the services' `mapToDto` passes: id, masked number, holder name, expiry, status and balance. `CardResponseDto.java` declares only four fields.
- The user view has the four fields `AdminUserServiceImpl.mapToDto` passes (`UserResponseDto.java` is not part of this model).
- Amounts are whole minor units. A request amount with more than two fractional digits is not representable.
- Ids are unbounded integers. Java string length counts UTF-16 units; the model counts characters, which is the same for digit strings.
- User registration and passwords are not modelled. The user store starts from a given map.
- Login names are assumed unique (`Repositories.ValidUsers`, required by `FindByUsername`, `BlockOutcome` and `UnblockOutcome`). `User.java` is not part of this model, so the column's uniqueness constraint is taken as given; with duplicate names the repository's `findByUsername` would throw, which the model does not capture.
