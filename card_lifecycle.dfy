/**
 * How the card operations of the different services fit together: the
 * status a card ends up in, what the holder and the transfer engine then see.
 */
module CardLifecycle {
  import opened Domain
  import opened Repositories
  import opened Transfers
  import opened UserCards
  import opened AdminCards

  /** A holder's successful block request has the same effect as an administrator's block. */
  lemma RequestBlockMatchesAdminBlock(cards: map<CardId, Card>, cardId: CardId, username: string)
    requires RequestBlockOutcome(cards, cardId, username).Ok?
    ensures SetStatusOutcome(cards, cardId, BLOCKED) == RequestBlockOutcome(cards, cardId, username)
  {
  }

  /** A block request is not repeatable: the second one is refused as already blocked. */
  lemma SecondRequestBlockFails(cards: map<CardId, Card>, cardId: CardId, username: string)
    requires RequestBlockOutcome(cards, cardId, username).Ok?
    ensures RequestBlockOutcome(RequestBlockOutcome(cards, cardId, username).value, cardId, username) ==
            Failure(AlreadyBlockedMessage)
  {
  }

  /** Status changes leave every user's transfer history as it was. */
  lemma StatusChangeKeepsHistory(cards: map<CardId, Card>, cardId: CardId, status: CardStatusCode,
                                 transfers: seq<Transfer>, username: string)
    requires SetStatusOutcome(cards, cardId, status).Ok?
    ensures GetUserTransfers(transfers, SetStatusOutcome(cards, cardId, status).value, username) ==
            GetUserTransfers(transfers, cards, username)
  {
    HistorySameOwners(transfers, cards, SetStatusOutcome(cards, cardId, status).value, username);
  }

  /** A block request leaves every user's transfer history as it was. */
  lemma RequestBlockKeepsHistory(cards: map<CardId, Card>, cardId: CardId, requester: string,
                                 transfers: seq<Transfer>, username: string)
    requires RequestBlockOutcome(cards, cardId, requester).Ok?
    ensures GetUserTransfers(transfers, RequestBlockOutcome(cards, cardId, requester).value, username) ==
            GetUserTransfers(transfers, cards, username)
  {
    RequestBlockMatchesAdminBlock(cards, cardId, requester);
    StatusChangeKeepsHistory(cards, cardId, BLOCKED, transfers, username);
  }

  /**
   * After an administrator closes a card, the holder no longer sees it, yet
   * the transfer engine still finds it and rejects it as not ACTIVE.
   */
  lemma ClosedCardAfterDelete(cards: map<CardId, Card>, cardId: CardId, toCardId: CardId, amount: Money)
    requires cardId in cards && cardId != toCardId
    requires forall id :: id in cards ==> cards[id].id == id
    requires OwnedBy(cards, toCardId, cards[cardId].user.username)
    ensures var closed := SetStatusOutcome(cards, cardId, CLOSED).value;
            var holder := cards[cardId].user.username;
            && cardId !in GetUserCards(closed, holder)
            && GetBalance(closed, cardId, holder) == Failure(CardNotFoundMessage)
            && CheckTransfer(closed, holder, TransferRequest(cardId, toCardId, amount)) == Failure(NotActiveMessage)
            && CheckTransfer(closed, holder, TransferRequest(toCardId, cardId, amount)) == Failure(NotActiveMessage)
  {
  }

  /** An administrator's activation brings even a closed card back to ACTIVE. */
  lemma ActivateReopensClosedCard(cards: map<CardId, Card>, cardId: CardId)
    requires cardId in cards && cards[cardId].status == CLOSED
    ensures SetStatusOutcome(cards, cardId, ACTIVE).value[cardId] == cards[cardId].(status := ACTIVE)
  {
  }

  /** An administrator's block is accepted on an expired card, unlike the holder's request. */
  lemma AdminBlocksExpiredCard(cards: map<CardId, Card>, cardId: CardId)
    requires cardId in cards && cards[cardId].status == EXPIRED
    ensures SetStatusOutcome(cards, cardId, BLOCKED).Ok?
    ensures RequestBlockOutcome(cards, cardId, cards[cardId].user.username) == Failure(ExpiredMessage)
  {
  }
}
