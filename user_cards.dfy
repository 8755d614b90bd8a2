/**
 * What a card holder can do with their own cards: list them, read a balance
 * and ask for a card to be blocked. Closed cards are hidden from the holder.
 */
module UserCards {
  import opened Domain
  import opened Repositories

  datatype BalanceResponse = BalanceResponse(cardId: CardId, balance: Money)

  const ClosedNotAccessibleMessage := "Closed cards are not accessible for user"
  const AlreadyBlockedMessage := "Card is already blocked"
  const ExpiredMessage := "Expired card cannot be blocked"

  /** The card is the user's own and has not been closed. */
  predicate VisibleTo(cards: map<CardId, Card>, cardId: CardId, username: string) {
    OwnedBy(cards, cardId, username) && cards[cardId].status != CLOSED
  }

  /** The holder's cards, closed ones excluded, keyed by id. */
  function GetUserCards(cards: map<CardId, Card>, username: string): (r: map<CardId, CardResponse>)
    ensures forall id :: id in r <==> VisibleTo(cards, id, username)
    ensures forall id :: id in r ==> id in cards && r[id] == ToResponse(cards[id]) && r[id].status != CLOSED
  {
    map id | id in cards && cards[id].user.username == username && cards[id].status != CLOSED
      :: ToResponse(cards[id])
  }

  /** The holder's cards with one given status; asking for closed cards is refused. */
  function GetUserCardsByStatus(cards: map<CardId, Card>, username: string, status: CardStatusCode)
    : (r: Result<map<CardId, CardResponse>>)
    ensures r.Failure? <==> status == CLOSED
    ensures r.Failure? ==> r.message == ClosedNotAccessibleMessage
    ensures r.Ok? ==> forall id :: id in r.value <==> OwnedBy(cards, id, username) && cards[id].status == status
    ensures r.Ok? ==> forall id :: id in r.value ==> id in cards && r.value[id] == ToResponse(cards[id])
  {
    if status == CLOSED then Failure(ClosedNotAccessibleMessage)
    else Ok(map id | id in cards && cards[id].user.username == username && cards[id].status == status
              :: ToResponse(cards[id]))
  }

  /** Lookup of one of the holder's cards: missing, foreign and closed cards are all "not found". */
  function GetUserCard(cards: map<CardId, Card>, cardId: CardId, username: string): (r: Result<Card>)
    ensures r.Ok? <==> VisibleTo(cards, cardId, username)
    ensures r.Ok? ==> r.value == cards[cardId]
    ensures r.Failure? ==> r.message == CardNotFoundMessage
  {
    if VisibleTo(cards, cardId, username) then Ok(cards[cardId]) else Failure(CardNotFoundMessage)
  }

  /** The balance of one of the holder's visible cards, reported under the card's own id. */
  function GetBalance(cards: map<CardId, Card>, cardId: CardId, username: string): (r: Result<BalanceResponse>)
    requires forall id :: id in cards ==> cards[id].id == id
    ensures r.Ok? <==> VisibleTo(cards, cardId, username)
    ensures r.Ok? ==> r.value == BalanceResponse(cardId, cards[cardId].balance)
    ensures r.Failure? ==> r.message == CardNotFoundMessage
  {
    match GetUserCard(cards, cardId, username)
    case Failure(m) => Failure(m)
    case Ok(card) => Ok(BalanceResponse(card.id, card.balance))
  }

  /**
   * The holder's block request: only a visible ACTIVE card becomes BLOCKED;
   * an already blocked card is refused first, an expired one second.
   */
  function RequestBlockOutcome(cards: map<CardId, Card>, cardId: CardId, username: string)
    : (r: Result<map<CardId, Card>>)
    ensures r.Ok? <==> OwnedBy(cards, cardId, username) && cards[cardId].status == ACTIVE
    ensures r.Ok? ==> r.value == cards[cardId := cards[cardId].(status := BLOCKED)]
    ensures !VisibleTo(cards, cardId, username) ==> r == Failure(CardNotFoundMessage)
    ensures VisibleTo(cards, cardId, username) && cards[cardId].status == BLOCKED ==>
              r == Failure(AlreadyBlockedMessage)
    ensures VisibleTo(cards, cardId, username) && cards[cardId].status == EXPIRED ==>
              r == Failure(ExpiredMessage)
  {
    match GetUserCard(cards, cardId, username)
    case Failure(m) => Failure(m)
    case Ok(card) =>
      if card.status == BLOCKED then Failure(AlreadyBlockedMessage)
      else if card.status == EXPIRED then Failure(ExpiredMessage)
      else Ok(cards[cardId := card.(status := BLOCKED)])
  }

  /** Blocks one of the holder's cards on their request; on failure nothing changes. */
  method RequestBlock(cardRepository: CardRepository, cardId: CardId, username: string) returns (r: Result<()>)
    requires cardRepository.Valid()
    modifies cardRepository
    ensures cardRepository.Valid() && cardRepository.nextId == old(cardRepository.nextId)
    ensures RequestBlockOutcome(old(cardRepository.cards), cardId, username).Failure? ==>
              && r == Failure(RequestBlockOutcome(old(cardRepository.cards), cardId, username).message)
              && cardRepository.cards == old(cardRepository.cards)
    ensures RequestBlockOutcome(old(cardRepository.cards), cardId, username).Ok? ==>
              && r == Ok(())
              && cardRepository.cards == RequestBlockOutcome(old(cardRepository.cards), cardId, username).value
  {
    var card := GetUserCard(cardRepository.cards, cardId, username);
    if card.Failure? {
      return Failure(card.message);
    }
    if card.value.status == BLOCKED {
      return Failure(AlreadyBlockedMessage);
    }
    if card.value.status == EXPIRED {
      return Failure(ExpiredMessage);
    }
    cardRepository.cards := cardRepository.cards[cardId := card.value.(status := BLOCKED)];
    r := Ok(());
  }

  /** The holder's visible cards are exactly those listed under ACTIVE, BLOCKED or EXPIRED. */
  lemma UserCardsByStatusPartition(cards: map<CardId, Card>, username: string)
    ensures GetUserCards(cards, username) ==
            GetUserCardsByStatus(cards, username, ACTIVE).value +
            GetUserCardsByStatus(cards, username, BLOCKED).value +
            GetUserCardsByStatus(cards, username, EXPIRED).value
  {
  }
}
