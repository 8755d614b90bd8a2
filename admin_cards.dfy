/**
 * Administrative card operations: issuing a card to a user and forcing a
 * card's status. Status changes have no guard on the previous status, and
 * deletion is a soft close: the card stays in the store as CLOSED.
 */
module AdminCards {
  import opened Domain
  import opened Repositories
  import opened CardMask

  datatype CreateCardRequest = CreateCardRequest(
    userId: UserId,
    ownerName: string,
    cardNumber: string,
    expirationDate: LocalDate,
    balance: Money)

  /**
   * The card a creation request describes, before the store gives it an id:
   * ACTIVE, owned by the requested user, carrying the request's holder name,
   * expiration date and balance, the encrypted number and the masked number.
   * `encrypt` stands for the symmetric cipher applied to the full number.
   */
  function NewCard(users: map<UserId, User>, request: CreateCardRequest, encrypt: string -> string)
    : (r: Result<Card>)
    ensures r.Ok? <==> request.userId in users && |request.cardNumber| == 16
    ensures request.userId !in users ==> r == Failure(UserNotFoundMessage)
    ensures request.userId in users && |request.cardNumber| != 16 ==> r == Failure(InvalidCardNumberMessage)
    ensures r.Ok? ==>
              && r.value.status == ACTIVE
              && r.value.balance == request.balance
              && r.value.ownerName == request.ownerName
              && r.value.expirationDate == request.expirationDate
              && r.value.user == Owner(users[request.userId].id, users[request.userId].username)
              && r.value.encryptedNumber == encrypt(request.cardNumber)
              && Mask(Some(request.cardNumber)) == Ok(r.value.maskedNumber)
              && r.value.maskedNumber[15..] == request.cardNumber[12..]
  {
    if request.userId !in users then Failure(UserNotFoundMessage)
    else
      var user := users[request.userId];
      var encrypted := encrypt(request.cardNumber);
      match Mask(Some(request.cardNumber))
      case Failure(m) => Failure(m)
      case Ok(masked) =>
        Ok(Card(0, encrypted, masked, request.ownerName, request.expirationDate, ACTIVE,
                request.balance, Owner(user.id, user.username)))
  }

  /**
   * Issues a new card. On failure the store is unchanged; on success exactly
   * one card, under a fresh id, is added and its view is returned.
   */
  method Create(cardRepository: CardRepository, userRepository: UserRepository,
                request: CreateCardRequest, encrypt: string -> string)
    returns (r: Result<CardResponse>)
    requires cardRepository.Valid() && userRepository.Valid()
    requires request.balance >= 0
    modifies cardRepository
    ensures cardRepository.Valid()
    ensures NewCard(userRepository.users, request, encrypt).Failure? ==>
              && r == Failure(NewCard(userRepository.users, request, encrypt).message)
              && cardRepository.cards == old(cardRepository.cards)
    ensures NewCard(userRepository.users, request, encrypt).Ok? ==>
              var card := NewCard(userRepository.users, request, encrypt).value.(id := old(cardRepository.nextId));
              && card.id !in old(cardRepository.cards)
              && cardRepository.cards == old(cardRepository.cards)[card.id := card]
              && r == Ok(ToResponse(card))
  {
    if request.userId !in userRepository.users {
      return Failure(UserNotFoundMessage);
    }
    var user := userRepository.users[request.userId];
    var encrypted := encrypt(request.cardNumber);
    var masked := Mask(Some(request.cardNumber));
    if masked.Failure? {
      return Failure(masked.message);
    }
    var card := Card(0, encrypted, masked.value, request.ownerName, request.expirationDate, ACTIVE,
                     request.balance, Owner(user.id, user.username));
    var saved := cardRepository.Save(card);
    r := Ok(ToResponse(saved));
  }

  /** Lookup of any card by id, whatever its owner or status. */
  function GetCard(cards: map<CardId, Card>, cardId: CardId): (r: Result<Card>)
    ensures r.Ok? <==> cardId in cards
    ensures r.Ok? ==> r.value == cards[cardId]
    ensures r.Failure? ==> r.message == CardNotFoundMessage
  {
    if cardId in cards then Ok(cards[cardId]) else Failure(CardNotFoundMessage)
  }

  /**
   * The store after an administrator forces card `cardId` into `status`:
   * whatever the previous status, only that card's status changes and no
   * card is added or removed.
   */
  function SetStatusOutcome(cards: map<CardId, Card>, cardId: CardId, status: CardStatusCode)
    : (r: Result<map<CardId, Card>>)
    ensures r.Ok? <==> cardId in cards
    ensures r.Failure? ==> r.message == CardNotFoundMessage
    ensures r.Ok? ==> r.value.Keys == cards.Keys && r.value[cardId].status == status
    ensures r.Ok? ==> r.value[cardId] == cards[cardId].(status := status)
    ensures r.Ok? ==> forall id :: id in cards && id != cardId ==> r.value[id] == cards[id]
    ensures r.Ok? ==> SameOwners(cards, r.value)
  {
    match GetCard(cards, cardId)
    case Failure(m) => Failure(m)
    case Ok(card) => Ok(cards[cardId := card.(status := status)])
  }

  /** Sets the card's status to BLOCKED, whatever it was. */
  method Block(cardRepository: CardRepository, cardId: CardId) returns (r: Result<()>)
    requires cardRepository.Valid()
    modifies cardRepository
    ensures cardRepository.Valid() && cardRepository.nextId == old(cardRepository.nextId)
    ensures r.Failure? <==> cardId !in old(cardRepository.cards)
    ensures r.Failure? ==> r.message == CardNotFoundMessage && cardRepository.cards == old(cardRepository.cards)
    ensures r.Ok? ==> cardRepository.cards == SetStatusOutcome(old(cardRepository.cards), cardId, BLOCKED).value
  {
    var card := GetCard(cardRepository.cards, cardId);
    if card.Failure? {
      return Failure(card.message);
    }
    cardRepository.cards := cardRepository.cards[cardId := card.value.(status := BLOCKED)];
    r := Ok(());
  }

  /** Sets the card's status to ACTIVE, whatever it was. */
  method Activate(cardRepository: CardRepository, cardId: CardId) returns (r: Result<()>)
    requires cardRepository.Valid()
    modifies cardRepository
    ensures cardRepository.Valid() && cardRepository.nextId == old(cardRepository.nextId)
    ensures r.Failure? <==> cardId !in old(cardRepository.cards)
    ensures r.Failure? ==> r.message == CardNotFoundMessage && cardRepository.cards == old(cardRepository.cards)
    ensures r.Ok? ==> cardRepository.cards == SetStatusOutcome(old(cardRepository.cards), cardId, ACTIVE).value
  {
    var card := GetCard(cardRepository.cards, cardId);
    if card.Failure? {
      return Failure(card.message);
    }
    cardRepository.cards := cardRepository.cards[cardId := card.value.(status := ACTIVE)];
    r := Ok(());
  }

  /** Closes the card: its status becomes CLOSED and it stays in the store. */
  method Delete(cardRepository: CardRepository, cardId: CardId) returns (r: Result<()>)
    requires cardRepository.Valid()
    modifies cardRepository
    ensures cardRepository.Valid() && cardRepository.nextId == old(cardRepository.nextId)
    ensures cardRepository.cards.Keys == old(cardRepository.cards).Keys
    ensures r.Failure? <==> cardId !in old(cardRepository.cards)
    ensures r.Failure? ==> r.message == CardNotFoundMessage && cardRepository.cards == old(cardRepository.cards)
    ensures r.Ok? ==> cardRepository.cards == SetStatusOutcome(old(cardRepository.cards), cardId, CLOSED).value
  {
    var card := GetCard(cardRepository.cards, cardId);
    if card.Failure? {
      return Failure(card.message);
    }
    cardRepository.cards := cardRepository.cards[cardId := card.value.(status := CLOSED)];
    r := Ok(());
  }

  /** Every card in the store, closed ones included, as views keyed by id. */
  function GetAll(cards: map<CardId, Card>): (r: map<CardId, CardResponse>)
    ensures r.Keys == cards.Keys
    ensures forall id :: id in r ==> r[id] == ToResponse(cards[id])
  {
    map id | id in cards :: ToResponse(cards[id])
  }
}
