/**
 * The records of the card system: cards, transfers and users, as the
 * persistence layer stores them, and the shape of a business error.
 *
 * Amounts are exact decimals with two fractional digits in the system; here
 * they are integers counting minor units (100 minor units = 1.00).
 * Dates and instants are integers supplied by the caller.
 */
module Domain {

  type CardId = int
  type UserId = int
  type TransferId = int

  /** An amount of money in minor units. */
  type Money = int

  /** A point in time (the transfer timestamp), supplied by the caller. */
  type Instant = int

  /** A calendar day (the card's expiration date). */
  type LocalDate = int

  datatype CardStatusCode = ACTIVE | BLOCKED | EXPIRED | CLOSED

  /** The card holder as a card refers to it: the user's id and login name. */
  datatype Owner = Owner(id: UserId, username: string)

  datatype Card = Card(
    id: CardId,
    encryptedNumber: string,
    maskedNumber: string,
    ownerName: string,
    expirationDate: LocalDate,
    status: CardStatusCode,
    balance: Money,
    user: Owner)

  /** One ledger entry: a movement of `amount` from card `from` to card `to`. */
  datatype Transfer = Transfer(
    id: TransferId,
    from: CardId,
    to: CardId,
    amount: Money,
    createdAt: Instant)

  datatype Role = Role(title: string)

  datatype User = User(id: UserId, username: string, role: Role, enabled: bool)

  /** The view of a card that the card services hand out. */
  datatype CardResponse = CardResponse(
    id: CardId,
    maskedNumber: string,
    ownerName: string,
    expirationDate: LocalDate,
    status: CardStatusCode,
    balance: Money)

  datatype Option<T> = None | Some(value: T)

  /**
   * Outcome of a business operation. Every business rejection is one
   * exception kind carrying a message, so a failure is just its message.
   * The card mask's invalid-number error is a different exception kind in
   * the source; it is folded into `Failure` here as well.
   */
  datatype Result<T> = Ok(value: T) | Failure(message: string)

  /** Rejection messages shared by several services. */
  const CardNotFoundMessage := "Card not found"
  const UserNotFoundMessage := "User not found"

  /**
   * The card view built by both card services: the card's own id, masked
   * number, holder name, expiry, status and balance. The encrypted number and
   * the owning user are not part of it.
   */
  function ToResponse(card: Card): (r: CardResponse)
    ensures r.id == card.id && r.maskedNumber == card.maskedNumber && r.ownerName == card.ownerName
    ensures r.expirationDate == card.expirationDate && r.status == card.status && r.balance == card.balance
  {
    CardResponse(card.id, card.maskedNumber, card.ownerName, card.expirationDate,
                 card.status, card.balance)
  }
}
