/**
 * The transfer engine: moves money between two cards of the same holder,
 * records the movement in the ledger and reports it from the requester's
 * point of view; and the per-user transfer history.
 */
module Transfers {
  import opened Domain
  import opened Repositories

  datatype TransferRequest = TransferRequest(fromCardId: CardId, toCardId: CardId, amount: Money)

  datatype TransferDirection = OUTGOING | INCOMING

  datatype TransferResponse = TransferResponse(
    id: TransferId,
    fromCardId: CardId,
    toCardId: CardId,
    amount: Money,
    createdAt: Instant,
    direction: TransferDirection)

  const SameCardMessage := "Cannot transfer money to the same card"
  const SourceNotFoundMessage := "Source card not found"
  const NotActiveMessage := "Only ACTIVE cards can be used for transfer"
  const InsufficientMessage := "Insufficient balance"

  /** The status gate, then the funds gate, for two already found cards. */
  function ValidateCards(from: Card, to: Card, amount: Money): (r: Result<()>)
    ensures r.Ok? <==> from.status == ACTIVE && to.status == ACTIVE && amount <= from.balance
    ensures from.status != ACTIVE || to.status != ACTIVE ==> r == Failure(NotActiveMessage)
    ensures from.status == ACTIVE && to.status == ACTIVE && from.balance < amount ==>
              r == Failure(InsufficientMessage)
  {
    if from.status != ACTIVE || to.status != ACTIVE then Failure(NotActiveMessage)
    else if from.balance < amount then Failure(InsufficientMessage)
    else Ok(())
  }

  /**
   * Every check a transfer makes before touching anything, in the order it
   * makes them. On success it yields the source and destination cards.
   * A missing destination is reported with the source's message.
   */
  function CheckTransfer(cards: map<CardId, Card>, username: string, request: TransferRequest)
    : (r: Result<(Card, Card)>)
    ensures r.Ok? <==>
              && request.fromCardId != request.toCardId
              && OwnedBy(cards, request.fromCardId, username)
              && OwnedBy(cards, request.toCardId, username)
              && cards[request.fromCardId].status == ACTIVE
              && cards[request.toCardId].status == ACTIVE
              && request.amount <= cards[request.fromCardId].balance
    ensures r.Ok? ==> r.value == (cards[request.fromCardId], cards[request.toCardId])
    ensures request.fromCardId == request.toCardId ==> r == Failure(SameCardMessage)
    ensures request.fromCardId != request.toCardId && !OwnedBy(cards, request.fromCardId, username) ==>
              r == Failure(SourceNotFoundMessage)
    ensures request.fromCardId != request.toCardId && OwnedBy(cards, request.fromCardId, username) &&
            !OwnedBy(cards, request.toCardId, username) ==>
              r == Failure(SourceNotFoundMessage)
    ensures request.fromCardId != request.toCardId && OwnedBy(cards, request.fromCardId, username) &&
            OwnedBy(cards, request.toCardId, username) &&
            (cards[request.fromCardId].status != ACTIVE || cards[request.toCardId].status != ACTIVE) ==>
              r == Failure(NotActiveMessage)
    ensures request.fromCardId != request.toCardId && OwnedBy(cards, request.fromCardId, username) &&
            OwnedBy(cards, request.toCardId, username) &&
            cards[request.fromCardId].status == ACTIVE && cards[request.toCardId].status == ACTIVE &&
            cards[request.fromCardId].balance < request.amount ==>
              r == Failure(InsufficientMessage)
    ensures r.Failure? ==>
              r.message in {SameCardMessage, SourceNotFoundMessage, NotActiveMessage, InsufficientMessage}
  {
    if request.fromCardId == request.toCardId then Failure(SameCardMessage)
    else
      match FindByIdAndUserUsername(cards, request.fromCardId, username)
      case None => Failure(SourceNotFoundMessage)
      case Some(from) =>
        match FindByIdAndUserUsername(cards, request.toCardId, username)
        case None => Failure(SourceNotFoundMessage)
        case Some(to) =>
          match ValidateCards(from, to, request.amount)
          case Failure(m) => Failure(m)
          case Ok(_) => Ok((from, to))
  }

  /**
   * The store after `amount` moves from card `from` to card `to`: the pair's
   * combined balance is unchanged, no other card changes, and no balance
   * goes negative when the source covers the amount.
   */
  function Settle(cards: map<CardId, Card>, from: CardId, to: CardId, amount: Money): (r: map<CardId, Card>)
    requires from in cards && to in cards && from != to
    ensures r.Keys == cards.Keys
    ensures r[from].balance == cards[from].balance - amount
    ensures r[to].balance == cards[to].balance + amount
    ensures r[from].balance + r[to].balance == cards[from].balance + cards[to].balance
    ensures r[from] == cards[from].(balance := r[from].balance)
    ensures r[to] == cards[to].(balance := r[to].balance)
    ensures forall id :: id in cards && id != from && id != to ==> r[id] == cards[id]
    ensures SameOwners(cards, r)
    ensures (forall id :: id in cards ==> cards[id].balance >= 0) && 0 <= amount <= cards[from].balance ==>
              forall id :: id in r ==> r[id].balance >= 0
  {
    var debited := cards[from := cards[from].(balance := cards[from].balance - amount)];
    debited[to := cards[to].(balance := cards[to].balance + amount)]
  }

  /** A ledger entry as the requester sees it: OUTGOING exactly when the requester owns the source card. */
  function MapToDto(t: Transfer, cards: map<CardId, Card>, username: string): (r: TransferResponse)
    ensures r.direction == OUTGOING <==> OwnedBy(cards, t.from, username)
    ensures (r.id, r.fromCardId, r.toCardId, r.amount, r.createdAt) == (t.id, t.from, t.to, t.amount, t.createdAt)
  {
    TransferResponse(t.id, t.from, t.to, t.amount, t.createdAt,
                     if OwnedBy(cards, t.from, username) then OUTGOING else INCOMING)
  }

  /** The transfer history of one user: the ledger query, each entry tagged with its direction. */
  function GetUserTransfers(transfers: seq<Transfer>, cards: map<CardId, Card>, username: string)
    : (r: seq<TransferResponse>)
    ensures |r| == |FindAllByUser(transfers, cards, username)|
    ensures forall i :: 0 <= i < |r| ==> r[i] == MapToDto(FindAllByUser(transfers, cards, username)[i], cards, username)
    ensures forall i :: 0 <= i < |r| ==>
              OwnedBy(cards, r[i].fromCardId, username) || OwnedBy(cards, r[i].toCardId, username)
    ensures forall i :: 0 <= i < |r| && r[i].direction == INCOMING ==> OwnedBy(cards, r[i].toCardId, username)
  {
    var mine := FindAllByUser(transfers, cards, username);
    forall i | 0 <= i < |mine| ensures Touches(cards, mine[i], username) {
      assert mine[i] in mine;
      assert multiset(mine)[mine[i]] > 0;
    }
    seq(|mine|, i requires 0 <= i < |mine| => MapToDto(mine[i], cards, username))
  }

  /**
   * Executes a transfer for the user `username` at time `now`. If any check
   * fails, nothing changes and the failure is returned. Otherwise the source
   * is debited, the destination credited, one entry appended to the ledger,
   * and that entry is returned as an OUTGOING transfer.
   */
  method Transfer(cardRepository: CardRepository, transferRepository: TransferRepository,
                  request: TransferRequest, username: string, now: Instant)
    returns (r: Result<TransferResponse>)
    requires cardRepository.Valid() && transferRepository.Valid()
    requires request.amount >= 1
    modifies cardRepository, transferRepository
    ensures cardRepository.Valid() && transferRepository.Valid()
    ensures cardRepository.nextId == old(cardRepository.nextId)
    ensures SumRange(cardRepository.cards, 1, cardRepository.nextId) ==
            old(SumRange(cardRepository.cards, 1, cardRepository.nextId))
    ensures CheckTransfer(old(cardRepository.cards), username, request).Failure? ==>
              && r == Failure(CheckTransfer(old(cardRepository.cards), username, request).message)
              && cardRepository.cards == old(cardRepository.cards)
              && transferRepository.transfers == old(transferRepository.transfers)
    ensures CheckTransfer(old(cardRepository.cards), username, request).Ok? ==>
              var entry := Domain.Transfer(|old(transferRepository.transfers)| + 1, request.fromCardId,
                                    request.toCardId, request.amount, now);
              && cardRepository.cards ==
                 Settle(old(cardRepository.cards), request.fromCardId, request.toCardId, request.amount)
              && transferRepository.transfers == old(transferRepository.transfers) + [entry]
              && r == Ok(MapToDto(entry, cardRepository.cards, username))
              && r.value.direction == OUTGOING
  {
    if request.fromCardId == request.toCardId {
      return Failure(SameCardMessage);
    }
    var from := FindByIdAndUserUsername(cardRepository.cards, request.fromCardId, username);
    if from.None? {
      return Failure(SourceNotFoundMessage);
    }
    var to := FindByIdAndUserUsername(cardRepository.cards, request.toCardId, username);
    if to.None? {
      return Failure(SourceNotFoundMessage);
    }
    var valid := ValidateCards(from.value, to.value, request.amount);
    if valid.Failure? {
      return Failure(valid.message);
    }

    cardRepository.cards := cardRepository.cards[from.value.id := from.value.(balance := from.value.balance - request.amount)];
    cardRepository.cards := cardRepository.cards[to.value.id := to.value.(balance := to.value.balance + request.amount)];

    TransferConservesTotal(old(cardRepository.cards), username, request, 1, cardRepository.nextId);
    var saved := transferRepository.Save(Domain.Transfer(0, from.value.id, to.value.id, request.amount, now));
    r := Ok(MapToDto(saved, cardRepository.cards, username));
  }

  /** The sum of the balances of the cards whose ids lie in [lo, hi); ids without a card add nothing. */
  function SumRange(cards: map<CardId, Card>, lo: CardId, hi: CardId): (sum: int)
    decreases hi - lo
  {
    if hi <= lo then 0
    else (if lo in cards then cards[lo].balance else 0) + SumRange(cards, lo + 1, hi)
  }

  /** Replacing one card changes a range sum that covers it by the change of that card's balance. */
  lemma {:induction false} SumRangeUpdate(cards: map<CardId, Card>, id: CardId, card: Card, lo: CardId, hi: CardId)
    requires id in cards
    ensures SumRange(cards[id := card], lo, hi) ==
            SumRange(cards, lo, hi) + (if lo <= id < hi then card.balance - cards[id].balance else 0)
    decreases hi - lo
  {
    if lo < hi {
      SumRangeUpdate(cards, id, card, lo + 1, hi);
    }
  }

  /**
   * A transfer creates and destroys no money: over any range of ids that
   * covers both cards (in a valid store, [1, nextId) covers every card) the
   * sum of balances is conserved.
   */
  lemma TransferConservesTotal(cards: map<CardId, Card>, username: string, request: TransferRequest,
                               lo: CardId, hi: CardId)
    requires CheckTransfer(cards, username, request).Ok?
    requires lo <= request.fromCardId < hi && lo <= request.toCardId < hi
    ensures SumRange(Settle(cards, request.fromCardId, request.toCardId, request.amount), lo, hi) ==
            SumRange(cards, lo, hi)
  {
    var from, to, amount := request.fromCardId, request.toCardId, request.amount;
    var debited := cards[from := cards[from].(balance := cards[from].balance - amount)];
    SumRangeUpdate(cards, from, debited[from], lo, hi);
    SumRangeUpdate(debited, to, cards[to].(balance := cards[to].balance + amount), lo, hi);
  }

  /** Appending one entry extends the ledger query by that entry exactly when it touches the user. */
  lemma {:induction false} FindAllByUserAppend(transfers: seq<Transfer>, t: Transfer,
                                               cards: map<CardId, Card>, username: string)
    ensures FindAllByUser(transfers + [t], cards, username) ==
            FindAllByUser(transfers, cards, username) + (if Touches(cards, t, username) then [t] else [])
    decreases |transfers|
  {
    var extended := transfers + [t];
    if transfers == [] {
      assert extended[1..] == [];
    } else {
      assert extended[0] == transfers[0];
      assert extended[1..] == transfers[1..] + [t];
      FindAllByUserAppend(transfers[1..], t, cards, username);
    }
  }

  /** The ledger query depends on the card store only through who owns which card. */
  lemma {:induction false} FindAllByUserSameOwners(transfers: seq<Transfer>, a: map<CardId, Card>,
                                                   b: map<CardId, Card>, username: string)
    requires SameOwners(a, b)
    ensures FindAllByUser(transfers, a, username) == FindAllByUser(transfers, b, username)
    decreases |transfers|
  {
    if transfers != [] {
      FindAllByUserSameOwners(transfers[1..], a, b, username);
    }
  }

  /** History depends on the card store only through who owns which card. */
  lemma HistorySameOwners(transfers: seq<Transfer>, a: map<CardId, Card>, b: map<CardId, Card>, username: string)
    requires SameOwners(a, b)
    ensures GetUserTransfers(transfers, a, username) == GetUserTransfers(transfers, b, username)
  {
    FindAllByUserSameOwners(transfers, a, b, username);
  }

  /**
   * After a successful transfer the requester's history is the previous
   * history followed by exactly the response the transfer returned.
   */
  lemma HistoryAfterTransfer(transfers: seq<Transfer>, cards: map<CardId, Card>, username: string,
                             request: TransferRequest, now: Instant)
    requires CheckTransfer(cards, username, request).Ok?
    ensures var after := Settle(cards, request.fromCardId, request.toCardId, request.amount);
            var entry := Domain.Transfer(|transfers| + 1, request.fromCardId, request.toCardId, request.amount, now);
            GetUserTransfers(transfers + [entry], after, username) ==
            GetUserTransfers(transfers, cards, username) + [MapToDto(entry, after, username)]
  {
    var after := Settle(cards, request.fromCardId, request.toCardId, request.amount);
    var entry := Domain.Transfer(|transfers| + 1, request.fromCardId, request.toCardId, request.amount, now);
    var before := FindAllByUser(transfers, cards, username);
    FindAllByUserSameOwners(transfers + [entry], after, cards, username);
    FindAllByUserAppend(transfers, entry, cards, username);
    assert Touches(cards, entry, username);
    var mine := FindAllByUser(transfers + [entry], after, username);
    assert mine == before + [entry];
    var old_history := GetUserTransfers(transfers, cards, username);
    var new_history := GetUserTransfers(transfers + [entry], after, username);
    assert |new_history| == |old_history| + 1;
    forall i | 0 <= i < |new_history|
      ensures new_history[i] == (old_history + [MapToDto(entry, after, username)])[i]
    {
      assert new_history[i] == MapToDto(mine[i], after, username);
      if i < |old_history| {
        assert mine[i] == before[i];
        assert old_history[i] == MapToDto(before[i], cards, username);
      }
    }
  }

  /** The worked example: 100.00 and 50.00, moving 30.00, leaves 70.00 and 80.00. */
  lemma TransferExample(a: Card, b: Card)
    requires a.id == 1 && b.id == 2 && a.user == b.user && a.user.username == "user1"
    requires a.status == ACTIVE && b.status == ACTIVE && a.balance == 10000 && b.balance == 5000
    ensures var cards := map[1 := a, 2 := b];
            var request := TransferRequest(1, 2, 3000);
            && CheckTransfer(cards, "user1", request).Ok?
            && Settle(cards, 1, 2, 3000)[1].balance == 7000
            && Settle(cards, 1, 2, 3000)[2].balance == 8000
  {
  }
}
