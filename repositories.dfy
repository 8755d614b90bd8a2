/**
 * The stores the services work on. The card store is a map from id to card,
 * the transfer ledger an append-only sequence, the user store a map from id to
 * user. Identity keys are generated on insertion, as the database does.
 */
module Repositories {
  import opened Domain

  /** The card with this id belongs to the user with this login name. */
  predicate OwnedBy(cards: map<CardId, Card>, id: CardId, username: string) {
    id in cards && cards[id].user.username == username
  }

  /**
   * The card with this id, if it exists and belongs to the user with this
   * login name, whatever its status (CLOSED cards included).
   */
  function FindByIdAndUserUsername(cards: map<CardId, Card>, id: CardId, username: string): (r: Option<Card>)
    ensures r.Some? <==> id in cards && cards[id].user.username == username
    ensures r.Some? ==> r.value == cards[id]
  {
    if OwnedBy(cards, id, username) then Some(cards[id]) else None
  }

  /** Two stores agree on which cards exist and who owns each of them. */
  predicate SameOwners(a: map<CardId, Card>, b: map<CardId, Card>) {
    a.Keys == b.Keys && forall id :: id in a ==> a[id].user == b[id].user
  }

  /** The transfer touches a card of the user: as source or as destination. */
  predicate Touches(cards: map<CardId, Card>, t: Transfer, username: string) {
    OwnedBy(cards, t.from, username) || OwnedBy(cards, t.to, username)
  }

  /**
   * The ledger query for one user: every transfer whose source or destination
   * card belongs to the user, once each, in ledger order.
   */
  function FindAllByUser(transfers: seq<Transfer>, cards: map<CardId, Card>, username: string): (r: seq<Transfer>)
    ensures |r| <= |transfers|
    ensures forall t :: multiset(r)[t] == if Touches(cards, t, username) then multiset(transfers)[t] else 0
  {
    if transfers == [] then []
    else
      var rest := FindAllByUser(transfers[1..], cards, username);
      assert transfers == [transfers[0]] + transfers[1..];
      if Touches(cards, transfers[0], username) then [transfers[0]] + rest else rest
  }

  /** No two users share a login name. */
  ghost predicate UniqueUsernames(users: map<UserId, User>) {
    forall a, b :: a in users && b in users && users[a].username == users[b].username ==> a == b
  }

  /** Every user sits under its own id and no two users share a login name. */
  ghost predicate ValidUsers(users: map<UserId, User>) {
    UniqueUsernames(users) && forall id :: id in users ==> users[id].id == id
  }

  /** The user with this login name, if any (login names are unique). */
  function FindByUsername(users: map<UserId, User>, username: string): (r: Option<User>)
    requires ValidUsers(users)
    ensures r.Some? <==> exists id :: id in users && users[id].username == username
    ensures r.Some? ==> r.value.id in users && users[r.value.id] == r.value && r.value.username == username
  {
    if exists id :: id in users && users[id].username == username then
      var id :| id in users && users[id].username == username;
      Some(users[id])
    else None
  }

  class CardRepository {
    var cards: map<CardId, Card>
    var nextId: CardId

    /** Every card sits under its own id, below the next generated id, with a balance that is not negative. */
    ghost predicate Valid()
      reads this
    {
      1 <= nextId &&
      forall id :: id in cards ==> cards[id].id == id && 1 <= id < nextId && cards[id].balance >= 0
    }

    constructor ()
      ensures Valid() && cards == map[] && nextId == 1
    {
      cards := map[];
      nextId := 1;
    }

    /** Stores a new card under a freshly generated id and returns the stored card. */
    method Save(card: Card) returns (saved: Card)
      requires Valid() && card.balance >= 0
      modifies this
      ensures Valid()
      ensures saved == card.(id := old(nextId)) && saved.id !in old(cards)
      ensures cards == old(cards)[saved.id := saved]
    {
      saved := card.(id := nextId);
      cards := cards[nextId := saved];
      nextId := nextId + 1;
    }
  }

  class TransferRepository {
    var transfers: seq<Transfer>

    /** The ledger's ids are 1, 2, 3, ... in order of insertion. */
    ghost predicate Valid()
      reads this
    {
      forall i :: 0 <= i < |transfers| ==> transfers[i].id == i + 1
    }

    constructor ()
      ensures Valid() && transfers == []
    {
      transfers := [];
    }

    /** Appends a transfer under the next id; earlier entries are untouched. */
    method Save(t: Transfer) returns (saved: Transfer)
      requires Valid()
      modifies this
      ensures Valid()
      ensures saved == t.(id := |old(transfers)| + 1)
      ensures transfers == old(transfers) + [saved]
    {
      saved := t.(id := |transfers| + 1);
      transfers := transfers + [saved];
    }
  }

  class UserRepository {
    var users: map<UserId, User>

    ghost predicate Valid()
      reads this
    {
      ValidUsers(users)
    }

    constructor (users: map<UserId, User>)
      requires ValidUsers(users)
      ensures Valid() && this.users == users
    {
      this.users := users;
    }
  }
}
