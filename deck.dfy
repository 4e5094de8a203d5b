/** A deck: a named, ordered collection of card identifiers and tag
    identifiers. Its identifier is fixed when the deck is made (a `const`
    field, so no method can write it); the name can be edited and both lists
    grow only by appending, with no check for an entry already present.
    `getDeckName`, `getDeckUUID`, `getCardsUUID` and `getTagsUUID` are reads of
    the fields `name`, `id`, `cards` and `tags`. */
module Decks {
  import opened Identifiers

  class Deck {
    var name: string
    const id: DeckId
    var cards: seq<CardId>
    var tags: seq<TagId>

    /** A deck with no cards and no tags. */
    constructor (name: string, id: DeckId)
      ensures this.name == name && this.id == id
      ensures cards == [] && tags == []
    {
      this.name := name;
      this.id := id;
      cards := [];
      tags := [];
    }

    /** A deck seeded with one card and no tags. */
    constructor WithCard(name: string, id: DeckId, card: CardId)
      ensures this.name == name && this.id == id
      ensures cards == [card] && tags == []
    {
      this.name := name;
      this.id := id;
      cards := [card];
      tags := [];
    }

    /** A deck seeded with one tag and no cards. */
    constructor WithTag(name: string, id: DeckId, tag: TagId)
      ensures this.name == name && this.id == id
      ensures cards == [] && tags == [tag]
    {
      this.name := name;
      this.id := id;
      cards := [];
      tags := [tag];
    }

    /** A deck seeded with one tag and one card. */
    constructor WithTagAndCard(name: string, id: DeckId, tag: TagId, card: CardId)
      ensures this.name == name && this.id == id
      ensures cards == [card] && tags == [tag]
    {
      this.name := name;
      this.id := id;
      tags := [tag];
      cards := [card];
    }

    /** Renames the deck; its identifier and both lists stay as they were. */
    method EditDeckName(newName: string)
      modifies this`name
      ensures name == newName
      ensures cards == old(cards) && tags == old(tags)
    {
      name := newName;
    }

    /** Appends a card identifier, even one the deck already holds. */
    method AddCard(card: CardId)
      modifies this`cards
      ensures cards == old(cards) + [card]
      ensures name == old(name) && tags == old(tags)
    {
      cards := cards + [card];
    }

    /** Appends a tag identifier, even one the deck already holds. */
    method AddTag(tag: TagId)
      modifies this`tags
      ensures tags == old(tags) + [tag]
      ensures name == old(name) && cards == old(cards)
    {
      tags := tags + [tag];
    }
  }

  /** Adding a card a deck already holds stores it a second time: the card
      list does not deduplicate. */
  method AddHeldCardAgain(name: string, id: DeckId, card: CardId) returns (d: Deck)
    ensures d.cards == [card, card] && |d.cards| == 2
    ensures d.name == name && d.id == id && d.tags == []
  {
    d := new Deck.WithCard(name, id, card);
    d.AddCard(card);
  }

  /** Adding a tag a deck already holds stores it a second time as well. */
  method AddHeldTagAgain(name: string, id: DeckId, tag: TagId) returns (d: Deck)
    ensures d.tags == [tag, tag]
    ensures d.name == name && d.id == id && d.cards == []
  {
    d := new Deck.WithTag(name, id, tag);
    d.AddTag(tag);
  }
}
