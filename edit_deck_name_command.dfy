/** The command that renames a deck: find the deck carrying the old name,
    fail if there is none, otherwise rename that deck in place. */
module Commands {
  import opened Wrappers
  import opened Identifiers
  import opened Decks

  /** The failures the command can report. A missing deck is reported with
      the exception class meant for a missing tag. */
  datatype InkaError = TagNotFound

  /** What the deck-list lookup by name is taken to do: a deck it returns is
      in the list and carries the name; it returns nothing only when no deck
      in the list carries the name. Which deck it returns when several share
      the name is left open. */
  ghost predicate FindsDeckNamed(decks: seq<Deck>, name: string, found: Option<Deck>)
    reads decks
  {
    match found
    case Some(d) => d in decks && d.name == name
    case None => forall d :: d in decks ==> d.name != name
  }

  /** The objects the command may change: the deck the lookup returned, if any. */
  function Touched(found: Option<Deck>): set<Deck> {
    match found
    case Some(d) => {d}
    case None => {}
  }

  class EditDeckNameCommand {
    const oldDeckName: string
    const newDeckName: string

    constructor (oldDeckName: string, newDeckName: string)
      ensures this.oldDeckName == oldDeckName && this.newDeckName == newDeckName
    {
      this.oldDeckName := oldDeckName;
      this.newDeckName := newDeckName;
    }

    /** Renames the deck the lookup found for the old name. `decks` is the
        deck list and `found` is what its lookup by the old name returned.
        Card list, tag list, user interface and storage are not touched. */
    method Execute(decks: seq<Deck>, found: Option<Deck>) returns (result: Outcome<InkaError>)
      requires FindsDeckNamed(decks, oldDeckName, found)
      modifies Touched(found)
      ensures result.Fail? <==> forall d :: d in decks ==> old(d.name) != oldDeckName
      ensures result == Pass || result == Fail(TagNotFound)
      ensures result.Pass? ==> found.Some? && found.value in decks && old(found.value.name) == oldDeckName
      ensures result.Pass? ==> found.value.name == newDeckName
      ensures result.Pass? ==> found.value.cards == old(found.value.cards) && found.value.tags == old(found.value.tags)
      ensures forall d :: d in decks && found != Some(d) ==>
                d.name == old(d.name) && d.cards == old(d.cards) && d.tags == old(d.tags)
    {
      if found.None? {
        return Fail(TagNotFound);
      }
      var deck := found.value;
      deck.EditDeckName(newDeckName);
      result := Pass;
    }
  }

  /** Renaming a deck to a name another deck already has succeeds: afterwards
      two distinct decks share the name. */
  method RenameOntoTakenName(id1: DeckId, id2: DeckId) returns (first: Deck, second: Deck, result: Outcome<InkaError>)
    requires id1 != id2
    ensures result == Pass
    ensures first.name == "taken" && second.name == "taken" && first.id != second.id
  {
    first := new Deck("original", id1);
    second := new Deck("taken", id2);
    var command := new EditDeckNameCommand("original", "taken");
    result := command.Execute([first, second], Some(first));
  }
}
