# Flashcard entities and deck renaming, modelled in Dafny

This project models the entity layer of Inka, a command-line flashcard manager,
and the one command in it that renames a deck:

- **Card** (`card.dfy`, module `Cards`) is an immutable value: a question, an
  answer and a UUID, all fixed by the constructor. Its text forms are modelled
  exactly: `getUuid` is the UUID's canonical text, and `toString` is the
  three-line display `Qn: …`, `Ans: …`, `UUID:  …`.
- **Identifiers** (`identifiers.dfy`, module `Identifiers`): a `java.util.UUID`
  is a 128-bit value rendered as 32 lower-case hexadecimal digits grouped
  8-4-4-4-12. Card, tag and deck identifiers are distinct wrapper types
  (`CardId`, `TagId`, `DeckId`) around it. A strict reader of the canonical
  form (`Parse`) is the rendering's partner, and the two are proved inverse in
  both directions.
- **Deck** (`deck.dfy`, module `Decks`) is a mutable object: a name that can be
  edited, an identifier that cannot (a `const` field), and two ordered lists of
  card and tag identifiers that only grow by appending. The four Java
  constructor overloads become an unnamed constructor and `WithCard`,
  `WithTag` and `WithTagAndCard`. Every mutator states its whole new state.
- **EditDeckNameCommand** (`edit_deck_name_command.dfy`, module `Commands`)
  looks up a deck by its old name and fails with `TagNotFound` (the source
  throws `TagNotFoundException`, the tag exception, for a missing deck) or
  renames that deck in place. Nothing rejects a new name another deck
  already has.

Fresh identifiers (`UUID.randomUUID()`) are parameters. The deck list's lookup
`findDeckFromName` is not part of this model. `Execute` receives the list and
the lookup's answer, and the predicate `FindsDeckNamed` states what that
answer is taken to satisfy:

- a deck it returns is in the list and carries the old name;
- it returns nothing only when no deck carries the old name.

Which deck it picks when several share the name is left open.

`wrappers.dfy` holds `Option` and `Outcome`.

## Model

| member | source | states |
|---|---|---|
| `Identifiers.Render` | src/main/java/model/Card.java:18 | the text form of a UUID is 36 characters: hyphens at positions 8, 13, 18 and 23, lower-case hexadecimal digits everywhere else |
| `Identifiers.RenderParse` | src/test/java/utils/storage/JsonStorageTest.java:87-94 | reading back the text form of a UUID gives the same UUID |
| `Identifiers.ParseRender` | src/test/java/utils/storage/JsonStorageTest.java:87-88 | any text accepted as a canonical UUID is exactly the text form of the UUID it reads as |
| `Identifiers.RenderInjective` | src/main/java/model/Card.java:17-19 | two different UUIDs never share a text form |
| `Cards.Card.GetUuid` | src/main/java/model/Card.java:17-19 | `getUuid` returns a 36-character string that reads back as exactly the identifier fixed at construction |
| `Cards.Card.ToString` | src/main/java/model/Card.java:30-32 | the display form is `Qn: `, the question, a line break and `Ans: `, the answer, a line break and `UUID:` with two spaces, then the identifier's text; its length is the two texts' lengths plus 54 |
| `Cards.ToStringInjective` | src/main/java/model/Card.java:30-32 | when neither question contains a line break, equal display forms mean equal cards (same question, answer and identifier) |
| `Cards.ToStringAmbiguous` | src/main/java/model/Card.java:30-32 | a question containing a line break and `Ans: ` can make two different cards display identically |
| `Decks.Deck.constructor` | src/main/java/model/Deck.java:13-16 | `Deck(name)` stores the name and the given identifier; card list and tag list are empty |
| `Decks.Deck.WithCard` | src/main/java/model/Deck.java:18-22 | `Deck(name, cardUUID)` has card list `[cardUUID]` and an empty tag list |
| `Decks.Deck.WithTag` | src/main/java/model/Deck.java:24-28 | `Deck(name, tagUUID)` has tag list `[tagUUID]` and an empty card list |
| `Decks.Deck.WithTagAndCard` | src/main/java/model/Deck.java:29-34 | `Deck(name, tagUUID, cardUUID)` has both lists as singletons |
| `Decks.Deck.EditDeckName` | src/main/java/model/Deck.java:52-54 | the name becomes the new name; only the name may change, so identifier, card list and tag list stay as they were |
| `Decks.Deck.AddCard` | src/main/java/model/Deck.java:55-57 | the card list becomes the old list followed by the card; name, identifier and tag list are unchanged |
| `Decks.Deck.AddTag` | src/main/java/model/Deck.java:58-60 | the tag list becomes the old list followed by the tag; name, identifier and card list are unchanged |
| `Decks.AddHeldCardAgain` | src/main/java/model/Deck.java:55-57 | adding a card a deck already holds leaves it in the list twice (no deduplication) |
| `Decks.AddHeldTagAgain` | src/main/java/model/Deck.java:58-60 | adding a tag a deck already holds leaves it in the list twice (no deduplication) |
| `Commands.EditDeckNameCommand.constructor` | src/main/java/utils/command/EditDeckNameCommand.java:16-19 | the old and new names are stored unchanged |
| `Commands.EditDeckNameCommand.Execute` | src/main/java/utils/command/EditDeckNameCommand.java:22-31 | fails with `TagNotFound` exactly when no deck had the old name, and then changes nothing; otherwise succeeds, the found deck (which had the old name) carries the new name with identifier and lists kept, and every other deck is unchanged |
| `Commands.RenameOntoTakenName` | src/main/java/utils/command/EditDeckNameCommand.java:24-30 | renaming a deck to a name another deck already carries succeeds, leaving two distinct decks with the same name |

## Left out

- `UUID.randomUUID()`: randomness; identifiers are parameters of the constructors.
- `Identifiers.Parse` reads only the canonical lower-case 8-4-4-4-12 form. Java's `UUID.fromString` is more lenient (upper case, shorter groups); only the canonical text that `toString` produces is modelled.
- Getters `getDeckName`, `getDeckUUID`, `getCardsUUID`, `getTagsUUID`, `getQuestion`, `getAnswer`: these are direct reads of the fields. Java's list getters hand out the live `ArrayList`, so a caller can change a deck's lists through them. The model's lists are values, so this aliasing is not captured.
- `Deck.toString` (src/main/java/model/Deck.java:62-65): it prints a `DeckUUID`, and DeckUUID.java is not part of this model.
- `DeckList.findDeckFromName`: DeckList.java is not part of this model. Its answer is a parameter of `Execute`, constrained by `FindsDeckNamed`.
- `ui.printEditDeckNameSuccess` and the `storage` parameter of `execute`: output only, and a parameter `execute` never uses.
- The `cardList` and `tagList` parameters of `execute` are not passed. `Execute` may modify only the deck the lookup found, so it cannot change them.
- The other files of the repository (console interface, command-line parsing, the run loop, the JSON storage and the card, tag and deck lists) are not part of this model.
