# Go Fish deck and dealing, in Dafny

This project models the deck/draw core of a Go Fish skeleton written in Go: the suit-name
table, cards and their text form, the deck of 52 cards built rank by rank, drawing a card
at a random position (removing it by shifting the rest of the slice left in place), the text
listing of a deck, and the construction of a player whose hand is dealt from a deck.

- `strconv.dfy`, module `Strconv`: `strconv.Itoa` as used for a card's rank, with a parser
  `ParseDecimal` that reads its output back (the inverse of `Itoa` only, not Go's `strconv.Atoi`).
- `deck.dfy`, module `Deck` (game/deck.go): `Int8` and `Suit` are newtypes over the `int8`
  range, so a card may carry a suit outside the four named ones (the source's error path);
  `Card`, the `SuitName` table, `GetSuit`, `CardSprint`, the `Listing` of a deck, and the class
  `Deck`, whose backing `array` and length `len` stand for the Go slice `Cards`.
  `IsFreshDeck` states the shape of the deck `MakeDeck` builds; the counting lemmas prove what a
  fresh deck holds whatever order the suit table is iterated in.
- `player.dfy`, module `Player` (game/player.go): the `Player` value, the specification
  function `Deal` (the cards a sequence of draws takes, in order, and what is left), and
  `NewPlayer`.

Suits are `int8` values, not a closed enumeration, so `GetSuit` has a real error path (the
source's own test calls it with suit 99, test/deck_test.go:20). Drawing from an empty deck is
an error result, not a precondition.

The random index of `DrawCard` (`rand.IntN`) is a nondeterministic choice `:|` of any index
below the length; the index chosen is returned as a ghost out-parameter so that the contract
can name the card taken. The iteration order of the Go map `suitName` in `MakeDeck` is
likewise a nondeterministic choice from the suits not yet placed for the current rank.

## Model

| member | source | states |
|---|---|---|
| `Strconv.Itoa` | game/deck.go:47 | the decimal text of a rank is non-empty, starts with '-' exactly for negative values, is otherwise made of digits, and has no leading zero except for 0 itself |
| `Strconv.ItoaRoundTrip` | game/deck.go:47 | the decimal text of any integer parses back to that integer |
| `Strconv.ItoaInjective` | game/deck.go:47 | two integers have the same decimal text exactly when they are equal |
| `Deck.GetSuit` | game/deck.go:20-39 | the name lookup succeeds exactly for suits 0..3 and fails with the invalid-suit error for every other `int8` value; Spades, Hearts, Clubs, Diamonds (0, 1, 2, 3) get "Spades", "Hearts", "Clubs", "Diamonds" |
| `Deck.SuitNamesDistinct` | game/deck.go:20-25 | two valid suits have the same name exactly when they are the same suit |
| `Deck.CardSprint` | game/deck.go:42-48 | a card's text succeeds exactly when its suit is valid, fails with the suit lookup's error otherwise, and is a single line |
| `Deck.CardSprintParts` | game/deck.go:47 | a valid card's text is its decimal rank (which holds no blank), a blank, then "of" and the suit name |
| `Deck.CardSprintInjective` | game/deck.go:42-48 | two valid cards have the same text exactly when they are the same card |
| `Deck.ListingLineCount` | game/deck.go:103-113 | the listing of a deck of valid cards has exactly one line per card |
| `Deck.RemoveAt` | game/deck.go:93-97 | removing position `i` leaves one card fewer, the cards before `i` in place and the cards after `i` one place earlier, in their old order |
| `Deck.RemoveAtMultiset` | game/deck.go:91-98 | the cards before a removal are the cards after it plus the card removed |
| `Deck.ShiftLeft` | game/deck.go:96 | the in-place copy of the tail leaves the first `n - 1` slots of the backing array holding the slice with position `i` removed, and the slots from `n - 1` on untouched |
| `Deck.FreshDeckSuitCount` | game/deck.go:69-76 | a fresh deck holds 13 cards of each of the four suits |
| `Deck.FreshDeckRankCount` | game/deck.go:69-76 | a fresh deck holds 4 cards of each rank 0..12 |
| `Deck.FreshDeckNoDuplicates` | game/deck.go:69-76 | every (rank, suit) pair occurs at most once in a fresh deck, counted as a multiset |
| `Deck.FreshDeckComplete` | game/deck.go:69-76 | a card is in a fresh deck exactly when its rank is in 0..12 and its suit is valid |
| `Deck.FreshDeckRenders` | game/deck.go:103-113 | every card of a fresh deck has a valid suit, so the deck's listing succeeds, with 52 lines |
| `Deck.Deck.FromCards` | game/deck.go:60-62 | a deck given as a literal slice holds exactly those cards |
| `Deck.Deck.MakeDeck` | game/deck.go:65-78 | the new deck has a backing array of capacity 52 and is fresh: 52 different cards of valid suits, block `r` of four holding rank `r`, whatever order the suit table yields |
| `Deck.Deck.HasCardsLeft` | game/deck.go:81-83 | true exactly when the deck holds at least one card |
| `Deck.Deck.DrawCard` | game/deck.go:87-99 | fails with the empty-deck error, changing nothing, exactly when the deck is empty; otherwise returns the card at some position `i` below the length and leaves the old cards with position `i` removed, in either branch of the source |
| `Deck.Deck.Sprint` | game/deck.go:103-113 | succeeds exactly when every card has a valid suit, with the listing of one "rank of suit" line per card in deck order; fails with the invalid-suit error otherwise |
| `Player.Deal` | game/player.go:15-21 | a sequence of draws yields one hand card per draw and one card fewer per draw in the deck, and hand plus remaining deck is the original deck as a multiset |
| `Player.DealInDrawOrder` | game/player.go:20 | the `k`-th card of the hand is the card the `k`-th draw took from what the earlier draws left |
| `Player.DealEverything` | test/deck_test.go:66-88 | drawing as many times as there are cards empties the deck and hands over every card |
| `Player.NewPlayer` | game/player.go:9-23 | succeeds exactly when the deck holds at least `handSize` cards, with the given name, 0 books and a hand of `handSize` cards in draw order, the deck shrinking by `handSize` and hand plus deck equal to the old deck; with `handSize` 0 the deck is unchanged; on failure returns the empty-deck error, and the deck is left empty because the cards drawn before are not put back |

## Left out

- `Card.Print` and `Deck.Print` (game/deck.go:51-58, 116-123): console output on top of `Sprint`.
- cmd/main.go is not part of this model: a demonstration program that prints and stops the process on error.
- The uniform distribution of `rand.IntN`: the model lets `DrawCard` take any index below the length, which covers every outcome but says nothing about probabilities.
- The concrete iteration order of the Go map `suitName` in `MakeDeck`: the model allows every order, and only order-independent facts are proved.
- Go slice aliasing between decks or with callers' slices (the tests reuse `MakeDeck().Cards`): each `Deck` owns its array. Growth of a slice past its capacity never happens in the modelled code and is not modelled.
- Deck.Deck.MakeDeck: builds the 52 cards as a sequence by appending and then places them in a new 52-slot array, rather than appending into a pre-allocated empty slice of capacity 52; the resulting backing array and contents are the same.
- Error values are the two kinds `InvalidSuit` and `EmptyDeck` (with the source's message texts in `Error.Message`) rather than Go `error` objects; a failed call returns `Err` alone, where the source also returns the zero `Card`, an empty string or a nil player beside the error.
- `Player` is a value: the source returns a pointer to a struct that nothing mutates after construction.
- Player.NewPlayer: requires `handSize >= 0`, because the source's `make([]Card, 0, handSize)` panics on a negative capacity.
