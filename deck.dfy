/** Cards, suits and the deck they are drawn from (game/deck.go). */
module Deck {
  import Strconv

  /** Go's `int8`: the width of a card's rank and of its suit. */
  newtype Int8 = x: int | -128 <= x < 128

  /** A suit is a small integer; only four of its values have a name. */
  newtype Suit = x: int | -128 <= x < 128

  const Spades: Suit := 0
  const Hearts: Suit := 1
  const Clubs: Suit := 2
  const Diamonds: Suit := 3

  /** The suit-name table; its keys are the only valid suits. */
  const SuitName: map<Suit, string> :=
    map[Spades := "Spades", Hearts := "Hearts", Clubs := "Clubs", Diamonds := "Diamonds"]

  /** The enumerated suits, stated independently of the table. */
  predicate ValidSuit(s: Suit) {
    Spades <= s <= Diamonds
  }

  datatype Card = Card(rank: Int8, suit: Suit)

  datatype Error = InvalidSuit | EmptyDeck {
    /** The text of the error the source returns. */
    function Message(): string {
      match this
      case InvalidSuit => "invalid suit for card"
      case EmptyDeck => "no cards left to draw"
    }
  }

  datatype Result<T> = Ok(value: T) | Err(error: Error)

  /** The name of a card's suit, or an error when the suit is not one of the four. */
  function GetSuit(c: Card): (r: Result<string>)
    ensures r.Ok? <==> ValidSuit(c.suit)
    ensures r.Err? ==> r.error == InvalidSuit
    ensures c.suit == Spades ==> r == Ok("Spades")
    ensures c.suit == Hearts ==> r == Ok("Hearts")
    ensures c.suit == Clubs ==> r == Ok("Clubs")
    ensures c.suit == Diamonds ==> r == Ok("Diamonds")
  {
    if c.suit in SuitName then Ok(SuitName[c.suit]) else Err(InvalidSuit)
  }

  /** Different valid suits have different names. */
  lemma SuitNamesDistinct(c: Card, d: Card)
    requires ValidSuit(c.suit) && ValidSuit(d.suit)
    ensures GetSuit(c) == GetSuit(d) <==> c.suit == d.suit
  {
  }

  predicate NoSpaceOrNewline(s: string) {
    forall k :: 0 <= k < |s| ==> s[k] != ' ' && s[k] != '\n'
  }

  /** A card as text, "<rank> of <suit name>"; fails exactly when its suit is invalid. */
  function CardSprint(c: Card): (r: Result<string>)
    ensures r.Ok? <==> ValidSuit(c.suit)
    ensures r.Err? ==> r.error == InvalidSuit
    ensures r.Ok? ==> forall k :: 0 <= k < |r.value| ==> r.value[k] != '\n'
  {
    match GetSuit(c)
    case Err(e) => Err(e)
    case Ok(name) => Ok(Strconv.Itoa(c.rank as int) + " of " + name)
  }

  /** A string that starts with a word without blanks, then a blank, splits there in one way only. */
  lemma SplitAtFirstSpace(a: string, b: string, a': string, b': string)
    requires NoSpaceOrNewline(a) && NoSpaceOrNewline(a')
    requires a + " " + b == a' + " " + b'
    ensures a == a' && b == b'
  {
    var s := a + " " + b;
    assert s == a' + " " + b';
    assert forall k :: 0 <= k < |a| ==> s[k] == a[k] != ' ';
    assert forall k :: 0 <= k < |a'| ==> s[k] == a'[k] != ' ';
    assert s[|a|] == ' ' && s[|a'|] == ' ';
    assert |a| == |a'|;
    assert a == s[..|a|] == a';
    assert b == s[|a| + 1..] == b';
  }

  /** The text of a valid card is its rank, a blank, then "of <suit name>"; the rank has no blank. */
  lemma CardSprintParts(c: Card)
    requires ValidSuit(c.suit)
    ensures NoSpaceOrNewline(Strconv.Itoa(c.rank as int))
    ensures CardSprint(c).value == Strconv.Itoa(c.rank as int) + " " + ("of " + SuitName[c.suit])
  {
  }

  /** The text of a card identifies the card: rendering loses neither rank nor suit. */
  lemma CardSprintInjective(c: Card, d: Card)
    requires CardSprint(c).Ok? && CardSprint(d).Ok?
    ensures CardSprint(c) == CardSprint(d) <==> c == d
  {
    if CardSprint(c) == CardSprint(d) {
      var nc, nd := SuitName[c.suit], SuitName[d.suit];
      CardSprintParts(c);
      CardSprintParts(d);
      SplitAtFirstSpace(Strconv.Itoa(c.rank as int), "of " + nc, Strconv.Itoa(d.rank as int), "of " + nd);
      Strconv.ItoaInjective(c.rank as int, d.rank as int);
      assert nc == ("of " + nc)[3..] == ("of " + nd)[3..] == nd;
      SuitNamesDistinct(c, d);
    }
  }

  predicate AllSuitsValid(cs: seq<Card>) {
    forall k :: 0 <= k < |cs| ==> ValidSuit(cs[k].suit)
  }

  /** The listing of a deck: one line "<rank> of <suit name>\n" per card, in deck order. */
  function Listing(cs: seq<Card>): string
    requires AllSuitsValid(cs)
  {
    if cs == [] then ""
    else Listing(cs[..|cs| - 1]) + CardSprint(cs[|cs| - 1]).value + "\n"
  }

  /** The listing of one card more is the listing so far followed by that card's line. */
  lemma ListingStep(cs: seq<Card>, k: nat)
    requires k < |cs| && AllSuitsValid(cs[..k]) && ValidSuit(cs[k].suit)
    ensures AllSuitsValid(cs[..k + 1])
    ensures Listing(cs[..k + 1]) == Listing(cs[..k]) + CardSprint(cs[k]).value + "\n"
  {
    assert cs[..k + 1][..k] == cs[..k];
  }

  function NewlineCount(s: string): nat {
    if s == [] then 0 else NewlineCount(s[..|s| - 1]) + (if s[|s| - 1] == '\n' then 1 else 0)
  }

  lemma {:induction false} NewlineCountAppend(s: string, t: string)
    ensures NewlineCount(s + t) == NewlineCount(s) + NewlineCount(t)
    decreases |t|
  {
    if t == [] {
      assert s + t == s;
    } else {
      assert (s + t)[..|s + t| - 1] == s + t[..|t| - 1];
      NewlineCountAppend(s, t[..|t| - 1]);
    }
  }

  lemma {:induction false} NoNewlineCount(s: string)
    requires forall k :: 0 <= k < |s| ==> s[k] != '\n'
    ensures NewlineCount(s) == 0
    decreases |s|
  {
    if s != [] {
      NoNewlineCount(s[..|s| - 1]);
    }
  }

  /** The listing has exactly one line per card. */
  lemma {:induction false} ListingLineCount(cs: seq<Card>)
    requires AllSuitsValid(cs)
    ensures NewlineCount(Listing(cs)) == |cs|
    decreases |cs|
  {
    if cs != [] {
      var prefix := cs[..|cs| - 1];
      var line := CardSprint(cs[|cs| - 1]).value;
      ListingLineCount(prefix);
      NoNewlineCount(line);
      NewlineCountAppend(Listing(prefix), line);
      NewlineCountAppend(Listing(prefix) + line, "\n");
    }
  }

  /** The slice `cs` after `append(cs[:i], cs[i+1:]...)`: the card at `i` removed, the rest in order. */
  function RemoveAt(cs: seq<Card>, i: nat): (r: seq<Card>)
    requires i < |cs|
    ensures |r| == |cs| - 1
    ensures forall k :: 0 <= k < i ==> r[k] == cs[k]
    ensures forall k :: i <= k < |r| ==> r[k] == cs[k + 1]
  {
    cs[..i] + cs[i + 1..]
  }

  /** Removing a card loses that card and no other. */
  lemma RemoveAtMultiset(cs: seq<Card>, i: nat)
    requires i < |cs|
    ensures multiset(cs) == multiset(RemoveAt(cs, i)) + multiset{cs[i]}
  {
    assert cs == cs[..i] + [cs[i]] + cs[i + 1..];
  }

  // ----- The fresh deck -----

  /** The card at position `k` belongs to the block of rank `k / 4`. */
  predicate InRankBlock(c: Card, k: int) {
    4 * c.rank as int <= k < 4 * c.rank as int + 4
  }

  /** The shape of a fresh deck: 52 different cards of valid suits in 13 blocks of 4,
      block `r` holding the cards of rank `r`, the suits of a block in some order. */
  ghost predicate IsFreshDeck(cs: seq<Card>) {
    |cs| == 52 &&
    (forall k :: 0 <= k < |cs| ==> InRankBlock(cs[k], k) && ValidSuit(cs[k].suit)) &&
    (forall i, j :: 0 <= i < j < |cs| ==> cs[i] != cs[j])
  }

  /** 1 when the card has suit `s`, else 0. */
  function Hit(c: Card, s: Suit): nat {
    if c.suit == s then 1 else 0
  }

  /** How many cards of `cs` have suit `s`. */
  function SuitCount(cs: seq<Card>, s: Suit): nat {
    if cs == [] then 0
    else SuitCount(cs[..|cs| - 1], s) + Hit(cs[|cs| - 1], s)
  }

  /** How many cards of `cs` have rank `r`. */
  function RankCount(cs: seq<Card>, r: int): nat {
    if cs == [] then 0
    else RankCount(cs[..|cs| - 1], r) + (if cs[|cs| - 1].rank as int == r then 1 else 0)
  }

  lemma SuitCountStep(cs: seq<Card>, s: Suit, n: nat)
    requires n < |cs|
    ensures SuitCount(cs[..n + 1], s) == SuitCount(cs[..n], s) + Hit(cs[n], s)
  {
    assert cs[..n + 1][..n] == cs[..n];
  }

  /** Four different cards of one rank, all of valid suits, hold each valid suit once. */
  lemma OneOfEachSuit(c0: Card, c1: Card, c2: Card, c3: Card, s: Suit)
    requires c0.rank == c1.rank == c2.rank == c3.rank
    requires c0 != c1 && c0 != c2 && c0 != c3 && c1 != c2 && c1 != c3 && c2 != c3
    requires ValidSuit(c0.suit) && ValidSuit(c1.suit) && ValidSuit(c2.suit) && ValidSuit(c3.suit)
    requires ValidSuit(s)
    ensures Hit(c0, s) + Hit(c1, s) + Hit(c2, s) + Hit(c3, s) == 1
  {
  }

  /** How many of the four cards of block `b` have suit `s`. */
  function BlockHits(cs: seq<Card>, s: Suit, b: nat): nat
    requires 4 * b + 4 <= |cs|
  {
    Hit(cs[4 * b], s) + Hit(cs[4 * b + 1], s) + Hit(cs[4 * b + 2], s) + Hit(cs[4 * b + 3], s)
  }

  lemma SuitCountFour(cs: seq<Card>, s: Suit, b: nat)
    requires 4 * b + 4 <= |cs|
    ensures SuitCount(cs[..4 * b + 4], s) == SuitCount(cs[..4 * b], s) + BlockHits(cs, s, b)
  {
    var m := 4 * b;
    SuitCountStep(cs, s, m);
    SuitCountStep(cs, s, m + 1);
    SuitCountStep(cs, s, m + 2);
    SuitCountStep(cs, s, m + 3);
  }

  /** Block `b` of a fresh deck holds suit `s` exactly once. */
  lemma FreshBlockHitsOnce(cs: seq<Card>, s: Suit, b: nat)
    requires IsFreshDeck(cs) && ValidSuit(s) && b < 13
    ensures BlockHits(cs, s, b) == 1
  {
    var m := 4 * b;
    assert InRankBlock(cs[m], m) && InRankBlock(cs[m + 1], m + 1);
    assert InRankBlock(cs[m + 2], m + 2) && InRankBlock(cs[m + 3], m + 3);
    OneOfEachSuit(cs[m], cs[m + 1], cs[m + 2], cs[m + 3], s);
  }

  /** A prefix of `n` blocks each holding suit `s` once holds it `n` times. */
  lemma {:induction false} SuitCountBlocks(cs: seq<Card>, s: Suit, n: nat)
    requires 4 * n <= |cs|
    requires forall b :: 0 <= b < n ==> BlockHits(cs, s, b) == 1
    ensures SuitCount(cs[..4 * n], s) == n
  {
    if n > 0 {
      SuitCountBlocks(cs, s, n - 1);
      SuitCountFour(cs, s, n - 1);
      assert 4 * (n - 1) + 4 == 4 * n;
    }
  }

  lemma {:induction false} RankCountPrefix(cs: seq<Card>, r: int, n: nat)
    requires IsFreshDeck(cs) && 0 <= r < 13 && n <= 52
    ensures RankCount(cs[..n], r) == if n <= 4 * r then 0 else if n >= 4 * r + 4 then 4 else n - 4 * r
  {
    if n > 0 {
      assert cs[..n][..n - 1] == cs[..n - 1];
      assert InRankBlock(cs[n - 1], n - 1);
      RankCountPrefix(cs, r, n - 1);
    }
  }

  /** In a fresh deck each valid suit occurs 13 times. */
  lemma FreshDeckSuitCount(cs: seq<Card>, s: Suit)
    requires IsFreshDeck(cs) && ValidSuit(s)
    ensures SuitCount(cs, s) == 13
  {
    forall b | 0 <= b < 13
      ensures BlockHits(cs, s, b) == 1
    {
      FreshBlockHitsOnce(cs, s, b);
    }
    SuitCountBlocks(cs, s, 13);
    assert cs[..52] == cs;
  }

  /** In a fresh deck each rank 0..12 occurs 4 times. */
  lemma FreshDeckRankCount(cs: seq<Card>, r: int)
    requires IsFreshDeck(cs) && 0 <= r < 13
    ensures RankCount(cs, r) == 4
  {
    RankCountPrefix(cs, r, 52);
    assert cs[..52] == cs;
  }

  /** A sequence whose positions hold pairwise different cards holds each card at most once. */
  lemma {:induction false} DistinctAtMostOnce(cs: seq<Card>, c: Card)
    requires forall i, j :: 0 <= i < j < |cs| ==> cs[i] != cs[j]
    ensures multiset(cs)[c] <= 1
    decreases |cs|
  {
    if cs != [] {
      var prefix, last := cs[..|cs| - 1], cs[|cs| - 1];
      assert cs == prefix + [last];
      DistinctAtMostOnce(prefix, c);
      if c == last {
        assert forall k :: 0 <= k < |prefix| ==> prefix[k] != last;
        assert c !in prefix;
      }
    }
  }

  /** No (rank, suit) pair repeats in a fresh deck: every card occurs at most once. */
  lemma FreshDeckNoDuplicates(cs: seq<Card>, c: Card)
    requires IsFreshDeck(cs)
    ensures multiset(cs)[c] <= 1
  {
    DistinctAtMostOnce(cs, c);
  }

  /** Every card of a full pack is in a fresh deck, whatever order the suits came in. */
  lemma FreshDeckComplete(cs: seq<Card>, c: Card)
    requires IsFreshDeck(cs)
    ensures c in cs <==> 0 <= c.rank < 13 && ValidSuit(c.suit)
  {
    if 0 <= c.rank < 13 && ValidSuit(c.suit) {
      var b := 4 * c.rank as int;
      assert InRankBlock(cs[b], b) && InRankBlock(cs[b + 1], b + 1);
      assert InRankBlock(cs[b + 2], b + 2) && InRankBlock(cs[b + 3], b + 3);
      assert cs[b] != cs[b + 1] && cs[b] != cs[b + 2] && cs[b] != cs[b + 3];
      assert cs[b + 1] != cs[b + 2] && cs[b + 1] != cs[b + 3] && cs[b + 2] != cs[b + 3];
      if cs[b].suit == c.suit {
        assert cs[b] == c;
      } else if cs[b + 1].suit == c.suit {
        assert cs[b + 1] == c;
      } else if cs[b + 2].suit == c.suit {
        assert cs[b + 2] == c;
      } else {
        assert cs[b + 3] == c;
      }
    }
  }

  /** A fresh deck renders without error, one line per card. */
  lemma FreshDeckRenders(cs: seq<Card>)
    requires IsFreshDeck(cs)
    ensures AllSuitsValid(cs) && NewlineCount(Listing(cs)) == 52
  {
    ListingLineCount(cs);
  }

  // ----- The deck -----

  /** The copy that `append(s[:i], s[i+1:]...)` makes in the backing array of a slice `s` of
      length `n`: each card after position `i` moves one place left; the last slot keeps its card. */
  method ShiftLeft(a: array<Card>, i: nat, n: nat)
    requires i < n <= a.Length
    modifies a
    ensures a[..n - 1] == RemoveAt(old(a[..n]), i)
    ensures a[n - 1..] == old(a[n - 1..])
  {
    var j := i;
    while j < n - 1
      invariant i <= j <= n - 1
      invariant forall k :: 0 <= k < i ==> a[k] == old(a[k])
      invariant forall k :: i <= k < j ==> a[k] == old(a[k + 1])
      invariant forall k :: j <= k < a.Length ==> a[k] == old(a[k])
    {
      a[j] := a[j + 1];
      j := j + 1;
    }
  }

  /** A deck: the slice `Cards` as its backing array and its length. */
  class Deck {
    var cards: array<Card>
    var len: nat

    ghost predicate Valid()
      reads this
    {
      len <= cards.Length
    }

    /** The cards of the deck, `d.Cards` in the source. */
    ghost function Cards(): seq<Card>
      reads this, cards
      requires Valid()
    {
      cards[..len]
    }

    /** A deck built from a literal slice of cards. */
    constructor FromCards(cs: seq<Card>)
      ensures Valid() && fresh(cards) && Cards() == cs
    {
      cards := new Card[|cs|](k requires 0 <= k < |cs| => cs[k]);
      len := |cs|;
    }

    /** A fresh deck: for each rank 0..12, one card of every suit of the name table, appended
        to a slice of capacity 52; the suits come in the table's unspecified iteration order. */
    constructor MakeDeck()
      ensures Valid() && fresh(cards) && cards.Length == 52
      ensures IsFreshDeck(Cards())
    {
      var cs: seq<Card> := [];
      var rank: Int8 := 0;
      while rank < 13
        invariant 0 <= rank <= 13 && |cs| == 4 * rank as int
        invariant forall k :: 0 <= k < |cs| ==> InRankBlock(cs[k], k) && ValidSuit(cs[k].suit)
        invariant forall i, j :: 0 <= i < j < |cs| ==> cs[i] != cs[j]
      {
        var remaining := SuitName.Keys;
        assert remaining == {Spades, Hearts, Clubs, Diamonds};
        while remaining != {}
          invariant remaining <= SuitName.Keys
          invariant 4 * rank as int <= |cs| && |cs| + |remaining| == 4 * rank as int + 4
          invariant forall k :: 0 <= k < |cs| ==> InRankBlock(cs[k], k) && ValidSuit(cs[k].suit)
          invariant forall k :: 0 <= k < |cs| ==> cs[k].rank < rank || (cs[k].rank == rank && cs[k].suit !in remaining)
          invariant forall i, j :: 0 <= i < j < |cs| ==> cs[i] != cs[j]
        {
          var suit :| suit in remaining;
          cs := cs + [Card(rank, suit)];
          remaining := remaining - {suit};
        }
        rank := rank + 1;
      }
      cards := new Card[52](k requires 0 <= k < 52 => cs[k]);
      len := 52;
    }

    /** Whether any card is left to draw. */
    predicate HasCardsLeft()
      reads this
      requires Valid()
      ensures HasCardsLeft() <==> |Cards()| > 0
    {
      len > 0
    }

    /** Draws a card at a random position `i` and removes it, shifting the cards after it one
        place left in the same backing array. Fails, changing nothing, on an empty deck. */
    method DrawCard() returns (r: Result<Card>, ghost i: nat)
      requires Valid()
      modifies this`len, cards
      ensures Valid() && cards == old(cards)
      ensures r.Err? <==> old(len) == 0
      ensures r.Err? ==> r.error == EmptyDeck && Cards() == old(Cards())
      ensures r.Ok? ==> i < old(len) && r.value == old(Cards())[i] && Cards() == RemoveAt(old(Cards()), i)
    {
      if !HasCardsLeft() {
        return Err(EmptyDeck), 0;
      }
      ghost var before := Cards();
      var pick :| 0 <= pick < len;  // rand.IntN(len(d.Cards))
      i := pick;
      var c := cards[pick];
      if pick == len - 1 {
        len := pick;
        assert Cards() == before[..pick] == RemoveAt(before, pick);
      } else {
        ShiftLeft(cards, pick, len);
        len := len - 1;
        assert Cards() == RemoveAt(before, pick);
      }
      r := Ok(c);
    }

    /** The deck as text, one line per card; fails when some card has an invalid suit. */
    method Sprint() returns (r: Result<string>)
      requires Valid()
      ensures r.Ok? <==> AllSuitsValid(Cards())
      ensures r.Ok? ==> r.value == Listing(Cards())
      ensures r.Err? ==> r.error == InvalidSuit
    {
      ghost var cs := Cards();
      var s := "";
      var k := 0;
      while k < len
        invariant 0 <= k <= len == |cs|
        invariant AllSuitsValid(cs[..k])
        invariant s == Listing(cs[..k])
      {
        assert cards[k] == cs[k];
        var line := CardSprint(cards[k]);
        if line.Err? {
          return Err(line.error);
        }
        ListingStep(cs, k);
        s := s + line.value + "\n";
        k := k + 1;
      }
      assert cs[..k] == cs;
      return Ok(s);
    }
  }
}
