/** A player and the hand dealt to it from a deck (game/player.go). */
module Player {
  import opened Deck

  /** A player: a name, the hand it was dealt, and its count of completed books. */
  datatype Player = Player(name: string, hand: seq<Card>, books: Int8)

  /** Positions a sequence of draws may take from `n` cards: the `k`-th draw sees `n - k` cards. */
  predicate ValidPicks(n: nat, picks: seq<nat>) {
    forall k :: 0 <= k < |picks| ==> picks[k] < n - k
  }

  /** The outcome of a sequence of draws: the cards drawn, in draw order, and what is left. */
  datatype Dealt = Dealt(hand: seq<Card>, rest: seq<Card>)

  /** Draws from `cs` at the positions `picks`, one after the other, as `DrawCard` does. */
  function Deal(cs: seq<Card>, picks: seq<nat>): (r: Dealt)
    requires ValidPicks(|cs|, picks)
    ensures |r.hand| == |picks| && |r.rest| == |cs| - |picks|
    ensures multiset(cs) == multiset(r.hand) + multiset(r.rest)
    decreases |picks|
  {
    if picks == [] then Dealt([], cs)
    else
      var before := Deal(cs, picks[..|picks| - 1]);
      var p := picks[|picks| - 1];
      RemoveAtMultiset(before.rest, p);
      Dealt(before.hand + [before.rest[p]], RemoveAt(before.rest, p))
  }

  /** One more draw at position `p` extends the hand by the card there and removes it from the rest. */
  lemma DealStep(cs: seq<Card>, picks: seq<nat>, p: nat)
    requires ValidPicks(|cs|, picks) && p < |Deal(cs, picks).rest|
    ensures ValidPicks(|cs|, picks + [p])
    ensures var before := Deal(cs, picks);
      Deal(cs, picks + [p]) == Dealt(before.hand + [before.rest[p]], RemoveAt(before.rest, p))
  {
    assert (picks + [p])[..|picks|] == picks;
  }

  /** The `k`-th card of the hand is the card the `k`-th draw took from what the earlier draws left. */
  lemma {:induction false} DealInDrawOrder(cs: seq<Card>, picks: seq<nat>, k: nat)
    requires ValidPicks(|cs|, picks) && k < |picks|
    ensures Deal(cs, picks).hand[k] == Deal(cs, picks[..k]).rest[picks[k]]
    decreases |picks|
  {
    var last := |picks| - 1;
    assert ValidPicks(|cs|, picks[..last]);
    if k < last {
      DealInDrawOrder(cs, picks[..last], k);
      assert picks[..last][..k] == picks[..k];
    } else {
      assert picks[..k] == picks[..last];
    }
  }

  /** Drawing as many times as there are cards empties the deck and hands over every card. */
  lemma DealEverything(cs: seq<Card>, picks: seq<nat>)
    requires ValidPicks(|cs|, picks) && |picks| == |cs|
    ensures Deal(cs, picks).rest == []
    ensures multiset(Deal(cs, picks).hand) == multiset(cs)
  {
  }

  /** Builds a player by drawing `handSize` cards from `d` into its hand, in draw order.
      On the first failed draw it fails with that error; the cards drawn before stay out of the deck. */
  method NewPlayer(d: Deck, name: string, handSize: Int8) returns (r: Result<Player>, ghost picks: seq<nat>)
    requires d.Valid() && handSize >= 0
    modifies d`len, d.cards
    ensures d.Valid() && d.cards == old(d.cards)
    ensures ValidPicks(|old(d.Cards())|, picks)
    ensures d.Cards() == Deal(old(d.Cards()), picks).rest
    ensures r.Ok? <==> handSize as int <= |old(d.Cards())|
    ensures r.Ok? ==> r.value == Player(name, Deal(old(d.Cards()), picks).hand, 0)
    ensures r.Ok? ==> |r.value.hand| == handSize as int && |d.Cards()| == |old(d.Cards())| - handSize as int
    ensures r.Ok? ==> multiset(old(d.Cards())) == multiset(r.value.hand) + multiset(d.Cards())
    ensures r.Err? ==> r.error == EmptyDeck && d.Cards() == [] && |picks| == |old(d.Cards())|
    ensures handSize == 0 ==> r.Ok? && r.value.hand == [] && d.Cards() == old(d.Cards())
  {
    ghost var before := d.Cards();
    var hand: seq<Card> := [];
    picks := [];
    var n: Int8 := 0;
    while n < handSize
      invariant 0 <= n <= handSize
      invariant d.Valid() && d.cards == old(d.cards)
      invariant |picks| == n as int && ValidPicks(|before|, picks)
      invariant Deal(before, picks) == Dealt(hand, d.Cards())
    {
      ghost var rest := d.Cards();
      var c;
      ghost var i;
      c, i := d.DrawCard();
      if c.Err? {
        assert d.Cards() == rest == [] && |picks| == |before|;
        return Err(c.error), picks;
      }
      DealStep(before, picks, i);
      picks := picks + [i];
      hand := hand + [c.value];
      n := n + 1;
    }
    assert n == handSize && |d.Cards()| == |before| - handSize as int;
    r := Ok(Player(name, hand, 0));
  }
}
