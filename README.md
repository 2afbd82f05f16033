# cards.rb in Dafny

A model of `cards.rb`, a small Ruby program that deals cards and names the best
poker hand among them. Any number of cards can be dealt, and Jokers are wild.
The model covers the three classes of the program:

- `Card` (module `Cards`). A card is a standard card (rank and suit) or a Red
  or Black Joker. The model covers its rank value, its suit value and its two
  renderings (`to_s` and `to_s(:short)`).
- `Deck` (module `Decks`). A class with the draw pile `cards` and the discard
  pile `drawn`, both updated in place. It covers `fill` and its nested loops,
  the constructor, `return_discards`, `shuffle` (any permutation of the
  recycled pile) and `draw`. Beside it are the slicing arithmetic `draw` uses
  as written, and the facts about the deck `fill` builds.
- `Hand` (modules `Tally`, `Straights`, `Hand`, `HandTheory`). These are the
  eight checks and `best`.
  - A check returns a `Label` (the category and the ranks or suit it names) in
    place of the label text, and `None` for nil.
  - The counting the checks share (the `reject`/`select`/`group_by` buckets,
    and "highest rank passing a test") is in `Tally`.
  - The straight search is in `Straights`, both as a specification function
    and as the source's loops.
  - `HandTheory` proves that `best` gives the same label to two hands holding
    the same cards, as long as both are in the order `draw` sorts them into.
  - `HandCases` works `best` out on four sorted hands: a Royal Flush, a wheel
    completed by two Jokers, four of a kind and a full house made with a Joker.

Where the code departs from what its header comment (cards.rb:1-5) and its
method names suggest, the model follows the code:

- `straight?` tries its anchors in the reverse of the hand's order, not in
  descending rank. It finds the highest straight only on a hand sorted as
  `draw` leaves it. `HandTheory.BestDependsOnOrder` gives six cards for which
  `best` reports different straights in two orders. Determinism is therefore
  proved for sorted hands only (`HandTheory.BestDeterministic`).
- `straight_flush?` runs `straight?` on a suit's literal cards alone. The Jokers
  count towards the flush size but never fill a gap in the straight.
- The Royal test starts again with every Joker, instead of spending only the
  Jokers the straight left over.
- A Joker's `suit_value` is 4, the same as Spades; it is not above every suit
  (`Cards.SuitValueOrder`).
- `best` is not total: `two_pair?` fails on hands of one to four Jokers (see
  Findings).
- `draw` has no error: asking for more cards than the deck holds leaves a nil
  pile (see Findings).

## Model

| member | source | states |
|---|---|---|
| `Cards.Card.IsJoker` | cards.rb:46-48 | true exactly for the Red and the Black Joker |
| `Cards.Card.ToString` | cards.rb:30-44 | the shape of each rendering: a Joker's short form is `Jk(` + letter + `)` and its long form ends in " Joker"; a standard card's short form ends in its suit's first letter and its long form in " of " + suit. That the renderings name the card is `Cards.RenderingRoundTrip` |
| `Cards.Card.Value` | cards.rb:50-52 | nil exactly for a Joker; otherwise the rank's position in RANK_ORDER |
| `Cards.Card.SuitValue` | cards.rb:54-60 | between 1 and 4; for a standard card, one past the suit's position in SUITS |
| `Cards.SuitValueOrder` | cards.rb:54-60 | a Joker's suit value equals that of Spades; on standard cards suit values are injective and ordered as SUITS |
| `Cards.RenderingRoundTrip` | cards.rb:30-44 | the long and the short rendering of every card, read back, give that card |
| `Cards.RenderingInjective` | cards.rb:30-44 | no two different cards render alike in either form |
| `Tally.SortKey` | cards.rb:110 | `draw`'s sort key: 14 exactly for a Joker; for a standard card, below 13 and the position of its rank |
| `Tally.SelectCounts` | cards.rb:139-140 | a `select`/`reject` bucket holds each card it keeps as often as the hand does, and no other card |
| `Tally.PresentMeans` | cards.rb:180 | a rank has a non-empty bucket exactly when some standard card of that rank is in the hand |
| `Tally.SameCardsSameCounts` | cards.rb:262-264 | hands with the same cards have the same Joker count, rank counts and suit buckets |
| `Tally.TopRank` | cards.rb:268 | the highest rank passing the test, and None exactly when no rank passes |
| `Tally.TopTwoRanks` | cards.rb:243 | the two highest ranks passing the test, distinct, and None exactly when fewer than two pass |
| `Tally.TopSuit` | cards.rb:257 | the suit latest in SUITS passing the test, and None exactly when none passes |
| `Tally.SelectKeepsOrder` | cards.rb:110 | every bucket of a hand sorted by `draw`'s key is sorted |
| `Straights.StraightOf` | cards.rb:170-220 | a reported straight is 5 high or higher; what it reports is characterised by `Straights.StraightFound` and `Straights.StraightIsHighestWhenSorted` |
| `Straights.ScanAnchors` | cards.rb:171-202 | the position of the last literal card (first in `reverse`) that anchors a straight; None exactly when no literal card does |
| `Straights.NoAnchorInMeans` | cards.rb:171-202 | when the scan passes over a range of literal cards, none of them anchors a straight |
| `Straights.AnchorBelowReported` | cards.rb:171-202 | on a sorted hand, every held anchor lies at least four ranks below the reported straight |
| `Straights.StraightFound` | cards.rb:170-220 | a straight is found exactly when a held rank anchors one or the wheel can be completed; "5 high" exactly when only the wheel works |
| `Straights.ScanFindsAnchor` | cards.rb:171-202 | the anchor scan succeeds exactly when some held rank anchors a straight |
| `Straights.StraightIsHighestWhenSorted` | cards.rb:170-220 | on a sorted hand, no held rank anchors a straight higher than the one reported |
| `Straights.StraightSameForSameCards` | cards.rb:170-220 | two sorted hands with the same cards get the same straight |
| `Straights.AnchorOf` | cards.rb:171-201 | a reported straight other than the wheel is named by the rank four places above a held anchor |
| `Straights.SameTestsForSameRanks` | cards.rb:176-213 | the anchor and wheel tests depend only on the ranks held and the number of Jokers |
| `Straights.StraightDependsOnOrder` | cards.rb:171 | 7,6,5,4,3,2 gives a 6 high straight while the same cards ascending give 7 high |
| `Straights.CoveredByJokers` | cards.rb:206-213 | the Joker loop succeeds exactly when the Jokers cover every absent rank of the list |
| `Straights.TryAnchor` | cards.rb:172-198 | the step loop succeeds exactly when the anchor is valid, and then reports the rank four places above it |
| `Straights.TryWheel` | cards.rb:203-217 | "5 high" exactly when the wheel test holds |
| `Straights.FindStraight` | cards.rb:170-220 | the source's loops return exactly the straight the specification function gives |
| `Hand.KindOf` | cards.rb:262-268 | the highest rank with a bucket that reaches `n` together with all Jokers; None exactly when no rank does |
| `Hand.FourOf` | cards.rb:261-271 | reports only a four-of-a-kind label; which rank is `Hand.OfAKindMeans` |
| `Hand.ThreeOf` | cards.rb:273-283 | reports only a three-of-a-kind label; which rank is `Hand.OfAKindMeans` |
| `Hand.PairOf` | cards.rb:285-295 | reports only a pair label; which rank is `Hand.OfAKindMeans` |
| `Hand.OfAKindMeans` | cards.rb:261-295 | `four?`, `three?` and `pair?` give the highest qualifying rank for 4, 3 and 2, and nil exactly when none qualifies |
| `Hand.FlushSuitOf` | cards.rb:250-258 | the qualifying suit latest in SUITS; None exactly when no suit reaches five with the Jokers |
| `Hand.FlushOf` | cards.rb:250-259 | reports only a flush label; which suit, and when, is `Hand.FlushOfMeans` |
| `Hand.FlushOfMeans` | cards.rb:250-259 | `flush?` names a qualifying suit that no qualifying suit follows in SUITS, and is nil exactly when none qualifies |
| `Hand.TopTriple` | cards.rb:223-232 | the highest rank with three literal cards; None exactly when there is none |
| `Hand.PartnerOf` | cards.rb:233 | the highest true pair of another rank; None exactly when every true pair is that rank |
| `Hand.TopPairs` | cards.rb:242-243 | the two highest true pairs; None exactly when fewer than two ranks are truly paired |
| `Hand.StraightCheck` | cards.rb:170-220 | reports only a straight label; which straight is `Straights.StraightFound` |
| `Hand.FullHouseOf` | cards.rb:222-248 | reports only a full-house label; its ranks, and when, are `Hand.FullHouseOfMeans` |
| `Hand.FullHouseOfMeans` | cards.rb:222-248 | without Jokers: a full house exactly when a triple has a pair of another rank, using the top triple; with one Joker: exactly when two ranks are truly paired, using the two highest; with more Jokers: nil |
| `Hand.TopTripleHasPartner` | cards.rb:232-237 | when the top triple has no partner, no triple has one |
| `Hand.HigherTriplesAreLonely` | cards.rb:232-237 | the first triple from the top that has a partner is the top triple |
| `Hand.FullHouseCheck` | cards.rb:222-248 | the source's loop over triples from the highest down returns exactly `FullHouseOf` |
| `Hand.HighUnpaired` | cards.rb:301 | `high_card`: the highest rank held exactly once; None exactly when no rank is held once |
| `Hand.TopCandidates` | cards.rb:303-310 | the two highest pair candidates (true pairs, plus `high_card` when there is a Joker); None exactly when there are fewer than two |
| `Hand.TwoPairOf` | cards.rb:297-313 | reports only a two-pair label; its ranks, and when, are `Hand.TwoPairOfMeans` |
| `Hand.TwoPairOfMeans` | cards.rb:297-313 | two pair names two distinct candidates, the highest and the highest after it, and is nil exactly when fewer than two exist |
| `Hand.TwoPairAsWritten` | cards.rb:301-306 | `two_pair?` fails exactly when the hand holds a Joker and no rank exactly once; otherwise it gives `TwoPairOf` |
| `Hand.SfKey` | cards.rb:148-152 | the sort key times ten: non-negative exactly for a qualifying suit, whose key has the high rank's index as tens and the suit's index as units |
| `Hand.BestSfSuitBelow` | cards.rb:139-152 | a qualifying suit whose key no other qualifying suit exceeds; None exactly when no suit qualifies |
| `Hand.KeyOrder` | cards.rb:148-152 | comparing keys is comparing straight highs, then suits |
| `Hand.StraightFlushOf` | cards.rb:138-168 | reports only a straight-flush label; its suit, Royal flag and when are `Hand.StraightFlushOfMeans` |
| `Hand.StraightFlushOfMeans` | cards.rb:138-168 | a straight flush exactly when some suit's flush holds a straight; the reported suit has the highest straight, ties going to the later suit; Royal exactly when the Jokers fill 10 to Ace |
| `Hand.StraightFlushCheck` | cards.rb:138-168 | the source's Royal loop and suit choice return exactly `StraightFlushOf` |
| `Hand.CheckOf` | cards.rb:124-131 | each check reports only labels of its own category |
| `Hand.BestFrom` | cards.rb:124-132 | the label of the first check that fires, all checks before it being nil |
| `Hand.Best` | cards.rb:123-136 | `best` names the first check in priority order that fires, and gives Nothing exactly when none fires |
| `Hand.BestIs` | cards.rb:123-133 | when one check fires and every check above it is nil, `best` reports that check's label |
| `Hand.StraightIsBest` | cards.rb:123-133 | on a hand with at most two Jokers, no rank twice and no suit that can reach five, a straight is what `best` reports |
| `Hand.BestAsWritten` | cards.rb:123-136 | where the source's `best` returns, it returns `Best`; when it fails is `Hand.BestAsWrittenFails` |
| `Hand.AsWrittenAgrees` | cards.rb:123-133 | where the source's `best` returns, it returns what `Best` gives |
| `Hand.AsWrittenFails` | cards.rb:123-133 | the source's `best` fails exactly when every check above `two_pair?` is nil and `two_pair?` fails |
| `Hand.JokersOnly` | cards.rb:123-131 | on a hand of Jokers alone, up to four Jokers fire nothing above `two_pair?`; five or more make the wheel, a 5 high straight |
| `Hand.JokersOnlyTwoPair` | cards.rb:301-305 | on a hand of Jokers alone, `two_pair?` fails exactly when there is at least one |
| `Hand.NoRankedCheckFires` | cards.rb:138-313 | with no rank or suit counts, none of the seven checks other than `straight?` fires |
| `Hand.FailureNeedsNoLiterals` | cards.rb:273-306 | when `three?` is nil, `two_pair?` can fail only on a hand without standard cards |
| `Hand.BestAsWrittenFails` | cards.rb:123-133 | the source's `best` fails exactly on hands of one to four Jokers, and otherwise gives `Best` |
| `Hand.LoneJokerFails` | cards.rb:301-305 | a single Joker makes the source's `best` fail |
| `HandTheory.DrawnHandCounts` | cards.rb:110 | two sorted arrangements of the same cards have the same counts |
| `HandTheory.SameKindOf` | cards.rb:261-295 | hands with the same counts get the same of-a-kind rank |
| `HandTheory.SameFlushSuitOf` | cards.rb:250-259 | hands with the same counts get the same flush suit |
| `HandTheory.SameTopCandidates` | cards.rb:297-313 | hands with the same counts get the same two-pair candidates |
| `HandTheory.SameSuitTests` | cards.rb:139-163 | two sorted hands with the same cards agree, suit by suit, on qualifying, the straight's key and Royal |
| `HandTheory.SameStraightFlush` | cards.rb:138-168 | two sorted hands with the same cards get the same straight flush |
| `HandTheory.SameFullHouse` | cards.rb:222-248 | hands with the same counts get the same full house |
| `HandTheory.SameCheck` | cards.rb:124-131 | two sorted hands with the same cards get the same result from every check |
| `HandTheory.BestDeterministic` | cards.rb:123-136 | two sorted hands with the same cards get the same label from `best` |
| `HandTheory.BestAsWrittenDeterministic` | cards.rb:123-136 | the same holds for the source's `best`, failure included |
| `HandTheory.BestDependsOnOrder` | cards.rb:123-132 | 7, 6, 5, 4, 3, 2 of mixed suits get a 6 high straight from `best`, and the same cards ascending a 7 high one |
| `HandCases.RoyalFlushOfSpades` | cards.rb:138-168 | `best` reports 10, J, Q, K, A of Spades as a Royal Flush of Spades |
| `HandCases.OneSuitRoyal` | cards.rb:138-168 | a Joker-free hand of one suit holding a straight and 10 to Ace is a Royal Flush of that suit |
| `HandCases.WheelWithJokers` | cards.rb:203-217 | `best` reports 2, 3, A and two Jokers as a 5 high straight |
| `HandCases.FourSevens` | cards.rb:261-271 | `best` reports 2, three sevens and a Joker as four sevens |
| `HandCases.TripleAndJokerMakeFour` | cards.rb:261-271 | with one Joker, a rank held three times, no other rank twice and no suit of four, `best` reports four of that rank |
| `HandCases.EightsOverFives` | cards.rb:238-247 | `best` reports two fives, two eights and a Joker as a full house, eights over fives |
| `HandCases.TwoPairsAndJokerMakeFullHouse` | cards.rb:238-247 | with one Joker, exactly two ranks held twice, none three times and no suit of four, `best` reports the higher over the lower |
| `Decks.FullDeck` | cards.rb:67-84 | `fill` appends 52 cards, or 54 with Jokers, the Jokers last |
| `Decks.FullDeckOrder` | cards.rb:68-75 | suit-major, rank-minor: card 13*s + r is rank r of suit s |
| `Decks.FullDeckHoldsEachCardOnce` | cards.rb:67-84 | a filled deck holds every standard card exactly once |
| `Decks.FullDeckJokers` | cards.rb:76-83 | a filled deck holds each Joker once when Jokers are asked for, and none otherwise |
| `Decks.Insert` | cards.rb:110 | inserting into a sorted hand keeps it sorted and adds exactly that card |
| `Decks.SortByKey` | cards.rb:110 | a sorted permutation of any hand exists: the `sort_by!` of `draw` can always be met |
| `Decks.Deck.constructor` | cards.rb:86-91 | a new deck has the filled deck as its pile and no discards |
| `Decks.Deck.AppendSuit` | cards.rb:69-75 | the inner loop of `fill` appends the suit's thirteen cards in rank order |
| `Decks.Deck.AppendJokers` | cards.rb:76-83 | the Joker loop appends a Red Joker, then a Black one |
| `Decks.Deck.Fill` | cards.rb:67-84 | `fill` appends the full deck to the pile and leaves the discards alone |
| `Decks.Deck.ReturnDiscards` | cards.rb:99-102 | the discards go under the pile; no card is gained or lost |
| `Decks.Deck.Shuffle` | cards.rb:93-97 | the pile becomes a permutation of both old piles and the discards are empty; no card is gained or lost |
| `Decks.Deck.Draw` | cards.rb:104-116 | refused exactly when the deck holds fewer than `n` cards, and then nothing changes; otherwise reshuffles only when the pile is short, returns the first `n` cards of the pile sorted by key, keeps the rest as the pile, discards the hand, and loses no card |
| `Decks.RubySlice` | cards.rb:109-111 | Ruby's `s[a..b]`: nil exactly when the start is past the end; from `a` to the end when `b` is -1 or at or past the last index; elements `a` to `b` when `a <= b` is in range; empty when `b < a` |
| `Decks.DrawAsWritten` | cards.rb:109-111 | `draw` as written leaves a nil pile exactly when `n` exceeds the pile |
| `Decks.DrawAsWrittenAgrees` | cards.rb:109-111 | for 1 <= n <= pile size the source's slices take the first n cards and keep the rest |
| `Decks.DrawZeroDuplicates` | cards.rb:109-112 | `draw(0)` hands out the whole pile and keeps it, so cards are duplicated |
| `Decks.DrawPastEndLosesPile` | cards.rb:105-111 | asking for more than the whole deck hands out everything and leaves a nil pile |

## Left out

- Printing (`puts` in `draw`, lines 106 and 113) is not modelled. So `draw` does not call `best` on the hand. In the source that call fails on a hand of one to four Jokers after the piles have already changed.
- The randomness of `shuffle` is not modelled: the new pile is any permutation of the old cards.
- `sort_by!` in `draw` is not stable. The hand is modelled as any sorted permutation of the cards drawn.
- The reload guard `remove_const` (line 23) and the attribute setters (lines 28 and 65) are not modelled. Cards are only the 52 standard cards and the two Jokers, and the piles change only through the deck's methods.
- The label text of every check is not modelled; a `Label` value stands for it.
- Cards.Card.ToString: the short form (lines 33 and 39) calls `String#first`, which core Ruby does not define; ActiveSupport adds it. Without ActiveSupport loaded, `to_s(:short)` raises NoMethodError. The model assumes ActiveSupport is loaded and reads `suit.first` as the suit's first character, so the short half of `Cards.RenderingRoundTrip` holds only in that setting.
- `straight?` collects `used_cards` (lines 175, 184 and 189) but never reads them. They are not modelled.
- The Float sort key of `straight_flush?` (line 150) is modelled as the same key times ten, in integers. It orders the suits the same way.
- `draw` takes a `nat`; a negative count is not modelled.
- `shuffle`'s `return_discards` parameter is not modelled: the source ignores it and always recycles the discards.
- Decks.Deck.Draw: it models the corrected `draw`, not the source's slices (those are `Decks.DrawAsWritten`). It refuses an impossible draw before reshuffling and changes nothing. The source reshuffles first.
- HandTheory.BestDeterministic: it is proved for hands in `draw`'s sorted order only, because on an unsorted hand `best` depends on the order of the cards (`HandTheory.BestDependsOnOrder`).

## Findings

| source | as written | input that shows it | evidently intended | confidence | as-written member | corrected member |
|---|---|---|---|---|---|---|
| cards.rb:109-112 | `cards[0..hand-1]` with `hand == 0` is `cards[0..-1]`, the whole pile, and `cards[0..-1]` is kept as the pile | any non-empty pile, `draw(0)` | draw nothing and keep the pile | not executed | `Decks.DrawZeroDuplicates` | `Decks.Deck.Draw` |
| cards.rb:105-111 | after the reshuffle the pile may still be short; `cards[hand..-1]` is then nil and the deck is lost | a 52-card deck, `draw(60)` | refuse a draw larger than the deck | not executed | `Decks.DrawPastEndLosesPile` | `Decks.Deck.Draw` |
| cards.rb:301-305 | with a Joker and no unpaired standard card, `high_card` is nil and `high_card.rank` fails, so `best` fails | a hand of one Red Joker | skip the Joker pair when there is no high card | not executed | `Hand.LoneJokerFails` | `Hand.TwoPairOf` |
