/** The card value type of cards.rb: a standard card with a rank and a suit,
    or a Joker whose colour is kept only for display. */
module Cards {
  import opened Wrappers

  /** The thirteen ranks, listed in RANK_ORDER (2 lowest, Ace highest). */
  datatype Rank = Two | Three | Four | Five | Six | Seven | Eight | Nine | Ten
                | Jack | Queen | King | Ace
  {
    /** The rank's position in RANK_ORDER. */
    function Index(): (i: nat)
      ensures i < 13 && RANK_ORDER[i] == this
    {
      match this
      case Two => 0
      case Three => 1
      case Four => 2
      case Five => 3
      case Six => 4
      case Seven => 5
      case Eight => 6
      case Nine => 7
      case Ten => 8
      case Jack => 9
      case Queen => 10
      case King => 11
      case Ace => 12
    }

    /** How the rank is written: the number for 2..10, the word otherwise. */
    function Name(): string {
      match this
      case Two => "2"
      case Three => "3"
      case Four => "4"
      case Five => "5"
      case Six => "6"
      case Seven => "7"
      case Eight => "8"
      case Nine => "9"
      case Ten => "10"
      case Jack => "Jack"
      case Queen => "Queen"
      case King => "King"
      case Ace => "Ace"
    }
  }

  const RANK_ORDER: seq<Rank> :=
    [Two, Three, Four, Five, Six, Seven, Eight, Nine, Ten, Jack, Queen, King, Ace]

  /** The rank at position `i` of RANK_ORDER; the inverse of `Index`. */
  function RankAt(i: int): (r: Rank)
    requires 0 <= i < 13
    ensures r.Index() == i
  {
    RANK_ORDER[i]
  }

  /** The four suits, listed in SUITS. */
  datatype Suit = Clubs | Diamonds | Hearts | Spades
  {
    /** The suit's position in SUITS. */
    function Index(): (i: nat)
      ensures i < 4 && SUITS[i] == this
    {
      match this
      case Clubs => 0
      case Diamonds => 1
      case Hearts => 2
      case Spades => 3
    }

    function Name(): string {
      match this
      case Clubs => "Clubs"
      case Diamonds => "Diamonds"
      case Hearts => "Hearts"
      case Spades => "Spades"
    }
  }

  const SUITS: seq<Suit> := [Clubs, Diamonds, Hearts, Spades]

  /** The suit at position `i` of SUITS; the inverse of `Index`. */
  function SuitAt(i: int): (s: Suit)
    requires 0 <= i < 4
    ensures s.Index() == i
  {
    SUITS[i]
  }

  /** A Joker carries a colour (stored in the suit slot by the source). */
  datatype Color = Red | Black
  {
    function Name(): string {
      match this
      case Red => "Red"
      case Black => "Black"
    }
  }

  datatype Format = Long | Short

  datatype Card = Standard(rank: Rank, suit: Suit) | Joker(color: Color)
  {
    /** `joker?`: the card is one of the two Jokers. */
    predicate IsJoker(): (b: bool)
      ensures b <==> this == Joker(Red) || this == Joker(Black)
    {
      match this
      case Joker(c) => assert c == Red || c == Black; true
      case Standard(_, _) => false
    }

    /** `value`: the rank's index in RANK_ORDER, nil for a Joker. */
    function Value(): (v: Option<nat>)
      ensures v.None? <==> IsJoker()
      ensures v.Some? ==> v.value < 13 && RankAt(v.value) == rank
    {
      if Joker? then None else Some(rank.Index())
    }

    /** `suit_value`: one past the suit's index in SUITS, and 4 for a Joker. */
    function SuitValue(): (v: nat)
      ensures 1 <= v <= 4
      ensures Standard? ==> SuitAt(v - 1) == suit
    {
      if Joker? then 4 else suit.Index() + 1
    }

    /** `to_s`: "<rank> of <suit>" / "<colour> Joker", or in the short form
        "<rank><suit initial>" / "Jk(<colour initial>)". */
    function ToString(format: Format): (t: string)
      ensures Joker? && format == Short ==> |t| == 5 && t[..3] == "Jk(" && t[4] == ')'
      ensures Joker? && format == Long ==> |t| > 6 && t[|t| - 6..] == " Joker"
      ensures Standard? && format == Short ==> |t| >= 2 && t[|t| - 1] == suit.Name()[0]
      ensures Standard? && format == Long ==> |t| > |suit.Name()| + 4 && t[|t| - |suit.Name()| - 4..] == " of " + suit.Name()
    {
      match (this, format)
      case (Joker(c), Short) => "Jk(" + [c.Name()[0]] + ")"
      case (Joker(c), Long) => c.Name() + " " + "Joker"
      case (Standard(r, s), Short) => r.Name() + [s.Name()[0]]
      case (Standard(r, s), Long) => r.Name() + " " + "of" + " " + s.Name()
    }
  }

  /** A Joker's suit value coincides with that of Spades, and standard
      cards of different suits have different suit values. */
  lemma SuitValueOrder(c: Card, d: Card)
    ensures c.IsJoker() ==> c.SuitValue() == Standard(Ace, Spades).SuitValue()
    ensures c.Standard? && d.Standard? && c.SuitValue() == d.SuitValue() ==> c.suit == d.suit
    ensures c.Standard? && d.Standard? ==> (c.SuitValue() < d.SuitValue() <==> c.suit.Index() < d.suit.Index())
  {
  }

  // ---------------------------------------------------------------------
  // Reading a rendered card back, to show that `ToString` loses nothing.

  function RankNamed(name: string): (r: Option<Rank>)
    ensures r.Some? ==> r.value.Name() == name
  {
    if name == "2" then Some(Two) else if name == "3" then Some(Three)
    else if name == "4" then Some(Four) else if name == "5" then Some(Five)
    else if name == "6" then Some(Six) else if name == "7" then Some(Seven)
    else if name == "8" then Some(Eight) else if name == "9" then Some(Nine)
    else if name == "10" then Some(Ten) else if name == "Jack" then Some(Jack)
    else if name == "Queen" then Some(Queen) else if name == "King" then Some(King)
    else if name == "Ace" then Some(Ace) else None
  }

  function SuitNamed(name: string): (s: Option<Suit>)
    ensures s.Some? ==> s.value.Name() == name
  {
    if name == "Clubs" then Some(Clubs) else if name == "Diamonds" then Some(Diamonds)
    else if name == "Hearts" then Some(Hearts) else if name == "Spades" then Some(Spades)
    else None
  }

  function SuitWithInitial(ch: char): (s: Option<Suit>)
    ensures s.Some? ==> s.value.Name()[0] == ch
  {
    if ch == 'C' then Some(Clubs) else if ch == 'D' then Some(Diamonds)
    else if ch == 'H' then Some(Hearts) else if ch == 'S' then Some(Spades)
    else None
  }

  function ColorNamed(name: string): (c: Option<Color>)
    ensures c.Some? ==> c.value.Name() == name
  {
    if name == "Red" then Some(Red) else if name == "Black" then Some(Black) else None
  }

  function ColorWithInitial(ch: char): (c: Option<Color>)
    ensures c.Some? ==> c.value.Name()[0] == ch
  {
    if ch == 'R' then Some(Red) else if ch == 'B' then Some(Black) else None
  }

  /** Position of the first blank in `s`, or `|s|` if there is none. */
  function FirstBlank(s: string): (i: nat)
    ensures i <= |s| && ' ' !in s[..i]
    ensures i < |s| ==> s[i] == ' '
  {
    if s == [] then 0
    else if s[0] == ' ' then 0
    else assert s[..1 + FirstBlank(s[1..])] == [s[0]] + s[1..][..FirstBlank(s[1..])]; 1 + FirstBlank(s[1..])
  }

  /** The first word of `s` and what follows the blank after it. */
  function SplitWord(s: string): (string, string) {
    var i := FirstBlank(s);
    if i < |s| then (s[..i], s[i + 1..]) else (s, "")
  }

  lemma SplitJoined(w: string, rest: string)
    requires ' ' !in w
    ensures SplitWord(w + " " + rest) == (w, rest)
  {
    var s := w + " " + rest;
    assert s == w + (" " + rest);
    FirstBlankIsLength(w, " " + rest);
    assert s[..|w|] == w && s[|w| + 1..] == rest;
  }

  lemma {:induction false} FirstBlankIsLength(w: string, tail: string)
    requires ' ' !in w && |tail| > 0 && tail[0] == ' '
    ensures FirstBlank(w + tail) == |w|
  {
    if w != [] {
      assert (w + tail)[1..] == w[1..] + tail;
      FirstBlankIsLength(w[1..], tail);
    }
  }

  function ParseLong(s: string): Option<Card> {
    var (w, rest) := SplitWord(s);
    if rest == "Joker" then
      match ColorNamed(w)
      case Some(c) => Some(Joker(c))
      case None => None
    else
      var (o, suitName) := SplitWord(rest);
      match (o == "of", RankNamed(w), SuitNamed(suitName))
      case (true, Some(r), Some(su)) => Some(Standard(r, su))
      case _ => None
  }

  function ParseShort(s: string): Option<Card> {
    if |s| == 5 && s[..3] == "Jk(" && s[4] == ')' then
      match ColorWithInitial(s[3])
      case Some(c) => Some(Joker(c))
      case None => None
    else if |s| >= 2 then
      match (RankNamed(s[..|s| - 1]), SuitWithInitial(s[|s| - 1]))
      case (Some(r), Some(su)) => Some(Standard(r, su))
      case _ => None
    else None
  }

  lemma NamesReadBack(r: Rank, su: Suit, col: Color)
    ensures RankNamed(r.Name()) == Some(r) && ' ' !in r.Name()
    ensures SuitNamed(su.Name()) == Some(su) && ' ' !in su.Name()
    ensures SuitWithInitial(su.Name()[0]) == Some(su)
    ensures ColorNamed(col.Name()) == Some(col) && ' ' !in col.Name()
    ensures ColorWithInitial(col.Name()[0]) == Some(col)
  {
  }

  lemma LongRoundTrip(c: Card)
    ensures ParseLong(c.ToString(Long)) == Some(c)
  {
    match c
    case Joker(col) =>
      NamesReadBack(Ace, Spades, col);
      SplitJoined(col.Name(), "Joker");
    case Standard(r, su) =>
      NamesReadBack(r, su, Red);
      assert r.Name() + " " + "of" + " " + su.Name() == r.Name() + " " + ("of" + " " + su.Name());
      SplitJoined(r.Name(), "of" + " " + su.Name());
      SplitJoined("of", su.Name());
  }

  lemma ShortRoundTrip(c: Card)
    ensures ParseShort(c.ToString(Short)) == Some(c)
  {
    match c
    case Joker(col) =>
      NamesReadBack(Ace, Spades, col);
    case Standard(r, su) =>
      NamesReadBack(r, su, Red);
      var s := c.ToString(Short);
      assert s[..|s| - 1] == r.Name();
      assert |s| == 5 ==> s[1] != 'k';
  }

  /** Both renderings of `to_s` determine the card: reading one back gives
      the card that was rendered, so no two cards print alike. */
  lemma RenderingRoundTrip(c: Card)
    ensures ParseLong(c.ToString(Long)) == Some(c)
    ensures ParseShort(c.ToString(Short)) == Some(c)
  {
    LongRoundTrip(c);
    ShortRoundTrip(c);
  }

  lemma RenderingInjective(c: Card, d: Card, format: Format)
    requires c.ToString(format) == d.ToString(format)
    ensures c == d
  {
    RenderingRoundTrip(c);
    RenderingRoundTrip(d);
  }
}
