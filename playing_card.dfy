/**
  The card value model: a suit with its glyph, a rank (ace, numeric or face), the numeric
  order a rank implies, the canonical list of ranks and suits, and the text a card shows.
 */
module PlayingCard {
  import opened Wrappers
  import Decimal

  datatype Suit = Spades | Hearts | Clubs | Diamonds

  /** The suit's raw value: its symbol followed by the emoji variation selector U+FE0F. */
  function RawValue(s: Suit): (glyph: string)
    ensures |glyph| == 2 && glyph[1] == '\U{FE0F}'
  {
    match s
    case Spades => "\U{2660}\U{FE0F}"
    case Hearts => "\U{2665}\U{FE0F}"
    case Clubs => "\U{2663}\U{FE0F}"
    case Diamonds => "\U{2666}\U{FE0F}"
  }

  /** Swift's synthesised `Suit(rawValue:)`: the suit with this raw value, if any. */
  function SuitFromRawValue(glyph: string): Option<Suit> {
    if glyph == RawValue(Spades) then Some(Spades)
    else if glyph == RawValue(Hearts) then Some(Hearts)
    else if glyph == RawValue(Clubs) then Some(Clubs)
    else if glyph == RawValue(Diamonds) then Some(Diamonds)
    else None
  }

  /** A raw value names exactly one suit, and every suit is found again from its raw value. */
  lemma SuitRawValueRoundTrip(s: Suit, glyph: string)
    ensures SuitFromRawValue(RawValue(s)) == Some(s)
    ensures SuitFromRawValue(glyph) == Some(s) <==> glyph == RawValue(s)
  {
  }

  /** `Suit.all`: the four suits in canonical display order, with pairwise distinct glyphs. */
  function AllSuits(): (all: seq<Suit>)
    ensures |all| == 4 && forall s: Suit :: s in all
    ensures forall i, j :: 0 <= i < j < |all| ==> RawValue(all[i]) != RawValue(all[j])
  {
    var all := [Spades, Hearts, Clubs, Diamonds];
    assert forall s: Suit :: s in all by {
      forall s: Suit
        ensures s in all
      {
        if s.Spades? { assert all[0] == s; }
        else if s.Hearts? { assert all[1] == s; }
        else if s.Clubs? { assert all[2] == s; }
        else { assert all[3] == s; }
      }
    }
    assert forall i :: 0 <= i < 4 ==> RawValue(all[i])[0] == "\U{2660}\U{2665}\U{2663}\U{2666}"[i];
    all
  }

  datatype Rank = Ace | Face(kind: string) | Numeric(pips: int)

  /** The ranks of a standard deck: ace, 2 to 10, and the faces J, Q and K. */
  predicate IsCanonical(r: Rank) {
    match r
    case Ace => true
    case Numeric(p) => 2 <= p <= 10
    case Face(k) => k == "J" || k == "Q" || k == "K"
  }

  /** The text a rank shows: "A", the decimal pip count, or the face kind. */
  function RankDescription(r: Rank): (d: string)
    ensures r.Numeric? ==> Decimal.ParseInt(d) == Some(r.pips)
    ensures d == "A" <==> r == Ace || r == Face("A")
  {
    match r
    case Ace => "A"
    case Numeric(p) =>
      var s := Decimal.IntToString(p);
      Decimal.IntRoundTrip(p);
      assert s != "A" by {
        if p >= 0 { assert Decimal.IsDigit(s[0]); }
      }
      s
    case Face(k) => k
  }

  /**
    The numeric order of a rank. It is total: a face kind other than J, Q, K is not
    rejected but has order 0, and a numeric rank has its pip count whatever that is.
   */
  function Order(r: Rank): (o: int)
    ensures IsCanonical(r) ==> 1 <= o <= 13
    ensures r.Face? ==> (o == 0 <==> !IsCanonical(r))
  {
    match r
    case Ace => 1
    case Numeric(p) => p
    case Face(k) =>
      if k == "J" then 11 else if k == "Q" then 12 else if k == "K" then 13 else 0
  }

  /** The value `Rank.all` returns: ace, numeric(2) to numeric(10), then J, Q, K. */
  function CanonicalRanks(): seq<Rank> {
    [Ace] + seq(9, i => Numeric(i + 2)) + [Face("J"), Face("Q"), Face("K")]
  }

  /** `Rank.all`: starts from the ace, appends the numeric ranks in a loop, then the faces. */
  method AllRanks() returns (all: seq<Rank>)
    ensures all == CanonicalRanks()
  {
    all := [Ace];
    for pips := 2 to 11
      invariant all == [Ace] + seq(pips - 2, i => Numeric(i + 2))
    {
      all := all + [Numeric(pips)];
    }
    all := all + [Face("J"), Face("Q"), Face("K")];
  }

  /** The canonical list has 13 ranks and the rank at index i has order i + 1. */
  lemma CanonicalRanksInOrder()
    ensures |CanonicalRanks()| == 13
    ensures forall i :: 0 <= i < 13 ==> Order(CanonicalRanks()[i]) == i + 1
  {
    var all := CanonicalRanks();
    forall i | 0 <= i < 13
      ensures Order(all[i]) == i + 1
    {
      if 1 <= i <= 9 {
        assert all[i] == Numeric(i + 1);
      }
    }
  }

  /** The canonical list holds exactly the canonical ranks. */
  lemma CanonicalRanksExactly(r: Rank)
    ensures r in CanonicalRanks() <==> IsCanonical(r)
  {
    var all := CanonicalRanks();
    CanonicalRanksInOrder();
    forall i | 0 <= i < 13
      ensures IsCanonical(all[i])
    {
      if 1 <= i <= 9 {
        assert all[i] == Numeric(i + 1);
      }
    }
    if IsCanonical(r) {
      match r
      case Ace => assert all[0] == r;
      case Numeric(p) => assert all[p - 1] == r;
      case Face(k) =>
        if k == "J" { assert all[10] == r; }
        else if k == "Q" { assert all[11] == r; }
        else { assert all[12] == r; }
    }
  }

  /** On the canonical ranks, order is one-to-one and takes every value from 1 to 13. */
  lemma OrderBijective(a: Rank, b: Rank, n: int)
    requires IsCanonical(a) && IsCanonical(b)
    ensures Order(a) == Order(b) ==> a == b
    ensures 1 <= n <= 13 ==> exists r :: IsCanonical(r) && Order(r) == n
  {
    CanonicalRanksInOrder();
    if 1 <= n <= 13 {
      var r := CanonicalRanks()[n - 1];
      CanonicalRanksExactly(r);
      assert IsCanonical(r) && Order(r) == n;
    }
  }

  /** Reads a rank back from its description. */
  function RankFromDescription(s: string): Rank {
    if s == "A" then Ace
    else match Decimal.ParseInt(s)
      case Some(p) => Numeric(p)
      case None => Face(s)
  }

  /** Ranks whose description is not ambiguous: a face kind that is neither "A" nor a number. */
  predicate HasDistinctDescription(r: Rank) {
    r.Face? ==> r.kind != "A" && Decimal.ParseInt(r.kind).None?
  }

  /** A rank's description determines the rank. */
  lemma RankDescriptionRoundTrip(r: Rank)
    requires HasDistinctDescription(r)
    ensures RankFromDescription(RankDescription(r)) == r
  {
    if r.Numeric? {
      Decimal.IntRoundTrip(r.pips);
      var s := Decimal.IntToString(r.pips);
      assert s != "A" by {
        if r.pips >= 0 { assert Decimal.IsDigit(s[0]); }
      }
    }
  }

  datatype Card = Card(suit: Suit, rank: Rank)

  /** The card's text: the suit glyph, a space, then the rank's description. */
  function CardDescription(c: Card): (d: string)
    ensures |d| >= 3 && d[..2] == RawValue(c.suit) && d[2] == ' ' && d[3..] == RankDescription(c.rank)
  {
    RawValue(c.suit) + " " + RankDescription(c.rank)
  }

  /** Reads a card back from its description. */
  function CardFromDescription(s: string): Option<Card> {
    if |s| >= 3 && s[2] == ' ' then
      match SuitFromRawValue(s[..2])
      case Some(suit) => Some(Card(suit, RankFromDescription(s[3..])))
      case None => None
    else None
  }

  /** A card's description determines the card; in particular the 52 canonical cards all differ. */
  lemma CardDescriptionRoundTrip(c: Card)
    requires HasDistinctDescription(c.rank)
    ensures CardFromDescription(CardDescription(c)) == Some(c)
  {
    var s := CardDescription(c);
    assert s[..2] == RawValue(c.suit);
    assert s[3..] == RankDescription(c.rank);
    SuitRawValueRoundTrip(c.suit, s[..2]);
    RankDescriptionRoundTrip(c.rank);
  }

  /** The faces J, Q and K are neither "A" nor numbers, so every canonical rank qualifies. */
  lemma CanonicalHasDistinctDescription(r: Rank)
    requires IsCanonical(r)
    ensures HasDistinctDescription(r)
  {
    if r.Face? {
      assert !Decimal.IsDigit(r.kind[0]);
    }
  }
}
