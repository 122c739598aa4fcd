/**
  `sortHand` of game.js: a hand is shown ordered by suit (hearts, spades,
  diamonds, clubs) and, within a suit, from the highest rank down.
*/
module HandSort {
  import opened Cards

  /** The comparator passed to `sort`: negative when `a` is shown before `b`. */
  function Compare(a: Card, b: Card): int {
    var suitDiff := SuitOrder(a.suit) - SuitOrder(b.suit);
    if suitDiff != 0 then suitDiff else CardRank(b) - CardRank(a)
  }

  /** The position of a card in the display order, as one number. */
  function Key(c: Card): (k: int)
    ensures 0 <= k < 48
  {
    12 * SuitOrder(c.suit) + (12 - CardRank(c))
  }

  /** The comparator and the key order agree, and only a card compares equal to itself. */
  lemma CompareByKey(a: Card, b: Card)
    ensures Compare(a, b) < 0 <==> Key(a) < Key(b)
    ensures Compare(a, b) == 0 <==> a == b
  {
    SuitOrderInjective(a.suit, b.suit);
    if a.suit == b.suit && CardRank(a) == CardRank(b) {
      SameSuitSameRankSameCard(a, b);
    }
  }

  /** Two cards with the same key are the same card. */
  lemma KeyInjective(a: Card, b: Card)
    requires Key(a) == Key(b)
    ensures a == b
  {
    CompareByKey(a, b);
  }

  /** The comparator never places a later card before an earlier one. */
  ghost predicate Sorted(s: seq<Card>) {
    forall i, j :: 0 <= i < j < |s| ==> Key(s[i]) <= Key(s[j])
  }

  /** In a sorted hand no card sorts before the first. */
  lemma SortedFirst(s: seq<Card>, c: Card)
    requires Sorted(s) && |s| > 0 && c in multiset(s)
    ensures Key(s[0]) <= Key(c)
  {
    var i :| 0 <= i < |s| && s[i] == c;
  }

  /** A card that sorts no later than every card of a sorted hand may go in front of it. */
  lemma SortedCons(h: Card, s: seq<Card>)
    requires Sorted(s) && forall j :: 0 <= j < |s| ==> Key(h) <= Key(s[j])
    ensures Sorted([h] + s)
  {
    var r := [h] + s;
    forall i, j | 0 <= i < j < |r|
      ensures Key(r[i]) <= Key(r[j])
    {
      assert r[j] == s[j - 1];
      if i > 0 { assert r[i] == s[i - 1]; }
    }
  }

  /** When the first card of a sorted hand sorts no later than `c`, it sorts no later than every card of the rest with `c` added. */
  lemma InsertBound(c: Card, s: seq<Card>, rest: seq<Card>)
    requires Sorted(s) && |s| > 0 && Key(s[0]) <= Key(c)
    requires multiset(rest) == multiset(s[1..]) + multiset{c}
    ensures forall j :: 0 <= j < |rest| ==> Key(s[0]) <= Key(rest[j])
  {
    SplitFirst(s);
    forall j | 0 <= j < |rest|
      ensures Key(s[0]) <= Key(rest[j])
    {
      var x := rest[j];
      assert x in multiset(rest);
      if x != c {
        assert x in multiset(s[1..]);
        SortedFirst(s, x);
      }
    }
  }

  /** Put `c` into a sorted hand after every card that sorts before it. */
  function Insert(c: Card, s: seq<Card>): (r: seq<Card>)
    requires Sorted(s)
    ensures Sorted(r) && multiset(r) == multiset(s) + multiset{c}
    decreases |s|
  {
    CompareByKey(c, if |s| == 0 then c else s[0]);
    if |s| == 0 then [c]
    else if Compare(c, s[0]) <= 0 then
      assert forall j :: 0 <= j < |s| ==> Key(c) <= Key(s[j]) by {
        forall j | 0 <= j < |s| ensures Key(c) <= Key(s[j]) { if j > 0 { assert Key(s[0]) <= Key(s[j]); } }
      }
      SortedCons(c, s);
      [c] + s
    else
      SortedTail(s);
      var rest := Insert(c, s[1..]);
      InsertBound(c, s, rest);
      SortedCons(s[0], rest);
      SplitFirst(s);
      [s[0]] + rest
  }

  /** `sortHand`: the hand in display order. */
  function SortHand(cards: seq<Card>): (r: seq<Card>)
    ensures Sorted(r) && multiset(r) == multiset(cards)
    decreases |cards|
  {
    if |cards| == 0 then []
    else
      assert cards == [cards[0]] + cards[1..];
      Insert(cards[0], SortHand(cards[1..]))
  }

  /** A hand is its first card followed by the rest. */
  lemma SplitFirst(s: seq<Card>)
    requires |s| > 0
    ensures multiset(s) == multiset{s[0]} + multiset(s[1..])
  {
    assert s == [s[0]] + s[1..];
  }

  /** The same card taken from two equal collections leaves equal collections. */
  lemma MultisetCancel(c: Card, x: multiset<Card>, y: multiset<Card>)
    requires multiset{c} + x == multiset{c} + y
    ensures x == y
  {
    forall z: Card
      ensures x[z] == y[z]
    {
      assert (multiset{c} + x)[z] == (multiset{c} + y)[z];
    }
  }

  lemma SortedTail(s: seq<Card>)
    requires Sorted(s) && |s| > 0
    ensures Sorted(s[1..])
  {
    forall i, j | 0 <= i < j < |s| - 1
      ensures Key(s[1..][i]) <= Key(s[1..][j])
    {
      assert s[1..][i] == s[i + 1] && s[1..][j] == s[j + 1];
    }
  }

  /**
    There is only one display order of a hand: any two sorted arrangements of
    the same cards are the same sequence, so the sort algorithm used does not
    matter.
  */
  lemma {:induction false} SortedUnique(a: seq<Card>, b: seq<Card>)
    requires Sorted(a) && Sorted(b) && multiset(a) == multiset(b)
    ensures a == b
    decreases |a|
  {
    if |a| == 0 {
      assert |b| == |multiset(b)| == 0;
    } else {
      assert a[0] in multiset(b);
      assert |b| > 0;
      assert b[0] in multiset(a);
      SortedFirst(b, a[0]);
      SortedFirst(a, b[0]);
      KeyInjective(a[0], b[0]);
      SplitFirst(a);
      SplitFirst(b);
      MultisetCancel(a[0], multiset(a[1..]), multiset(b[1..]));
      SortedTail(a);
      SortedTail(b);
      SortedUnique(a[1..], b[1..]);
      assert a == [a[0]] + a[1..] && b == [b[0]] + b[1..];
    }
  }

  /** A sorted hand is in the comparator's order: no card compares after a later one. */
  lemma SortedByComparator(s: seq<Card>)
    requires Sorted(s)
    ensures forall i, j :: 0 <= i < j < |s| ==> Compare(s[i], s[j]) <= 0
  {
    forall i, j | 0 <= i < j < |s|
      ensures Compare(s[i], s[j]) <= 0
    {
      CompareByKey(s[i], s[j]);
    }
  }

  /** Sorting is idempotent: a sorted hand is left as it is. */
  lemma SortHandSorted(cards: seq<Card>)
    requires Sorted(cards)
    ensures SortHand(cards) == cards
  {
    SortedUnique(SortHand(cards), cards);
  }
}
