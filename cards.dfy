/** Cards, decks, the built-in sample deck, the difficulty selector used when a
    card is added, and the per-difficulty counts shown in the deck overview. */
module Cards {

  import opened Text

  /** The three difficulty tags a card carries ("easy", "medium", "hard"). */
  datatype Difficulty = Easy | Medium | Hard

  datatype Card = Card(question: string, answer: string, difficulty: Difficulty)

  datatype Deck = Deck(name: string, cards: seq<Card>)

  /** The deck `load_decks` returns when there is no decks file. */
  function SampleDeck(): (d: Deck)
    ensures d.name == "Sample Deck" && |d.cards| == 3
    ensures d.cards[0].difficulty == Easy && d.cards[1].difficulty == Medium && d.cards[2].difficulty == Hard
  {
    Deck("Sample Deck", [
      Card("What is the capital of France?", "Paris", Easy),
      Card("What is 15 \U{D7} 12?", "180", Medium),
      Card("Explain quantum entanglement", "A quantum phenomenon where particles become interconnected", Hard)
    ])
  }

  /** The difficulty chosen while adding a card: the stripped selector "1", "2" or
      "3", and "medium" for anything else. */
  function DifficultyFromSelector(choice: string): (d: Difficulty)
    ensures d == Easy <==> Strip(choice) == "1"
    ensures d == Hard <==> Strip(choice) == "3"
    ensures d == Medium <==> Strip(choice) != "1" && Strip(choice) != "3"
  {
    match Strip(choice)
    case "1" => Easy
    case "2" => Medium
    case "3" => Hard
    case _ => Medium
  }

  /** How many of the cards carry the difficulty `d`. */
  function Count(cards: seq<Card>, d: Difficulty): (n: nat)
    ensures n <= |cards|
  {
    if cards == [] then 0
    else Count(cards[..|cards| - 1], d) + (if cards[|cards| - 1].difficulty == d then 1 else 0)
  }

  /** Every card has exactly one of the three difficulties. */
  lemma {:induction false} CountsPartition(cards: seq<Card>)
    ensures Count(cards, Easy) + Count(cards, Medium) + Count(cards, Hard) == |cards|
  {
    if cards != [] {
      CountsPartition(cards[..|cards| - 1]);
    }
  }

  /** No card of difficulty `d` exactly when the count is zero. */
  lemma {:induction false} CountZero(cards: seq<Card>, d: Difficulty)
    ensures Count(cards, d) == 0 <==> forall i :: 0 <= i < |cards| ==> cards[i].difficulty != d
  {
    if cards != [] {
      var init := cards[..|cards| - 1];
      CountZero(init, d);
      assert forall i :: 0 <= i < |init| ==> init[i] == cards[i];
    }
  }

  /** The line of the deck overview for one deck. */
  datatype Summary = Summary(total: nat, easy: nat, medium: nat, hard: nat)

  function Summarize(deck: Deck): (s: Summary)
    ensures s.total == |deck.cards| == s.easy + s.medium + s.hard
    ensures s.easy == Count(deck.cards, Easy) && s.medium == Count(deck.cards, Medium)
    ensures s.hard == Count(deck.cards, Hard)
  {
    CountsPartition(deck.cards);
    Summary(|deck.cards|, Count(deck.cards, Easy), Count(deck.cards, Medium), Count(deck.cards, Hard))
  }
}
