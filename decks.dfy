/** The in-memory registry of decks and the menu operations that change it:
    creating a deck, adding a card, deleting a card and deleting a deck. Every
    user entry is a parameter; the decks file is an abstract store that
    `save_decks` overwrites with the whole registry. */
module Decks {

  import opened Options
  import opened Text
  import opened Cards

  /** Why an operation left the registry as it was. */
  datatype Failure =
    | NoDecks        // the registry is empty, so no deck can be chosen
    | NotANumber     // the entry is not an integer (ValueError)
    | OutOfRange     // the ordinal is not one of those listed
    | EmptyName      // deck name blank after stripping
    | EmptyQuestion  // question blank after stripping
    | EmptyAnswer    // answer blank after stripping
    | EmptyDeck      // the chosen deck holds no card
    | NotConfirmed   // the y/n confirmation was not "y"
    | NoMatch        // no card of the deck passes the study filter

  datatype Outcome = Done | Refused(why: Failure)

  datatype Selection = Selected(index: nat) | Unselected(why: Failure)

  /** A 1-based ordinal typed by the user, among `count` listed items, as a
      0-based index. */
  function Ordinal(count: nat, entry: string): (r: Selection)
    ensures r.Selected? <==> ParseInt(entry).Some? && 1 <= ParseInt(entry).value <= count
    ensures r.Selected? ==> r.index < count && r.index + 1 == ParseInt(entry).value
    ensures r == Unselected(NotANumber) <==> ParseInt(entry).None?
    ensures r.Unselected? ==> r.why == NotANumber || r.why == OutOfRange
  {
    match ParseInt(entry)
    case None => Unselected(NotANumber)
    case Some(n) => if 0 <= n - 1 < count then Selected(n - 1) else Unselected(OutOfRange)
  }

  /** `select_deck`: no deck can be chosen from an empty registry; otherwise the
      entry must be the ordinal of one of the decks. */
  function SelectDeck(decks: seq<Deck>, entry: string): (r: Selection)
    ensures r.Selected? <==> |decks| > 0 && ParseInt(entry).Some? && 1 <= ParseInt(entry).value <= |decks|
    ensures r.Selected? ==> r.index < |decks| && r.index == ParseInt(entry).value - 1
    ensures r == Unselected(NoDecks) <==> decks == []
    ensures r == Unselected(NotANumber) <==> decks != [] && ParseInt(entry).None?
    ensures r == Unselected(OutOfRange) <==>
      decks != [] && ParseInt(entry).Some? && !(1 <= ParseInt(entry).value <= |decks|)
  {
    if decks == [] then Unselected(NoDecks) else Ordinal(|decks|, entry)
  }

  /** Typing the number printed beside a deck in the overview selects that deck
      (Python prints ordinals of up to `MaxStrDigits` digits). */
  lemma SelectListed(decks: seq<Deck>, k: nat)
    requires 1 <= k <= |decks| && |ShowNat(k)| <= MaxStrDigits
    ensures SelectDeck(decks, ShowInt(k)) == Selected(k - 1)
  {
    ParseShowInt(k);
  }

  /** An ordinal of more digits than `int()` reads is refused as no number, not as
      an out-of-range one. */
  lemma TooLongIsNotANumber(decks: seq<Deck>, entry: string)
    requires decks != [] && IsNumeral(entry) && DigitCount(entry) > MaxStrDigits
    ensures SelectDeck(decks, entry) == Unselected(NotANumber)
  {
    NumeralLimit(entry);
  }

  /** An ordinal next to a separator U+001C to U+001F is refused as no number:
      `int()` does not skip those, although `strip` does. */
  lemma SeparatorIsNotANumber(decks: seq<Deck>, entry: string)
    requires decks != [] && entry != []
    requires IsSeparator(entry[0]) || IsSeparator(entry[|entry| - 1])
    ensures SelectDeck(decks, entry) == Unselected(NotANumber)
  {
    SeparatorNotSkipped(entry);
  }

  /** `confirm.strip().lower() == 'y'`. */
  predicate Confirmed(confirm: string) {
    Lower(Strip(confirm)) == "y"
  }

  lemma ConfirmedMeansY(confirm: string)
    ensures Confirmed(confirm) <==> Strip(confirm) == "y" || Strip(confirm) == "Y"
  {
    LowerStripIsLetter(confirm, 'y');
  }

  /** The list of decks the program holds between the start and "save & exit". */
  class Registry {
    var decks: seq<Deck>
    /** What the decks file holds: None while there is no file. */
    var store: Option<seq<Deck>>

    /** `load_decks`: the registry read from the file, or just the sample deck when
        there is no file (which is not written then). */
    constructor Load(file: Option<seq<Deck>>)
      ensures store == file
      ensures file.None? ==> decks == [SampleDeck()]
      ensures file.Some? ==> decks == file.value
    {
      decks := if file.None? then [SampleDeck()] else file.value;
      store := file;
    }

    /** `save_decks`: overwrite the file with the whole registry. */
    method Save()
      modifies this
      ensures decks == old(decks) && store == Some(decks)
    {
      store := Some(decks);
    }

    /** `create_deck`: append an empty deck under the stripped name, unless the
        name is blank. */
    method CreateDeck(entry: string) returns (r: Outcome)
      modifies this
      ensures r.Done? <==> Strip(entry) != []
      ensures r.Refused? ==> r.why == EmptyName && decks == old(decks) && store == old(store)
      ensures r.Done? ==> decks == old(decks) + [Deck(Strip(entry), [])] && store == Some(decks)
    {
      var name := Strip(entry);
      if name == [] {
        return Refused(EmptyName);
      }
      decks := decks + [Deck(name, [])];
      Save();
      r := Done;
    }

    /** `add_card_to_deck`: choose a deck, then append a card with the stripped
        question and answer and the chosen difficulty; a blank question or answer
        adds nothing. */
    method AddCard(deckEntry: string, question: string, choice: string, answer: string)
      returns (r: Outcome)
      modifies this
      ensures var sel := SelectDeck(old(decks), deckEntry);
        r == if sel.Unselected? then Refused(sel.why)
             else if Strip(question) == [] then Refused(EmptyQuestion)
             else if Strip(answer) == [] then Refused(EmptyAnswer)
             else Done
      ensures r.Refused? ==> decks == old(decks) && store == old(store)
      ensures r.Done? ==>
        var k := SelectDeck(old(decks), deckEntry).index;
        var card := Card(Strip(question), Strip(answer), DifficultyFromSelector(choice));
        |decks| == |old(decks)| && store == Some(decks)
        && decks[k] == Deck(old(decks)[k].name, old(decks)[k].cards + [card])
        && forall j :: 0 <= j < |decks| && j != k ==> decks[j] == old(decks)[j]
    {
      var sel := SelectDeck(decks, deckEntry);
      if sel.Unselected? {
        return Refused(sel.why);
      }
      var q := Strip(question);
      if q == [] {
        return Refused(EmptyQuestion);
      }
      var difficulty := DifficultyFromSelector(choice);
      var a := Strip(answer);
      if a == [] {
        return Refused(EmptyAnswer);
      }
      var k := sel.index;
      decks := decks[k := Deck(decks[k].name, decks[k].cards + [Card(q, a, difficulty)])];
      Save();
      r := Done;
    }

    /** `delete_card_from_deck`: choose a deck and, if it holds cards, a card by
        its ordinal; the card is removed only on a "y" confirmation. */
    method DeleteCard(deckEntry: string, cardEntry: string, confirm: string) returns (r: Outcome)
      modifies this
      ensures var sel := SelectDeck(old(decks), deckEntry);
        r == if sel.Unselected? then Refused(sel.why)
             else if old(decks)[sel.index].cards == [] then Refused(EmptyDeck)
             else
               var c := Ordinal(|old(decks)[sel.index].cards|, cardEntry);
               if c.Unselected? then Refused(c.why)
               else if !Confirmed(confirm) then Refused(NotConfirmed)
               else Done
      ensures r.Refused? ==> decks == old(decks) && store == old(store)
      ensures r.Done? ==>
        var k := SelectDeck(old(decks), deckEntry).index;
        var cards := old(decks)[k].cards;
        var c := Ordinal(|cards|, cardEntry).index;
        |decks| == |old(decks)| && store == Some(decks)
        && decks[k] == Deck(old(decks)[k].name, cards[..c] + cards[c + 1..])
        && |decks[k].cards| == |cards| - 1
        && forall j :: 0 <= j < |decks| && j != k ==> decks[j] == old(decks)[j]
    {
      var sel := SelectDeck(decks, deckEntry);
      if sel.Unselected? {
        return Refused(sel.why);
      }
      var k := sel.index;
      var deck := decks[k];
      if deck.cards == [] {
        return Refused(EmptyDeck);
      }
      var c := Ordinal(|deck.cards|, cardEntry);
      if c.Unselected? {
        return Refused(c.why);
      }
      if !Confirmed(confirm) {
        return Refused(NotConfirmed);
      }
      var i := c.index;
      decks := decks[k := Deck(deck.name, deck.cards[..i] + deck.cards[i + 1..])];
      Save();
      r := Done;
    }

    /** `delete_deck`: choose a deck and remove it with all its cards on a "y"
        confirmation. */
    method DeleteDeck(deckEntry: string, confirm: string) returns (r: Outcome)
      modifies this
      ensures var sel := SelectDeck(old(decks), deckEntry);
        r == if sel.Unselected? then Refused(sel.why)
             else if !Confirmed(confirm) then Refused(NotConfirmed)
             else Done
      ensures r.Refused? ==> decks == old(decks) && store == old(store)
      ensures r.Done? ==>
        var k := SelectDeck(old(decks), deckEntry).index;
        decks == old(decks)[..k] + old(decks)[k + 1..] && |decks| == |old(decks)| - 1
        && store == Some(decks)
    {
      var sel := SelectDeck(decks, deckEntry);
      if sel.Unselected? {
        return Refused(sel.why);
      }
      if !Confirmed(confirm) {
        return Refused(NotConfirmed);
      }
      var k := sel.index;
      decks := decks[..k] + decks[k + 1..];
      Save();
      r := Done;
    }
  }

  /** "Save & exit" followed by the next start of the program: the registry read
      back is the one that was saved. */
  method SaveAndReload(reg: Registry) returns (next: Registry)
    modifies reg
    ensures reg.decks == old(reg.decks) && reg.store == Some(reg.decks)
    ensures fresh(next) && next.decks == reg.decks && next.store == reg.store
  {
    reg.Save();
    next := new Registry.Load(reg.store);
  }
}
