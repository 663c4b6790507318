/** `study_deck`: the difficulty filter that builds the session's own list of
    cards, the timer choice, and the navigation loop over that list
    (next and previous wrap around, shuffle reorders the list and goes back to
    the first card, quit ends the session). */
module Study {

  import opened Text
  import opened Cards
  import opened Decks

  // ---------------------------------------------------------------------------
  // The difficulty filter

  /** The cards, in deck order, whose difficulty is one of `allowed`. */
  function Keep(cards: seq<Card>, allowed: set<Difficulty>): (r: seq<Card>)
    ensures |r| <= |cards|
    ensures forall i :: 0 <= i < |r| ==> r[i].difficulty in allowed
  {
    if cards == [] then []
    else
      var last := cards[|cards| - 1];
      Keep(cards[..|cards| - 1], allowed) + (if last.difficulty in allowed then [last] else [])
  }

  /** `r` is `s` with some elements left out and the others in their order. */
  predicate IsSubsequence<T(==)>(r: seq<T>, s: seq<T>)
    decreases |s|
  {
    if r == [] then true
    else if s == [] then false
    else if r[|r| - 1] == s[|s| - 1] then IsSubsequence(r[..|r| - 1], s[..|s| - 1])
    else IsSubsequence(r, s[..|s| - 1])
  }

  /** The filter keeps the deck's order. */
  lemma {:induction false} KeepIsSubsequence(cards: seq<Card>, allowed: set<Difficulty>)
    ensures IsSubsequence(Keep(cards, allowed), cards)
  {
    if cards != [] {
      var init, last := cards[..|cards| - 1], cards[|cards| - 1];
      var k := Keep(init, allowed);
      KeepIsSubsequence(init, allowed);
      if last.difficulty in allowed {
        assert (k + [last])[..|k|] == k;
      } else {
        assert Keep(cards, allowed) == k;
        if k != [] {
          assert k[|k| - 1] != last;
        }
      }
    }
  }

  /** The filter keeps every card of an allowed difficulty, as often as the deck
      holds it, and no other card. */
  lemma {:induction false} KeepExactly(cards: seq<Card>, allowed: set<Difficulty>, c: Card)
    ensures multiset(Keep(cards, allowed))[c] == if c.difficulty in allowed then multiset(cards)[c] else 0
  {
    if cards != [] {
      var init, last := cards[..|cards| - 1], cards[|cards| - 1];
      KeepExactly(init, allowed, c);
      assert cards == init + [last];
    }
  }

  /** Filtering on one difficulty keeps as many cards as the overview counts. */
  lemma {:induction false} KeepCounts(cards: seq<Card>, d: Difficulty)
    ensures |Keep(cards, {d})| == Count(cards, d)
  {
    if cards != [] {
      KeepCounts(cards[..|cards| - 1], d);
    }
  }

  /** Allowing every difficulty keeps the whole deck. */
  lemma {:induction false} KeepAll(cards: seq<Card>)
    ensures Keep(cards, {Easy, Medium, Hard}) == cards
  {
    if cards != [] {
      var init, last := cards[..|cards| - 1], cards[|cards| - 1];
      KeepAll(init);
      assert last.difficulty == Easy || last.difficulty == Medium || last.difficulty == Hard;
      assert Keep(cards, {Easy, Medium, Hard}) == Keep(init, {Easy, Medium, Hard}) + [last];
      assert cards == init + [last];
    }
  }

  /** Nothing passes the filter exactly when no card has an allowed difficulty. */
  lemma {:induction false} KeepEmpty(cards: seq<Card>, allowed: set<Difficulty>)
    ensures Keep(cards, allowed) == [] <==> forall i :: 0 <= i < |cards| ==> cards[i].difficulty !in allowed
  {
    if cards != [] {
      var init := cards[..|cards| - 1];
      KeepEmpty(init, allowed);
      assert forall i :: 0 <= i < |init| ==> init[i] == cards[i];
    }
  }

  /** The difficulties the stripped filter choice selects; any choice other
      than "1" to "5" selects all of them. */
  function Allowed(choice: string): (ds: set<Difficulty>)
    ensures ds != {}
  {
    match Strip(choice)
    case "1" => {Easy}
    case "2" => {Medium}
    case "3" => {Hard}
    case "4" => {Easy, Medium}
    case "5" => {Medium, Hard}
    case _ => {Easy, Medium, Hard}
  }

  /** `filtered_cards`: a filtered copy for choices "1" to "5", a plain copy of
      the deck's cards for any other choice. */
  function FilterCards(cards: seq<Card>, choice: string): (r: seq<Card>)
    ensures r == Keep(cards, Allowed(choice))
  {
    match Strip(choice)
    case "1" => Keep(cards, {Easy})
    case "2" => Keep(cards, {Medium})
    case "3" => Keep(cards, {Hard})
    case "4" => Keep(cards, {Easy, Medium})
    case "5" => Keep(cards, {Medium, Hard})
    case _ => KeepAll(cards); cards
  }

  /** `timer_map`: the stripped choice "1", "2", "3" gives 10, 30 and 60 seconds;
      "4" and anything else give 0 (no timer). */
  function TimerSeconds(choice: string): (t: nat)
    ensures t == 0 || t == 10 || t == 30 || t == 60
    ensures t == 0 <==> Strip(choice) != "1" && Strip(choice) != "2" && Strip(choice) != "3"
    ensures t == 10 <==> Strip(choice) == "1"
    ensures t == 30 <==> Strip(choice) == "2"
    ensures t == 60 <==> Strip(choice) == "3"
  {
    match Strip(choice)
    case "1" => 10
    case "2" => 30
    case "3" => 60
    case "4" => 0
    case _ => 0
  }

  // ---------------------------------------------------------------------------
  // Starting a session

  datatype Setup = Setup(cards: seq<Card>, timerSeconds: nat)

  datatype Start = Begin(setup: Setup) | NoSession(why: Failure)

  /** Everything `study_deck` does before its loop: choose the deck, refuse an
      empty one, filter its cards, refuse an empty result, map the timer choice. */
  function BeginStudy(decks: seq<Deck>, deckEntry: string, filterChoice: string, timerChoice: string): (r: Start)
    ensures SelectDeck(decks, deckEntry).Unselected? ==> r == NoSession(SelectDeck(decks, deckEntry).why)
    ensures r.Begin? ==>
      var deck := decks[SelectDeck(decks, deckEntry).index];
      r.setup.cards == FilterCards(deck.cards, filterChoice)
      && r.setup.cards != [] && IsSubsequence(r.setup.cards, deck.cards)
      && (forall i :: 0 <= i < |r.setup.cards| ==> r.setup.cards[i].difficulty in Allowed(filterChoice))
      && r.setup.timerSeconds == TimerSeconds(timerChoice)
    ensures r == NoSession(EmptyDeck) <==>
      SelectDeck(decks, deckEntry).Selected? && decks[SelectDeck(decks, deckEntry).index].cards == []
    ensures r == NoSession(NoMatch) <==>
      SelectDeck(decks, deckEntry).Selected? &&
      var cards := decks[SelectDeck(decks, deckEntry).index].cards;
      cards != [] && forall i :: 0 <= i < |cards| ==> cards[i].difficulty !in Allowed(filterChoice)
    ensures SelectDeck(decks, deckEntry).Selected? && r.NoSession? ==> r.why == EmptyDeck || r.why == NoMatch
  {
    var sel := SelectDeck(decks, deckEntry);
    if sel.Unselected? then NoSession(sel.why)
    else
      var deck := decks[sel.index];
      if deck.cards == [] then NoSession(EmptyDeck)
      else
        var filtered := FilterCards(deck.cards, filterChoice);
        KeepEmpty(deck.cards, Allowed(filterChoice));
        KeepIsSubsequence(deck.cards, Allowed(filterChoice));
        if filtered == [] then NoSession(NoMatch)
        else Begin(Setup(filtered, TimerSeconds(timerChoice)))
  }

  // ---------------------------------------------------------------------------
  // Navigation

  /** The state of the loop: the session's list and `card_index`. */
  datatype Session = Session(cards: seq<Card>, cursor: nat) {
    predicate Valid() {
      |cards| > 0 && cursor < |cards|
    }
  }

  datatype Command = Next | Previous | Shuffle | Quit | Unrecognized

  /** The navigation answer, stripped and lower-cased. */
  function ParseCommand(input: string): Command {
    match Lower(Strip(input))
    case "q" => Quit
    case "n" => Next
    case "p" => Previous
    case "s" => Shuffle
    case _ => Unrecognized
  }

  /** Each command is one letter, in either case, with white space around it
      allowed; everything else is unrecognized. */
  lemma CommandLetters(input: string)
    ensures ParseCommand(input) == Next <==> Strip(input) == "n" || Strip(input) == "N"
    ensures ParseCommand(input) == Previous <==> Strip(input) == "p" || Strip(input) == "P"
    ensures ParseCommand(input) == Shuffle <==> Strip(input) == "s" || Strip(input) == "S"
    ensures ParseCommand(input) == Quit <==> Strip(input) == "q" || Strip(input) == "Q"
  {
    LowerStripIsLetter(input, 'n');
    LowerStripIsLetter(input, 'p');
    LowerStripIsLetter(input, 's');
    LowerStripIsLetter(input, 'q');
  }

  /** `order` lists each position below `n` once. */
  predicate IsPermutation(order: seq<nat>, n: nat) {
    |order| == n
    && (forall i :: 0 <= i < n ==> order[i] < n)
    && (forall i, j :: 0 <= i < j < n ==> order[i] != order[j])
  }

  /** The list rearranged so that position `i` holds what was at `order[i]`. */
  function Permute<T>(s: seq<T>, order: seq<nat>): (r: seq<T>)
    requires IsPermutation(order, |s|)
    ensures |r| == |s|
  {
    seq(|s|, i requires 0 <= i < |s| => s[order[i]])
  }

  /** The arrangement of the other positions once position `k` is taken out. */
  function Without(order: seq<nat>, k: nat): (r: seq<nat>)
    requires |order| > 0
  {
    seq(|order| - 1, i requires 0 <= i < |order| - 1 => if order[i] <= k then order[i] else order[i] - 1)
  }

  lemma WithoutIsPermutation(order: seq<nat>, n: nat)
    requires n > 0 && IsPermutation(order, n)
    ensures IsPermutation(Without(order, order[n - 1]), n - 1)
  {
    var k := order[n - 1];
    var w := Without(order, k);
    assert forall i :: 0 <= i < n - 1 ==> order[i] != k;
    forall i, j | 0 <= i < j < n - 1 ensures w[i] != w[j] {
      assert order[i] != order[j];
    }
  }

  lemma PermuteWithout<T>(s: seq<T>, order: seq<nat>)
    requires |s| > 0 && IsPermutation(order, |s|)
    ensures var k := order[|s| - 1];
      IsPermutation(Without(order, k), |s| - 1)
      && Permute(s[..k] + s[k + 1..], Without(order, k)) == Permute(s, order)[..|s| - 1]
  {
    var n, k := |s|, order[|s| - 1];
    var rest := s[..k] + s[k + 1..];
    WithoutIsPermutation(order, n);
    var w := Without(order, k);
    assert forall i :: 0 <= i < n - 1 ==> order[i] != k;
    forall i | 0 <= i < n - 1 ensures rest[w[i]] == s[order[i]] {
      if order[i] < k {
        assert rest[w[i]] == s[..k][order[i]];
      } else {
        assert rest[w[i]] == s[k + 1..][order[i] - k - 1];
      }
    }
  }

  /** Rearranging keeps every card, as often as it occurs. */
  lemma {:induction false} PermuteMultiset<T>(s: seq<T>, order: seq<nat>)
    requires IsPermutation(order, |s|)
    ensures multiset(Permute(s, order)) == multiset(s)
    decreases |s|
  {
    var n := |s|;
    if n > 0 {
      var t := Permute(s, order);
      var k := order[n - 1];
      var rest := s[..k] + s[k + 1..];
      WithoutIsPermutation(order, n);
      PermuteWithout(s, order);
      PermuteMultiset(rest, Without(order, k));
      assert t == t[..n - 1] + [s[k]];
      assert s == s[..k] + [s[k]] + s[k + 1..];
    }
  }

  /** One pass of the loop on the answer `cmd`; `order` is the arrangement the
      random shuffle picks. */
  function Step(s: Session, cmd: Command, order: seq<nat>): (t: Session)
    requires s.Valid()
    requires cmd == Shuffle ==> IsPermutation(order, |s.cards|)
    ensures t.Valid() && |t.cards| == |s.cards| && multiset(t.cards) == multiset(s.cards)
    ensures cmd == Shuffle ==> t.cursor == 0
    ensures cmd != Shuffle ==> t.cards == s.cards
    ensures cmd == Quit || cmd == Unrecognized ==> t == s
  {
    match cmd
    case Next => s.(cursor := (s.cursor + 1) % |s.cards|)
    case Previous => s.(cursor := (s.cursor - 1) % |s.cards|)
    case Shuffle => PermuteMultiset(s.cards, order); Session(Permute(s.cards, order), 0)
    case Quit => s
    case Unrecognized => s
  }

  /** "n" moves to the following card, and from the last card to the first. */
  lemma NextWraps(s: Session, order: seq<nat>)
    requires s.Valid()
    ensures Step(s, Next, order).cursor == if s.cursor + 1 < |s.cards| then s.cursor + 1 else 0
  {
  }

  /** "p" moves to the preceding card, and from the first card to the last:
      Python's `%` never yields a negative index. */
  lemma PreviousWraps(s: Session, order: seq<nat>)
    requires s.Valid()
    ensures Step(s, Previous, order).cursor == if s.cursor > 0 then s.cursor - 1 else |s.cards| - 1
  {
  }

  /** "p" undoes "n" and "n" undoes "p". */
  lemma PreviousUndoesNext(s: Session, order: seq<nat>)
    requires s.Valid()
    ensures Step(Step(s, Next, order), Previous, order) == s
    ensures Step(Step(s, Previous, order), Next, order) == s
  {
    NextWraps(s, order);
    PreviousWraps(s, order);
    NextWraps(Step(s, Previous, order), order);
    PreviousWraps(Step(s, Next, order), order);
  }

  /** The session after `k` answers "n". */
  function Advance(s: Session, k: nat): (r: Session)
    requires s.Valid()
    ensures r.Valid() && r.cards == s.cards
  {
    if k == 0 then s else Step(Advance(s, k - 1), Next, [])
  }

  /** After `k` answers "n", at most one per card, the cursor has moved `k`
      places forward, wrapping past the last card once at most. */
  lemma {:induction false} AdvanceCursor(s: Session, k: nat)
    requires s.Valid() && k <= |s.cards|
    ensures Advance(s, k).cursor ==
      if s.cursor + k < |s.cards| then s.cursor + k else s.cursor + k - |s.cards|
  {
    if k > 0 {
      AdvanceCursor(s, k - 1);
      NextWraps(Advance(s, k - 1), []);
    }
  }

  /** Answering "n" once per card comes back to the card the run started on. */
  lemma NextCycle(s: Session)
    requires s.Valid()
    ensures Advance(s, |s.cards|) == s
  {
    AdvanceCursor(s, |s.cards|);
  }

  /** Shuffle randomness is needed only for the answers that shuffle. */
  ghost predicate OrdersFit(choices: seq<string>, orders: seq<seq<nat>>, n: nat) {
    |orders| == |choices|
    && forall i :: 0 <= i < |choices| && ParseCommand(choices[i]) == Shuffle ==> IsPermutation(orders[i], n)
  }

  /** The session after the answers `choices`, in order. */
  function Replay(s: Session, choices: seq<string>, orders: seq<seq<nat>>): (r: Session)
    requires s.Valid() && OrdersFit(choices, orders, |s.cards|)
    ensures r.Valid() && |r.cards| == |s.cards| && multiset(r.cards) == multiset(s.cards)
    decreases |choices|
  {
    if choices == [] then s
    else
      var n := |choices| - 1;
      var before := Replay(s, choices[..n], orders[..n]);
      Step(before, ParseCommand(choices[n]), orders[n])
  }

  lemma OrdersFitPrefix(choices: seq<string>, orders: seq<seq<nat>>, n: nat, k: nat)
    requires OrdersFit(choices, orders, n) && k <= |choices|
    ensures OrdersFit(choices[..k], orders[..k], n)
  {
  }

  lemma ReplayExtend(s: Session, choices: seq<string>, orders: seq<seq<nat>>, k: nat)
    requires s.Valid() && OrdersFit(choices, orders, |s.cards|) && k < |choices|
    ensures OrdersFit(choices[..k], orders[..k], |s.cards|)
      && OrdersFit(choices[..k + 1], orders[..k + 1], |s.cards|)
      && Replay(s, choices[..k + 1], orders[..k + 1])
      == Step(Replay(s, choices[..k], orders[..k]), ParseCommand(choices[k]), orders[k])
  {
    OrdersFitPrefix(choices, orders, |s.cards|, k);
    OrdersFitPrefix(choices, orders, |s.cards|, k + 1);
    assert choices[..k + 1][..k] == choices[..k];
    assert orders[..k + 1][..k] == orders[..k];
  }

  // ---------------------------------------------------------------------------
  // The loop itself

  /** A running session: its own list of cards, which shuffling reorders in
      place, and the index of the card shown. */
  class StudySession {
    var cards: seq<Card>
    var cursor: nat
    const timerSeconds: nat

    ghost predicate Valid()
      reads this
    {
      |cards| > 0 && cursor < |cards|
    }

    function State(): Session
      reads this
    {
      Session(cards, cursor)
    }

    constructor (setup: Setup)
      requires setup.cards != []
      ensures Valid() && cards == setup.cards && cursor == 0 && timerSeconds == setup.timerSeconds
    {
      cards := setup.cards;
      cursor := 0;
      timerSeconds := setup.timerSeconds;
    }

    /** One navigation answer. */
    method Respond(choice: string, order: seq<nat>) returns (quit: bool)
      requires Valid()
      requires ParseCommand(choice) == Shuffle ==> IsPermutation(order, |cards|)
      modifies this
      ensures Valid() && (quit <==> ParseCommand(choice) == Quit)
      ensures State() == Step(old(State()), ParseCommand(choice), order)
    {
      quit := false;
      match ParseCommand(choice)
      case Quit => quit := true;
      case Next => cursor := (cursor + 1) % |cards|;
      case Previous => cursor := (cursor - 1) % |cards|;
      case Shuffle => cards := Permute(cards, order); cursor := 0;
      case Unrecognized =>
    }

    /** The `while True` loop fed with the answers `choices`: it stops after the
        first "q", or when the answers run out. */
    method Run(choices: seq<string>, orders: seq<seq<nat>>) returns (quit: bool, used: nat)
      requires Valid() && OrdersFit(choices, orders, |cards|)
      modifies this
      ensures Valid() && |cards| == old(|cards|) && multiset(cards) == old(multiset(cards))
      ensures used <= |choices|
      ensures quit ==> used > 0 && ParseCommand(choices[used - 1]) == Quit
      ensures !quit ==> used == |choices|
      ensures quit ==> forall i :: 0 <= i < used - 1 ==> ParseCommand(choices[i]) != Quit
      ensures !quit ==> forall i :: 0 <= i < used ==> ParseCommand(choices[i]) != Quit
      ensures OrdersFit(choices[..used], orders[..used], old(|cards|))
        && State() == Replay(old(State()), choices[..used], orders[..used])
    {
      ghost var start := State();
      quit, used := false, 0;
      while used < |choices| && !quit
        invariant Valid() && |cards| == |start.cards|
        invariant used <= |choices|
        invariant quit ==> used > 0 && ParseCommand(choices[used - 1]) == Quit
        invariant !quit ==> forall i :: 0 <= i < used ==> ParseCommand(choices[i]) != Quit
        invariant quit ==> forall i :: 0 <= i < used - 1 ==> ParseCommand(choices[i]) != Quit
        invariant OrdersFit(choices[..used], orders[..used], |start.cards|)
          && State() == Replay(start, choices[..used], orders[..used])
      {
        ReplayExtend(start, choices, orders, used);
        ghost var before := used;
        quit := Respond(choices[used], orders[used]);
        used := used + 1;
        assert !quit ==> forall i :: 0 <= i < used ==> ParseCommand(choices[i]) != Quit by {
          if !quit {
            forall i | 0 <= i < used ensures ParseCommand(choices[i]) != Quit {
              if i == before {
                assert ParseCommand(choices[before]) != Quit;
              }
            }
          }
        }
      }
    }
  }

  /** `study_deck` on the registry: it only reads the decks, so the deck's own
      cards keep their order whatever the session does with its copy. */
  method StudyDeck(reg: Registry, deckEntry: string, filterChoice: string, timerChoice: string,
                   choices: seq<string>, orders: seq<seq<nat>>)
    returns (r: Outcome, quit: bool)
    requires var b := BeginStudy(reg.decks, deckEntry, filterChoice, timerChoice);
      b.Begin? ==> OrdersFit(choices, orders, |b.setup.cards|)
    ensures var b := BeginStudy(reg.decks, deckEntry, filterChoice, timerChoice);
      r == if b.Begin? then Done else Refused(b.why)
    ensures r.Refused? ==> !quit
    ensures reg.decks == old(reg.decks) && reg.store == old(reg.store)
  {
    var b := BeginStudy(reg.decks, deckEntry, filterChoice, timerChoice);
    if b.NoSession? {
      return Refused(b.why), false;
    }
    var session := new StudySession(b.setup);
    var used;
    quit, used := session.Run(choices, orders);
    r := Done;
  }
}
