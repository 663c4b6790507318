# Flashcards: a Dafny model of the deck registry and the study session

`flashcard.py` is a terminal flashcard tool. Decks have a name and an ordered
list of cards; each card has a question, an answer and a difficulty (easy,
medium or hard). From a menu the user creates a deck, adds a card, deletes a
card, deletes a deck, or studies a deck. A study session filters the deck by
difficulty, optionally starts a countdown per card, and then loops over the
filtered list: `n` moves to the next card and `p` to the previous one (both wrap
around), `s` shuffles the list and returns to the first card, and `q` quits.
The decks are kept in a JSON file.

This project models that program without its terminal. Every line the user
types is a parameter. The decks file is an abstract store that `save_decks`
overwrites. The randomness of `random.shuffle` is a parameter too: the
arrangement it picks.

- `options.dfy` — `Option`.
- `text.dfy` (module `Text`) — the Python built-ins the program relies on:
  `str.strip` (with Python's `str.isspace` set of white-space characters),
  `str.lower` for the single letters the program compares against, `int()` on a
  line of input, and `f"{n}"` for integers.
- `cards.dfy` (module `Cards`) — cards, decks, the sample deck, the difficulty
  selector, and the per-difficulty counts of the deck overview.
- `decks.dfy` (module `Decks`) — deck selection, the `y` confirmation, and the
  class `Registry` whose methods are the four menu operations that change the
  decks. Each successful operation also writes the whole registry to the store.
- `timer.dfy` (module `Timer`) — `format_time`, an inverse for it, and the
  countdown loop of `timer_countdown`.
- `study.dfy` (module `Study`) — the difficulty filter, the timer choice, and the
  set-up checks of `study_deck`. Also the navigation step as a function on a
  `Session` value, and the class `StudySession` that runs the loop on its own copy
  of the cards. `StudyDeck` reads the registry and never changes it.

Three points about what the program does:

- The study screen never shows the countdown's remaining time. Line 348 prints
  `format_time(timer_seconds)`, the full duration. So the countdown has no effect
  on the session's state, and the loop model does not run it.
- A filter choice other than `1`–`5` does not re-prompt. It studies every card
  (lines 296-297).
- Selecting a deck never raises an error. `select_deck` returns None, and the
  model returns `Unselected` with the reason: no decks, not a number, or out of
  range.

## Model

| member | source | states |
|---|---|---|
| `Text.StripSpec` | flashcard.py:98-100 | the stripped text has no white space at either end, and is empty exactly when the input is all white space (so a blank name is rejected) |
| `Text.StripPadded` | flashcard.py:98 | stripping white space added around a trimmed text gives that text back |
| `Text.LowerStripIsLetter` | flashcard.py:221 | for each letter the program compares against (y, n, p, s, q), `s.strip().lower()` equals it exactly when the stripped answer is that letter in either case |
| `Text.ParseShowInt` | flashcard.py:120 | `int()` reads back the decimal that `f"{n}"` writes, for every integer Python prints (at most 4300 digits) |
| `Text.ParseIntPadded` | flashcard.py:120 | `int()` ignores the white space it skips around an entry: space, `\t`, `\n`, `\v`, `\f`, `\r` and the non-ASCII `str.isspace` characters |
| `Text.SeparatorNotSkipped` | flashcard.py:120 | an entry that starts or ends with a separator U+001C to U+001F is no number to `int()`, although `str.strip` would remove it |
| `Text.NumeralLimit` | flashcard.py:120 | a numeral is read exactly when it has at most 4300 digits (Python's default `int_max_str_digits`), and then with its value |
| `Cards.SampleDeck` | flashcard.py:30-39 | the sample deck is named "Sample Deck" and holds three cards: easy, medium, hard, in that order |
| `Cards.DifficultyFromSelector` | flashcard.py:161-163 | stripped "1" gives easy and "3" gives hard; "2" or any other text gives medium |
| `Cards.CountsPartition` | flashcard.py:83-86 | the easy, medium and hard counts add up to the deck's card count |
| `Cards.CountZero` | flashcard.py:84-86 | a difficulty's count is zero exactly when no card has that difficulty |
| `Cards.Summarize` | flashcard.py:82-86 | the overview line's total is the card count and equals easy + medium + hard |
| `Decks.Ordinal` | flashcard.py:217-219 | a card is selected exactly when the entry is an integer n with 1 ≤ n ≤ count, and the result is n-1; a non-number is reported as such |
| `Decks.SelectDeck` | flashcard.py:115-131 | an empty registry selects nothing; otherwise the result is n-1 exactly when the entry is an integer n in 1..len(decks); a non-number gives `NotANumber` and an out-of-range number `OutOfRange`, each exactly then |
| `Decks.TooLongIsNotANumber` | flashcard.py:119-131 | an ordinal of more than 4300 digits takes the ValueError branch: it is refused as no number, not as out of range |
| `Decks.SeparatorIsNotANumber` | flashcard.py:119-131 | an ordinal next to a separator U+001C to U+001F takes the ValueError branch and is refused as no number |
| `Decks.SelectListed` | flashcard.py:82-88 | typing the ordinal printed beside deck k selects index k-1 (for every ordinal Python prints) |
| `Decks.ConfirmedMeansY` | flashcard.py:221-223 | a deletion is confirmed exactly when the stripped answer is "y" or "Y" |
| `Decks.Registry.Load` | flashcard.py:28-42 | with no file the registry is the sample deck alone and nothing is written; otherwise it is the file's decks |
| `Decks.Registry.Save` | flashcard.py:44-47 | the store then holds the whole registry, and the registry is unchanged |
| `Decks.Registry.CreateDeck` | flashcard.py:98-106 | a blank name leaves the registry and the store unchanged; otherwise exactly one deck (stripped name, no cards) is appended at the end, the others are untouched, and the registry is saved |
| `Decks.Registry.AddCard` | flashcard.py:133-187 | refused when no deck is selected or the stripped question or answer is blank, leaving everything unchanged; otherwise the card is appended to the chosen deck only, other decks untouched, and saved |
| `Decks.Registry.DeleteCard` | flashcard.py:191-235 | only a selected, non-empty deck, a valid card ordinal and a "y" confirmation delete; the deck's cards become `cards[..c] + cards[c+1..]` (one fewer), other decks untouched, and saved; in every other case nothing changes |
| `Decks.Registry.DeleteDeck` | flashcard.py:237-253 | with a selected deck and "y", the registry becomes `decks[..k] + decks[k+1..]` and is saved; otherwise nothing changes |
| `Decks.SaveAndReload` | flashcard.py:28-47 | a registry saved and then loaded again is the registry that was saved |
| `Timer.TwoDigits` | flashcard.py:65 | the seconds field is at least two digits wide |
| `Timer.FormatTimeRoundTrip` | flashcard.py:61-65 | `format_time(s)` is minutes, ':' and two digits that read back as `mins*60 + secs == s` with `0 <= secs < 60`, for every s whose minutes Python prints (at most 4300 digits) |
| `Timer.Countdown` | flashcard.py:49-59 | the flag ends cleared; `time_remaining` is the start value minus the ticks, and never negative for a start ≥ 0; never cancelled, it runs to 0; cancelled after c ticks, it stops after min(c, seconds) ticks |
| `Study.Keep` | flashcard.py:286-295 | the filtered list is no longer than the deck, and every card in it has an allowed difficulty |
| `Study.KeepIsSubsequence` | flashcard.py:286-297 | the filtered list keeps the deck's order (it is a subsequence) |
| `Study.KeepExactly` | flashcard.py:286-295 | each card of an allowed difficulty is kept as many times as the deck holds it, and every other card is dropped |
| `Study.KeepCounts` | flashcard.py:287-291 | filtering on one difficulty keeps as many cards as the overview counts for it |
| `Study.KeepAll` | flashcard.py:296-297 | allowing all three difficulties keeps the whole deck, unchanged |
| `Study.KeepEmpty` | flashcard.py:299-302 | the filter yields nothing exactly when no card has an allowed difficulty |
| `Study.FilterCards` | flashcard.py:283-297 | choices 1-5 and the plain copy for any other choice both equal filtering by the chosen difficulty set |
| `Study.TimerSeconds` | flashcard.py:315-317 | the stripped choice "1" gives 10 s, "2" gives 30 s and "3" gives 60 s, each exactly then; "4" and any unknown choice give 0 |
| `Study.BeginStudy` | flashcard.py:260-317 | a session starts exactly when a deck is selected, it holds a card, and some card passes the filter; each refusal carries its own reason (the selection's, `EmptyDeck`, `NoMatch`, each iff); a started session holds exactly the filtered cards (non-empty, in deck order, only allowed difficulties) and the mapped timer |
| `Study.CommandLetters` | flashcard.py:371-379 | each command is one letter in either case with white space allowed around it |
| `Study.PermuteMultiset` | flashcard.py:379-382 | rearranging the list by any permutation keeps every card, as often as it occurs |
| `Study.Step` | flashcard.py:371-384 | every step keeps the cursor in range and the cards the same multiset; shuffling resets the cursor to 0; only shuffling reorders; quit and unknown input change nothing |
| `Study.NextWraps` | flashcard.py:375-376 | `n` moves to the next card, and from the last card to the first |
| `Study.PreviousWraps` | flashcard.py:377-378 | `p` moves to the previous card, and from the first card to the last (Python's non-negative `%`) |
| `Study.PreviousUndoesNext` | flashcard.py:375-378 | `p` undoes `n`, and `n` undoes `p` |
| `Study.AdvanceCursor` | flashcard.py:375-376 | k answers `n` (k ≤ length) move the cursor k places, wrapping at most once |
| `Study.NextCycle` | flashcard.py:375-376 | answering `n` as many times as there are cards returns to the starting card |
| `Study.Replay` | flashcard.py:326-384 | any sequence of answers keeps the cursor in range and the list a permutation of the filtered cards |
| `Study.StudySession.constructor` | flashcard.py:297-324 | a session starts on the first card of its own copy of the filtered cards |
| `Study.StudySession.Respond` | flashcard.py:371-384 | one answer changes the session's list and cursor exactly as `Step` says; it reports quit exactly on `q` |
| `Study.StudySession.Run` | flashcard.py:324-384 | the loop stops after the first `q`, or when the answers run out; the final state is the answers replayed in order, and the list is a permutation of the original |
| `Study.StudyDeck` | flashcard.py:255-387 | the study succeeds exactly when a session can start; the registry and the store are never changed, so the deck keeps its own card order |

## Left out

- Terminal I/O: `clear_screen`, `print_header`, the colour constants, every `print`, and the "Press Enter" pauses. Inputs are parameters, and the model does not produce the screen text.
- `view_all_decks` printing: only the counts it computes are modelled (`Summarize`).
- JSON: reading and writing the file. The store holds decks as values, and JSON is assumed to round-trip them. A corrupt file, which makes the program crash, is not modelled.
- Difficulty values outside easy, medium and hard, which a hand-edited file could hold, cannot be represented. Such a card would be studied under any filter choice other than 1 to 5, and it counts towards no difficulty.
- The `main_menu` dispatch loop (lines 389-427). It is string routing. `SaveAndReload` stands for "save & exit" followed by a later start.
- Threads: the daemon timer thread and `time.sleep`, and the sharing of `timer_running` and `time_remaining` between threads. `Countdown` is the countdown run alone. Per card the session would start one; it is not run in `StudySession.Run`, because nothing the session shows depends on it (line 348). Interleavings are not modelled. For example, a reveal can come before the new thread has set the flag. Or an earlier card's thread can keep counting once the next card's thread sets the flag again.
- `random.shuffle` itself: the arrangement is the parameter `order`, assumed to be a permutation of the positions.
- `Study.StudySession.Run`: the source loops until `q`. The model takes a finite list of answers and also stops when they run out.
- `Text.Lower`: lowers ASCII letters only, where Python's `str.lower` also lowers other characters (U+212A KELVIN SIGN becomes `k`, for one). The program compares the lowered answer only with y, n, p, s and q, and no other character lowers to one of those, so the two agree there.
- `Text.ParseInt`: the non-ASCII decimal digits that Python's `int()` also accepts are not modelled. Signs, the white space `int()` skips (which leaves out the separators U+001C to U+001F that `str.strip` removes), single underscores between digits and the 4300-digit cap are.
- `Text.ShowInt`: Python's `f"{n}"` raises ValueError for an integer of more than 4300 digits; `ShowInt` writes it anyway. So the lemmas that read a printed number back (`ParseShowInt`, `SelectListed`, `FormatTimeRoundTrip`) are stated only for numbers Python prints.
- `Study.AdvanceCursor`: stated for up to one full round (k ≤ length), which is what the cycle property needs. The general `(i + k) % len` form is not stated.
