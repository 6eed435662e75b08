# FlashLearn core, modelled in Dafny

FlashLearn is a desktop study app: notes, flash cards and generated quizzes,
kept in local storage, plus a dashboard. This project models three parts of
its front end and proves properties about them:

- **The flip card's review loop** (`flashcard.dfy`, module `FlashCard`).
  In "repetitive" mode each card is marked *Remembered* or *Repeat*. At the
  end of the deck the session jumps back to a queued repeat, or completes
  and resets.
  - The pure functions `MarkRemembered`, `MarkRepeat`, `StartRepetitive` and
    `Flip` give the state after each handler. They follow React's semantics:
    a handler reads the state of the render it was created in, and its
    queued setters apply in order.
  - The class `Session` holds the same state as fields, and each of its
    methods is proved to follow the matching function.
- **The dashboard** (`calendar.dfy` and `homepage.dfy`, modules
  `CalendarSection` and `HomePage`): the month grid of active days, the
  streak, the daily goal and its progress bar, the daily and weekly
  summaries, the search box and the ten-item recent-activity timeline.
- **The quiz page** (`quizpage.dfy`, module `QuizPage`): choosing a note,
  generating a quiz, counting answers, the final feedback and score
  percentage, the retake button, and the entries both handlers add to the
  shared activity log.

The shared helpers live in two modules:

- `records.dfy`: the stored records, and the JavaScript `filter` / `forEach`
  + `push` / `slice` / `Math.round`.
- `text.dfy`: `trim`, `toLowerCase`, `includes` and decimal printing.

Time is a count of milliseconds since the epoch. A day key
(`toISOString().slice(0, 10)`) is the day number `t / 86400000`. The clock,
the weekday (`getDay()`), the first weekday and the length of the month are
inputs.

## Model

| member | source | states |
|---|---|---|
| Records.Keep | src/pages/HomePage.tsx:280-295 | the filtered images never outnumber the input; `KeepMembers` and `KeepAppend` give membership and order |
| Records.PushEach | src/pages/HomePage.tsx:281-295 | the `forEach` + `push` loop builds exactly `Keep(xs, p, f)`: the images of the passing elements, in input order |
| Records.KeepMembers | src/pages/HomePage.tsx:281-295 | an element's image is pushed iff the element passes; nothing else is pushed |
| Records.KeepAppend | src/pages/HomePage.tsx:117-150 | filtering a concatenation is the concatenation of the filtered parts (input order is output order) |
| Records.KeepAll | src/components/FlashCard.tsx:45 | when every element passes, the filter keeps everything, element by element |
| Records.CountIf | src/pages/HomePage.tsx:242 | `filter(p).length` is at most the length; it is 0 iff no element passes and the full length iff all do |
| Records.CountIfMono | src/pages/HomePage.tsx:262-269 | counting with a weaker test never gives fewer |
| Records.Take | src/pages/QuizPage.tsx:88 | `slice(0, k)` is a prefix of length `min(k, length)` |
| Records.DayOf | src/pages/HomePage.tsx:250 | the day key of a timestamp names the UTC day whose 24 hours contain it |
| Records.DaySetSize | src/pages/HomePage.tsx:226-227 | a log never has more distinct days than entries |
| Records.RoundRatio | src/components/FlashCard.tsx:89 | `Math.round(p / q)` is the integer within one half of `p / q` (halves round up) |
| Records.RoundRatioWhole | src/components/FlashCard.tsx:89 | rounding a whole ratio `k * q / q` gives `k` |
| Text.TrimStart | src/pages/HomePage.tsx:276 | removes leading JavaScript white space only: the result is a suffix that starts with a non-space, or is empty |
| Text.TrimEnd | src/pages/HomePage.tsx:276 | removes trailing white space only: the result is a prefix that ends in a non-space, or is empty |
| Text.Trim | src/pages/HomePage.tsx:276 | `trim` gives a slice of the text with only white space before and after it, and a non-empty result starts and ends with a non-space |
| Text.TrimEmptyIffBlank | src/pages/HomePage.tsx:276 | `s.trim() === ''` holds iff every character of `s` is white space |
| Text.TrimsToEmpty | src/pages/HomePage.tsx:276 | the search guard `searchTerm.trim() === ''` is true iff the term is blank |
| Text.Lower | src/pages/HomePage.tsx:282 | `toLowerCase` keeps the length and lowers each ASCII capital, leaving other characters alone |
| Text.LowerChar | src/pages/HomePage.tsx:282 | an ASCII capital becomes the matching lower-case letter, 32 code points on |
| Text.Contains | src/pages/HomePage.tsx:282 | every prefix of a text is found in it, and a text found is never longer than the one searched |
| Text.ContainsIff | src/pages/HomePage.tsx:282 | `includes(sub)` holds iff `sub` occurs at some position |
| Text.NatToString | src/pages/HomePage.tsx:145 | the decimal printing of a count is non-empty, all digits, with no leading zero |
| Text.NatToStringRoundTrip | src/pages/HomePage.tsx:145 | reading the printed digits back gives the number |
| FlashCard.Initial | src/components/FlashCard.tsx:12-18 | on mount the card is at `index`, face up, in normal mode, with both lists empty and no completion shown |
| FlashCard.Pending | src/components/FlashCard.tsx:45 | `toRepeat` holds exactly the queued indices not in the remembered list, never more than the queue |
| FlashCard.PendingAppend | src/components/FlashCard.tsx:45 | the filter keeps the queue order |
| FlashCard.PendingNothingRemembered | src/components/FlashCard.tsx:45 | with nothing remembered, the whole queue is pending |
| FlashCard.Advance | src/components/FlashCard.tsx:39-64 | `nextCard`: without a deck nothing changes; otherwise the card ends face up, and the session either keeps its completion count or completes and resets |
| FlashCard.MarkRemembered | src/components/FlashCard.tsx:27-31 | without a deck nothing happens; mid-deck the index is remembered and the next card shown |
| FlashCard.MarkRepeat | src/components/FlashCard.tsx:33-37 | without a deck nothing happens; mid-deck the index is queued and the next card shown |
| FlashCard.StartRepetitive | src/components/FlashCard.tsx:66-74 | with a deck, a fresh repetitive session starts on card 0 with empty lists; without one, nothing changes |
| FlashCard.Flip | src/components/FlashCard.tsx:23-25 | the face toggles and nothing else changes |
| FlashCard.DeckEnd | src/components/FlashCard.tsx:43-60 | at the deck's end the next card is the first pending repeat of the render's lists, and the rest are queued; the mark just made is overridden or ignored; with nothing pending, both buttons complete and reset the session |
| FlashCard.JumpTargetNotRemembered | src/components/FlashCard.tsx:57 | the card jumped back to was queued, was not remembered, and the mode stays |
| FlashCard.IndicesStayInRange | src/components/FlashCard.tsx:39-74 | starting puts every index in the deck, and every handler keeps all indices in range |
| FlashCard.RememberPrefix | src/components/FlashCard.tsx:27-64 | after `k < n` presses of *Remembered* from a fresh start, card `k` is shown and cards `0..k-1` are remembered in order |
| FlashCard.RememberWholeDeck | src/components/FlashCard.tsx:46-55 | remembering every card completes the session once and resets it, which leaves the computed `progressPercent` at 0 |
| FlashCard.LastRepeatIsDropped | src/components/FlashCard.tsx:57-60 | for deck A, B, C marked repeat, remembered, repeat: C's repeat is lost, and after A the walk goes on to B |
| FlashCard.RepeatThenRemember | src/components/FlashCard.tsx:27-60 | on a two-card deck, *Repeat* on the first card and then *Remembered* on the second jump back to the first card, with the second card's mark added and nothing left queued |
| FlashCard.ProgressCanPassFullDeck | src/components/FlashCard.tsx:89 | repeated *Remembered* marks of one card push the computed `progressPercent` to 150 |
| FlashCard.ProgressPercent | src/components/FlashCard.tsx:89 | progress is 0 without a deck, otherwise the rounded percentage of remembered marks per card |
| FlashCard.ProgressBounds | src/components/FlashCard.tsx:89 | progress is at most 100 while marks do not outnumber cards, and exactly 100 when they are equal |
| FlashCard.HasText | src/components/FlashCard.tsx:80-83 | a face shows its own text iff it is a string that is not all white space |
| FlashCard.CardFaces | src/components/FlashCard.tsx:76-86 | off the deck the props are shown; on a card its own non-blank faces are shown, a blank front falls back to the `front` prop and a blank back to "No back content", so the back is never blank |
| FlashCard.Session.constructor | src/components/FlashCard.tsx:12-18 | the component's state on mount equals `Initial(index)` |
| FlashCard.Session.HandleFlip | src/components/FlashCard.tsx:23-25 | the new state is `Flip` of the old one |
| FlashCard.Session.HandleRemembered | src/components/FlashCard.tsx:27-31 | the new state is `MarkRemembered` of the old one |
| FlashCard.Session.HandleRepeat | src/components/FlashCard.tsx:33-37 | the new state is `MarkRepeat` of the old one |
| FlashCard.Session.NextCard | src/components/FlashCard.tsx:39-64 | the new state is `Advance` of the old one, given the render's lists |
| FlashCard.Session.StartRepetitiveMode | src/components/FlashCard.tsx:66-74 | the new state is `StartRepetitive` of the old one |
| FlashCard.Session.CloseComplete | src/components/FlashCard.tsx:120 | the completion dialog closes and nothing else changes |
| CalendarSection.BuildCalendar | src/pages/HomePage.tsx:47-65 | rows of seven cells: `firstDay` blanks, then days `1..daysInMonth` in order, each active iff some entry falls on it, then blanks to the row's end, with no all-blank row |
| HomePage.UniqueDaysNewestFirst | src/pages/HomePage.tsx:226-228 | the distinct day keys of the log, strictly newest first, each once |
| HomePage.InsertDay | src/pages/HomePage.tsx:227-228 | adding one day key keeps the list newest first and without repeats, and it holds exactly the old keys plus the new one |
| HomePage.ComputeStreak | src/pages/HomePage.tsx:222-240 | each of the last `streak` days up to today is active; with no future entries, the day before the run is inactive; a future entry gives 0 |
| HomePage.TodayCount | src/pages/HomePage.tsx:242 | today's count is 0 iff today has no entry |
| HomePage.Progress | src/pages/HomePage.tsx:243-245 | progress is at most 100, is 100 iff the goal of 3 is met, and is otherwise the rounded share of the goal |
| HomePage.DailySummary | src/pages/HomePage.tsx:262-271 | each of today's counts is bounded by its collection and is 0 iff no item of that kind is stamped today |
| HomePage.InWeekAsWritten | src/pages/HomePage.tsx:251-259 | `isInWeek` as written: a day passes only within `getDay()` days back up to today, and every day strictly after the week's first day up to today passes |
| HomePage.WeeklySummaryAsWritten | src/pages/HomePage.tsx:249-272 | each weekly count as written is bounded and is 0 iff no item's UTC midnight lies between `weekStart` (now moved back `getDay()` days) and now |
| HomePage.WeeklySummary | src/pages/HomePage.tsx:262-272 | each weekly count, with the week compared by day, is bounded and is 0 iff no item of that kind is stamped from the week's first day through today |
| HomePage.AsWrittenWeekMissesOnlyFirstDay | src/pages/HomePage.tsx:251-259 | the week as written admits nothing the day-based week does not, and misses only items dated on the week's first day |
| HomePage.CountIn | src/pages/HomePage.tsx:262-269 | each count is bounded by its collection and is 0 iff no item is stamped within the period; unstamped items never count |
| HomePage.WeekStartDayMissedAsWritten | src/pages/HomePage.tsx:251-259 | as written, an item dated on the week's first day is outside the week unless the clock reads exactly midnight UTC |
| HomePage.SundayNoteMissedAsWritten | src/pages/HomePage.tsx:262-263 | a note made earlier on a Sunday counts today but not this week as written; the day-based week counts it |
| HomePage.DailyWithinWeekly | src/pages/HomePage.tsx:262-269 | with the week compared by day, each daily count is at most the weekly one |
| HomePage.Describe | src/pages/HomePage.tsx:283 | text of up to 60 characters is shown whole; longer text is cut to 60 characters plus "..." |
| HomePage.Mentions | src/pages/HomePage.tsx:282 | `text.toLowerCase().includes(query.toLowerCase())` holds iff the lowered query occurs at some position of the lowered text |
| HomePage.Hits | src/pages/HomePage.tsx:280-295 | there are never more results than stored items |
| HomePage.Search | src/pages/HomePage.tsx:275-297 | a blank term gives no results; otherwise matching notes, then cards, then quizzes, each in stored order |
| HomePage.HitsAreExactlyMatches | src/pages/HomePage.tsx:280-295 | every item whose text contains the term, ignoring case, is listed, and every listed result comes from such an item |
| HomePage.HitsGroupedByKind | src/pages/HomePage.tsx:281-295 | all note results come before all flash-card results, which come before all quiz results |
| HomePage.TimelineEvents | src/pages/HomePage.tsx:117-150 | there are never more timeline events than stored items |
| HomePage.TimelineEventsAreStamped | src/pages/HomePage.tsx:117-150 | each stamped note, card or quiz yields a timeline event carrying its stamp, and nothing else does |
| HomePage.InsertLatestFirst | src/pages/HomePage.tsx:152 | one insertion step keeps the list latest-first and adds exactly the one item |
| HomePage.SortLatestFirst | src/pages/HomePage.tsx:152 | the sort is a permutation ordered latest first |
| HomePage.LatestPrefix | src/pages/HomePage.tsx:153 | the first ten of a latest-first list are latest first, and no item cut off is later than one kept |
| HomePage.BuildTimeline | src/pages/HomePage.tsx:108-154 | at most ten stamped items, latest first, drawn from the stored items, and none left out that is later than one shown |
| QuizPage.FindNote | src/pages/QuizPage.tsx:70 | `find` gives the first note with the id; it gives none iff no note has the id |
| QuizPage.SelectedNoteName | src/pages/QuizPage.tsx:108-112 | the placeholder without a selection or a matching note; otherwise the matching note's title |
| QuizPage.PartialFeedback | src/pages/QuizPage.tsx:174 | the partial message is "You got ", the score in decimal, " out of ", the question count in decimal, and the fixed ending |
| QuizPage.FinalFeedback | src/pages/QuizPage.tsx:168-175 | feedback shows iff all questions of a non-empty quiz are answered: all correct, partial when the score is positive, none correct otherwise |
| QuizPage.FeedbackNamesItsCase | src/pages/QuizPage.tsx:171-175 | the three messages differ, so the message shown identifies the score case |
| QuizPage.PartialFeedbackQuotesScore | src/pages/QuizPage.tsx:174 | the digits after "You got " read back to the score |
| QuizPage.PartialFeedbackQuotesCount | src/pages/QuizPage.tsx:174 | the digits after " out of " read back to the question count |
| QuizPage.ScorePercent | src/pages/QuizPage.tsx:161-165 | the percentage shows iff something was answered, and is the rounded share of right answers |
| QuizPage.ScorePercentBounds | src/pages/QuizPage.tsx:163 | while score <= answered, the percentage is within 0..100: 100 when all are right, 0 when none are |
| QuizPage.LogActivity | src/pages/QuizPage.tsx:86-88 | the new entry comes first, the log has length `min(10, old + 1)`, and the rest is a prefix of the old log |
| QuizPage.LoggedDayIsActive | src/pages/QuizPage.tsx:185-187 | after logging, the entry's day is among the log's active days, and the log spans at most ten days |
| QuizPage.GeneratedTitle | src/pages/QuizPage.tsx:87 | the log title is `Generated quiz from "` + the note's title + `"`, 22 characters longer than the title |
| QuizPage.CompletedTitle | src/pages/QuizPage.tsx:186 | the log title is "Completed quiz (", the score in decimal, "/", the question count in decimal, and ")" |
| QuizPage.CompletedTitleQuotesScore | src/pages/QuizPage.tsx:186 | the digits after "Completed quiz (" read back to the score |
| QuizPage.CompletedTitleQuotesCount | src/pages/QuizPage.tsx:186 | the digits after "/" read back to the question count, and one closing character ends the title |
| QuizPage.QuizSession.constructor | src/pages/QuizPage.tsx:21-52 | the page starts with the loaded notes, questions and log, no selection, and zero counters |
| QuizPage.QuizSession.SelectNote | src/pages/QuizPage.tsx:103-106 | the note is selected, the dropdown closes, nothing else changes, and `score <= totalAnswered` is kept |
| QuizPage.QuizSession.GenerateQuiz | src/pages/QuizPage.tsx:68-94 | no selection, no matching note, or a generator call that throws changes nothing; otherwise the questions are replaced by what came back (none at all for an empty result) and the counters zeroed; a log entry is added only after a successful save |
| QuizPage.QuizSession.SubmitAnswer | src/pages/QuizPage.tsx:96-101 | the answered count goes up by one and the score by one only when right, so score <= answered holds |
| QuizPage.QuizSession.Retake | src/pages/QuizPage.tsx:178-188 | the counters are zeroed, the attempt goes up by one, and the log records the score reached before the reset |

## Left out

- Floating point: `Math.round` of a float quotient is computed exactly, as the nearest integer with halves up (`RoundRatio`). The float quotient could round differently at an exact half.
- Local time against UTC: the day keys of the streak, the summaries and the calendar are all taken as UTC days. The calendar builds its keys from the local year and month, and the streak's `setDate` works in local time. Their difference, and daylight-saving shifts, are not modelled.
- The timeline sorts by `new Date(time)` of the `toLocaleString()` text. That text is locale-dependent and drops milliseconds. The model sorts by the stored timestamp.
- `toLocaleString` of the month name and of timeline times is not modelled. The timeline keeps the timestamp.
- `toLowerCase` covers ASCII letters only. Unicode case mapping is not modelled.
- Storage and parsing:
  - Collections arrive already parsed.
  - A failed `JSON.parse` reaches the dashboard as an empty collection.
  - The parses at src/pages/HomePage.tsx:46 (the calendar), :111-115 and :224 throw on malformed text. That failure is not modelled.
  - Entries whose fields have the wrong type are not modelled.
- The quiz generator (a remote model) and the save to disk are not modelled. Their outcomes are parameters of `QuizSession.GenerateQuiz`, and so are the clock and the loaded data. The generator (src/services/PerplexityService.ts) answers a network or parse failure with an empty list, not with an exception, so such a failure reaches the handler as `Some([])`: it empties the quiz, zeroes the tally and, once saved, logs "Generated quiz from …". `None` stands for a call that throws.
- `QuizSession.GenerateQuiz`: the random question ids (`Date.now()` + `Math.random()`) are not modelled. Questions are kept as generated, and `isGenerating` is left out because it is always false once the handler returns.
- The `onComplete` callback is modelled as a counter of its calls (`completions`).
- `cards` absent and `cards` empty are treated the same. A card face that is not a string is `None`.
- Not modelled:
  - UI-only code: the motivational quote (random), navigation, the dropdown's click-outside handler, the summary popup and the pinned lists (`filter(n => n.pinned)`).
  - The `QuizQuestion` component.
- `HomePage.Describe`: counts characters as Unicode scalar values. JavaScript's `length` and `slice(0, 60)` count UTF-16 code units, so text outside the Basic Multilingual Plane is cut sooner by the source: 40 emoji are 80 code units and are cut, while the model shows them whole. A cut in the middle of a surrogate pair is not modelled either.
- `HomePage.SortLatestFirst`: modelled on sequences as an insertion sort proved to be a permutation ordered latest first. The order among items with equal times (the stability of `Array.prototype.sort`) is not stated.
- Where the code and the design description disagree, the model follows the code:
  - A card marked *Repeat* as the last of the deck is dropped, because `nextCard`'s `setRepeatList(toRepeat.slice(1))` overrides the queued append (`FlashCard.LastRepeatIsDropped`). After jumping back, the walk continues with the following index, not within the queue.
  - The computed `progressPercent` (src/components/FlashCard.tsx:89) counts remembered marks, not cards, so it can pass 100 (`FlashCard.ProgressCanPassFullDeck`).
  - `progressPercent` is never 100 for a finished deck: remembering the last card resets the remembered list (src/components/FlashCard.tsx:53) and leaves the mode normal, so the value is 0 (`FlashCard.RememberWholeDeck`).
  - The component computes `progressPercent` but its markup (src/components/FlashCard.tsx:91-125) never renders it, so neither value is shown to the user; the model states the computed value only.
  - An empty generation is not "no result": the handler replaces the quiz with no questions and logs the generation (`QuizSession.GenerateQuiz` with `Some([])`).

## Findings

| source | as written | input that shows it | evidently intended | confidence | as-written member | corrected member |
|---|---|---|---|---|---|---|
| src/pages/HomePage.tsx:251-259 | `weekStart` is `now` moved back `getDay()` days and keeps the time of day. `isInWeek` compares an item's UTC midnight against it, so the week's first day is excluded. | the page opened on a Sunday afternoon, with a note created that morning: the daily summary counts it, the weekly summary does not | the week runs from the most recent Sunday through today, compared by day | not executed | HomePage.WeeklySummaryAsWritten, shown by HomePage.SundayNoteMissedAsWritten | HomePage.WeeklySummary, proved in HomePage.DailyWithinWeekly |
