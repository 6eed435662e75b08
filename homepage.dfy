/**
 * The dashboard's aggregation over the stored collections, recomputed on
 * mount: the study streak, the daily goal, the daily and weekly summaries,
 * the search box and the recent-activity timeline.
 *
 * Every collection is given already parsed (a collection that fails to parse
 * reaches the dashboard as empty). The clock is an input: `now` in
 * milliseconds and `weekday` = `now.getDay()`; `today` is `DayOf(now)`.
 */
module HomePage {
  import opened Records
  import opened Text

  // ---------------------------------------------------------------- streak

  /** Strictly decreasing: a list of distinct day keys sorted newest first. */
  predicate NewestFirst(days: seq<int>)
  {
    forall i, j :: 0 <= i < j < |days| ==> days[i] > days[j]
  }

  /**
   * `Array.from(new Set(days))` sorted with `b.localeCompare(a)`: the
   * distinct day keys of the log, newest first.
   */
  method UniqueDaysNewestFirst(activity: seq<ActivityEntry>) returns (uniqueDays: seq<int>)
    ensures NewestFirst(uniqueDays)
    ensures forall d :: d in uniqueDays <==> d in DaySet(activity)
    ensures |uniqueDays| <= |activity|
  {
    uniqueDays := [];
    for k := 0 to |activity|
      invariant NewestFirst(uniqueDays)
      invariant forall d :: d in uniqueDays <==> d in DaySet(activity[..k])
      invariant |uniqueDays| <= k
    {
      var d := DayOf(activity[k].date);
      assert activity[..k + 1] == activity[..k] + [activity[k]];
      assert DaySet(activity[..k + 1]) == DaySet(activity[..k]) + {d};
      uniqueDays := InsertDay(uniqueDays, d);
    }
    assert activity[..|activity|] == activity;
  }

  /** Adding one day key to a newest-first list of distinct keys, unless it is already there. */
  method InsertDay(days: seq<int>, d: int) returns (r: seq<int>)
    requires NewestFirst(days)
    ensures NewestFirst(r)
    ensures forall e :: e in r <==> e in days || e == d
    ensures |r| <= |days| + 1
  {
    var j := 0;
    while j < |days| && days[j] > d
      invariant 0 <= j <= |days|
      invariant forall i :: 0 <= i < j ==> days[i] > d
    {
      j := j + 1;
    }
    if j < |days| && days[j] == d {
      return days;
    }
    var left, right := days[..j], days[j..];
    assert days == left + right;
    r := left + [d] + right;
    DayInsertedInPlace(days, d, j);
  }

  /** Placing `d` after the later keys and before the earlier ones keeps the list newest first. */
  lemma DayInsertedInPlace(days: seq<int>, d: int, j: nat)
    requires NewestFirst(days)
    requires j <= |days|
    requires forall i :: 0 <= i < j ==> days[i] > d
    requires j < |days| ==> days[j] < d
    ensures NewestFirst(days[..j] + [d] + days[j..])
  {
    var r := days[..j] + [d] + days[j..];
    forall a, b | 0 <= a < b < |r| ensures r[a] > r[b] {
      if b < j {
        assert r[a] == days[a] && r[b] == days[b];
      } else if b == j {
        assert r[a] == days[a] && r[b] == d;
      } else if a < j {
        assert r[a] == days[a] && r[b] == days[b - 1];
      } else if a == j {
        assert r[a] == d && r[b] == days[b - 1];
        assert days[j] >= days[b - 1];
      } else {
        assert r[a] == days[a - 1] && r[b] == days[b - 1];
      }
    }
  }

  /**
   * The streak of the log on day `today`: the number of unique days, newest
   * first, that match `today`, `today - 1`, ... up to the first mismatch.
   * Each of the last `streak` days including today has activity; when no
   * entry lies after today, the day before the streak has none, so the
   * streak is exactly the run of active days ending today; and a log with an
   * entry dated after today has streak 0.
   */
  method ComputeStreak(activity: seq<ActivityEntry>, today: int) returns (streak: nat)
    ensures streak <= |activity|
    ensures forall d :: today - streak < d <= today ==> d in DaySet(activity)
    ensures (forall d :: d in DaySet(activity) ==> d <= today) ==> today - streak !in DaySet(activity)
    ensures (exists d :: d in DaySet(activity) && d > today) ==> streak == 0
  {
    streak := 0;
    if |activity| > 0 {
      var uniqueDays := UniqueDaysNewestFirst(activity);
      var i := 0;
      while i < |uniqueDays|
        invariant 0 <= i <= |uniqueDays|
        invariant streak == i
        invariant forall j :: 0 <= j < i ==> uniqueDays[j] == today - j
      {
        if uniqueDays[i] == today - i {
          streak := streak + 1;
        } else {
          break;
        }
        i := i + 1;
      }
      assert i < |uniqueDays| ==> uniqueDays[i] != today - i;
      forall d | today - streak < d <= today ensures d in DaySet(activity) {
        assert uniqueDays[today - d] == d;
      }
      if exists d :: d in DaySet(activity) && d > today {
        var d :| d in DaySet(activity) && d > today;
        var k :| 0 <= k < |uniqueDays| && uniqueDays[k] == d;
        assert uniqueDays[0] >= d;
      }
      if forall d :: d in DaySet(activity) ==> d <= today {
        forall k | 0 <= k < |uniqueDays| ensures uniqueDays[k] != today - i {
          if k > i {
            assert uniqueDays[i] > uniqueDays[k];
            if i > 0 {
              assert uniqueDays[i - 1] > uniqueDays[i];
            } else {
              assert uniqueDays[0] in DaySet(activity);
            }
          }
        }
      }
    }
  }

  // ------------------------------------------------------ daily goal

  const DailyGoal: nat := 3

  /** Whether the timestamp falls on day `day`. */
  function OnDay(day: int): ActivityEntry -> bool
  {
    (a: ActivityEntry) => DayOf(a.date) == day
  }

  /** `activity.filter(a => a.date.slice(0, 10) === today).length`. */
  function TodayCount(activity: seq<ActivityEntry>, today: int): (c: nat)
    ensures c <= |activity|
    ensures c == 0 <==> today !in DaySet(activity)
  {
    var c := CountIf(activity, OnDay(today));
    assert c == 0 <==> forall a :: a in activity ==> !OnDay(today)(a);
    c
  }

  predicate GoalMet(todayCount: nat)
  {
    todayCount >= DailyGoal
  }

  /**
   * `Math.min(100, Math.round((todayCount / DAILY_GOAL) * 100))`: the share
   * of the goal reached, a whole percent that is full exactly when the goal
   * is met and otherwise the nearest percent below 100.
   */
  function Progress(todayCount: nat): (p: nat)
    ensures p <= 100
    ensures p == 100 <==> GoalMet(todayCount)
    ensures !GoalMet(todayCount) ==> (2 * p - 1) * DailyGoal <= 200 * todayCount < (2 * p + 1) * DailyGoal
  {
    var r := RoundRatio(100 * todayCount, DailyGoal);
    if r < 100 then r else 100
  }

  // ------------------------------------------- daily and weekly summaries

  datatype Summary = Summary(notes: nat, flashcards: nat, quizzes: nat)

  /** Whether an optional `created` / `taken` timestamp satisfies `inPeriod`. */
  predicate StampedIn(stamp: Option<int>, inPeriod: int -> bool)
  {
    stamp.Some? && inPeriod(stamp.value)
  }

  function NoteIn(inPeriod: int -> bool): Note -> bool
  {
    (n: Note) => StampedIn(n.created, inPeriod)
  }

  function CardIn(inPeriod: int -> bool): StoredFlashcard -> bool
  {
    (c: StoredFlashcard) => StampedIn(c.created, inPeriod)
  }

  function QuizIn(inPeriod: int -> bool): StoredQuiz -> bool
  {
    (q: StoredQuiz) => StampedIn(q.taken, inPeriod)
  }

  /** How many notes and flash cards were created, and quizzes taken, within the period. */
  function CountIn(notes: seq<Note>, cards: seq<StoredFlashcard>, quizzes: seq<StoredQuiz>, inPeriod: int -> bool): (s: Summary)
    ensures s.notes <= |notes| && s.flashcards <= |cards| && s.quizzes <= |quizzes|
    ensures s.notes == 0 <==> forall n :: n in notes ==> !StampedIn(n.created, inPeriod)
    ensures s.flashcards == 0 <==> forall c :: c in cards ==> !StampedIn(c.created, inPeriod)
    ensures s.quizzes == 0 <==> forall q :: q in quizzes ==> !StampedIn(q.taken, inPeriod)
  {
    var s := Summary(CountIf(notes, NoteIn(inPeriod)), CountIf(cards, CardIn(inPeriod)), CountIf(quizzes, QuizIn(inPeriod)));
    assert s.notes == 0 <==> forall n :: n in notes ==> !NoteIn(inPeriod)(n);
    assert s.flashcards == 0 <==> forall c :: c in cards ==> !CardIn(inPeriod)(c);
    assert s.quizzes == 0 <==> forall q :: q in quizzes ==> !QuizIn(inPeriod)(q);
    s
  }

  /** `created.slice(0, 10) === todayStr`. */
  function IsToday(now: int): int -> bool
  {
    t => DayOf(t) == DayOf(now)
  }

  /**
   * `isInWeek(created.slice(0, 10))` as written: the UTC midnight of the
   * item's day must lie between `weekStart` (now moved back `weekday` days,
   * keeping the time of day) and `now`.
   */
  function InWeekAsWritten(now: int, weekday: nat): (inWeek: int -> bool)
    ensures forall t :: inWeek(t) ==> DayOf(now) - weekday <= DayOf(t) <= DayOf(now)
    ensures forall t :: DayOf(now) - weekday < DayOf(t) <= DayOf(now) ==> inWeek(t)
  {
    t => now - weekday * MsPerDay <= DayOf(t) * MsPerDay <= now
  }

  /** The week from the most recent Sunday to today, compared day by day (a plain definition). */
  function InWeek(now: int, weekday: nat): int -> bool
  {
    t => DayOf(now) - weekday <= DayOf(t) <= DayOf(now)
  }

  /**
   * The week as written and the day-based week differ only on the week's
   * first day: everything the former admits the latter does, and the latter
   * admits nothing more except items dated on that first day.
   */
  lemma AsWrittenWeekMissesOnlyFirstDay(now: int, weekday: nat)
    ensures forall t :: InWeekAsWritten(now, weekday)(t) ==> InWeek(now, weekday)(t)
    ensures forall t :: InWeek(now, weekday)(t) && DayOf(t) != DayOf(now) - weekday ==> InWeekAsWritten(now, weekday)(t)
  {
  }

  /** The "Today" counts: zero exactly when nothing of that kind is stamped on today's day. */
  function DailySummary(notes: seq<Note>, cards: seq<StoredFlashcard>, quizzes: seq<StoredQuiz>, now: int): (s: Summary)
    ensures s.notes <= |notes| && s.flashcards <= |cards| && s.quizzes <= |quizzes|
    ensures s.notes == 0 <==> forall n :: n in notes && n.created.Some? ==> DayOf(n.created.value) != DayOf(now)
    ensures s.flashcards == 0 <==> forall c :: c in cards && c.created.Some? ==> DayOf(c.created.value) != DayOf(now)
    ensures s.quizzes == 0 <==> forall q :: q in quizzes && q.taken.Some? ==> DayOf(q.taken.value) != DayOf(now)
  {
    CountIn(notes, cards, quizzes, IsToday(now))
  }

  /**
   * The "This Week" counts as written: zero exactly when nothing of that
   * kind has its day's midnight between `weekStart` and `now`.
   */
  function WeeklySummaryAsWritten(notes: seq<Note>, cards: seq<StoredFlashcard>, quizzes: seq<StoredQuiz>, now: int, weekday: nat): (s: Summary)
    ensures s.notes <= |notes| && s.flashcards <= |cards| && s.quizzes <= |quizzes|
    ensures s.notes == 0 <==> forall n :: n in notes && n.created.Some? ==>
      !(now - weekday * MsPerDay <= DayOf(n.created.value) * MsPerDay <= now)
    ensures s.flashcards == 0 <==> forall c :: c in cards && c.created.Some? ==>
      !(now - weekday * MsPerDay <= DayOf(c.created.value) * MsPerDay <= now)
    ensures s.quizzes == 0 <==> forall q :: q in quizzes && q.taken.Some? ==>
      !(now - weekday * MsPerDay <= DayOf(q.taken.value) * MsPerDay <= now)
  {
    CountIn(notes, cards, quizzes, InWeekAsWritten(now, weekday))
  }

  /** The "This Week" counts compared by day: zero exactly when nothing of that kind is stamped from Sunday through today. */
  function WeeklySummary(notes: seq<Note>, cards: seq<StoredFlashcard>, quizzes: seq<StoredQuiz>, now: int, weekday: nat): (s: Summary)
    ensures s.notes <= |notes| && s.flashcards <= |cards| && s.quizzes <= |quizzes|
    ensures s.notes == 0 <==> forall n :: n in notes && n.created.Some? ==>
      !(DayOf(now) - weekday <= DayOf(n.created.value) <= DayOf(now))
    ensures s.flashcards == 0 <==> forall c :: c in cards && c.created.Some? ==>
      !(DayOf(now) - weekday <= DayOf(c.created.value) <= DayOf(now))
    ensures s.quizzes == 0 <==> forall q :: q in quizzes && q.taken.Some? ==>
      !(DayOf(now) - weekday <= DayOf(q.taken.value) <= DayOf(now))
  {
    CountIn(notes, cards, quizzes, InWeek(now, weekday))
  }

  /**
   * As written, the week never contains the day it starts on unless the page
   * is opened exactly at midnight UTC: that day's midnight lies before
   * `weekStart`. On a Sunday that day is today.
   */
  lemma WeekStartDayMissedAsWritten(now: int, weekday: nat, t: int)
    requires now % MsPerDay != 0
    requires DayOf(t) == DayOf(now) - weekday
    ensures !InWeekAsWritten(now, weekday)(t)
  {
  }

  /**
   * A note created on a Sunday morning, with the page opened later that
   * Sunday, counts for today and, as written, not for the week.
   */
  lemma SundayNoteMissedAsWritten(day: int, created: int, now: int)
    requires day * MsPerDay <= created < now < (day + 1) * MsPerDay
    ensures var notes := [Note("n1", "Title", "Content", Some(created), false)];
      && DailySummary(notes, [], [], now).notes == 1
      && WeeklySummaryAsWritten(notes, [], [], now, 0).notes == 0
      && WeeklySummary(notes, [], [], now, 0).notes == 1
  {
    var notes := [Note("n1", "Title", "Content", Some(created), false)];
    assert DayOf(created) == day && DayOf(now) == day;
    assert NoteIn(IsToday(now))(notes[0]);
    assert NoteIn(InWeek(now, 0))(notes[0]);
    assert !NoteIn(InWeekAsWritten(now, 0))(notes[0]);
  }

  /** With the week compared by day, everything counted today is counted this week. */
  lemma DailyWithinWeekly(notes: seq<Note>, cards: seq<StoredFlashcard>, quizzes: seq<StoredQuiz>, now: int, weekday: nat)
    ensures var daily := DailySummary(notes, cards, quizzes, now);
            var weekly := WeeklySummary(notes, cards, quizzes, now, weekday);
            daily.notes <= weekly.notes && daily.flashcards <= weekly.flashcards && daily.quizzes <= weekly.quizzes
  {
    CountIfMono(notes, NoteIn(IsToday(now)), NoteIn(InWeek(now, weekday)));
    CountIfMono(cards, CardIn(IsToday(now)), CardIn(InWeek(now, weekday)));
    CountIfMono(quizzes, QuizIn(IsToday(now)), QuizIn(InWeek(now, weekday)));
  }

  // ---------------------------------------------------------------- search

  datatype Kind = NoteItem | FlashcardItem | QuizItem

  datatype SearchResult = SearchResult(kind: Kind, title: string, description: string)

  const DescriptionLength: nat := 60

  /** `text.slice(0, 60) + (text.length > 60 ? '...' : '')`. */
  function Describe(text: string): (d: string)
    ensures |text| <= DescriptionLength ==> d == text
    ensures |text| > DescriptionLength ==> |d| == DescriptionLength + 3 && d == text[..DescriptionLength] + "..."
  {
    Take(text, DescriptionLength) + (if |text| > DescriptionLength then "..." else "")
  }

  /** `${quiz.questions.length} questions` (a plain definition). */
  function QuestionsLabel(count: nat): string
  {
    NatToString(count) + " questions"
  }

  /** `a.toLowerCase().includes(query.toLowerCase())`. */
  predicate Mentions(text: string, query: string): (b: bool)
    ensures b <==> exists i: nat :: OccursAt(Lower(text), Lower(query), i)
  {
    ContainsIff(Lower(text), Lower(query));
    Contains(Lower(text), Lower(query))
  }

  function NoteMatches(query: string): Note -> bool
  {
    (n: Note) => Mentions(n.title, query) || Mentions(n.content, query)
  }

  function CardMatches(query: string): StoredFlashcard -> bool
  {
    (c: StoredFlashcard) => Mentions(c.front, query) || Mentions(c.back, query)
  }

  function QuizMatches(query: string): StoredQuiz -> bool
  {
    (q: StoredQuiz) => Mentions(q.title, query)
  }

  function NoteResult(n: Note): SearchResult
  {
    SearchResult(NoteItem, n.title, Describe(n.content))
  }

  function CardResult(c: StoredFlashcard): SearchResult
  {
    SearchResult(FlashcardItem, c.front, Describe(c.back))
  }

  function QuizResult(q: StoredQuiz): SearchResult
  {
    SearchResult(QuizItem, q.title, QuestionsLabel(q.questionCount))
  }

  /** Every match, grouped by kind: notes, then flash cards, then quizzes, each in stored order. */
  function Hits(query: string, notes: seq<Note>, cards: seq<StoredFlashcard>, quizzes: seq<StoredQuiz>): (r: seq<SearchResult>)
    ensures |r| <= |notes| + |cards| + |quizzes|
  {
    Keep(notes, NoteMatches(query), NoteResult)
    + Keep(cards, CardMatches(query), CardResult)
    + Keep(quizzes, QuizMatches(query), QuizResult)
  }

  /** The search effect: nothing for a blank query, every match otherwise. */
  method Search(query: string, notes: seq<Note>, cards: seq<StoredFlashcard>, quizzes: seq<StoredQuiz>)
    returns (results: seq<SearchResult>)
    ensures IsBlank(query) ==> results == []
    ensures !IsBlank(query) ==> results == Hits(query, notes, cards, quizzes)
  {
    if TrimsToEmpty(query) {
      return [];
    }
    var noteResults := PushEach(notes, NoteMatches(query), NoteResult);
    var cardResults := PushEach(cards, CardMatches(query), CardResult);
    var quizResults := PushEach(quizzes, QuizMatches(query), QuizResult);
    results := noteResults + cardResults + quizResults;
  }

  /**
   * Search finds exactly the matches: every note, card or quiz whose text
   * contains the query (ignoring case) is listed, and every listed note,
   * card or quiz result comes from a stored item that matches.
   */
  lemma HitsAreExactlyMatches(query: string, notes: seq<Note>, cards: seq<StoredFlashcard>, quizzes: seq<StoredQuiz>)
    ensures forall n :: n in notes && NoteMatches(query)(n) ==> NoteResult(n) in Hits(query, notes, cards, quizzes)
    ensures forall c :: c in cards && CardMatches(query)(c) ==> CardResult(c) in Hits(query, notes, cards, quizzes)
    ensures forall q :: q in quizzes && QuizMatches(query)(q) ==> QuizResult(q) in Hits(query, notes, cards, quizzes)
    ensures forall r :: r in Hits(query, notes, cards, quizzes) && r.kind == NoteItem ==>
      exists n :: n in notes && NoteMatches(query)(n) && r == NoteResult(n)
    ensures forall r :: r in Hits(query, notes, cards, quizzes) && r.kind == FlashcardItem ==>
      exists c :: c in cards && CardMatches(query)(c) && r == CardResult(c)
    ensures forall r :: r in Hits(query, notes, cards, quizzes) && r.kind == QuizItem ==>
      exists q :: q in quizzes && QuizMatches(query)(q) && r == QuizResult(q)
  {
    KeepMembers(notes, NoteMatches(query), NoteResult);
    KeepMembers(cards, CardMatches(query), CardResult);
    KeepMembers(quizzes, QuizMatches(query), QuizResult);
  }

  /** The position of a kind in the result list: notes, then flash cards, then quizzes. */
  function Rank(kind: Kind): nat
  {
    match kind
    case NoteItem => 0
    case FlashcardItem => 1
    case QuizItem => 2
  }

  /** The results come grouped: every note before every flash card, every flash card before every quiz. */
  lemma HitsGroupedByKind(query: string, notes: seq<Note>, cards: seq<StoredFlashcard>, quizzes: seq<StoredQuiz>)
    ensures var r := Hits(query, notes, cards, quizzes);
      forall i, j :: 0 <= i < j < |r| ==> Rank(r[i].kind) <= Rank(r[j].kind)
  {
    var a := Keep(notes, NoteMatches(query), NoteResult);
    var b := Keep(cards, CardMatches(query), CardResult);
    var c := Keep(quizzes, QuizMatches(query), QuizResult);
    KeepMembers(notes, NoteMatches(query), NoteResult);
    KeepMembers(cards, CardMatches(query), CardResult);
    KeepMembers(quizzes, QuizMatches(query), QuizResult);
    var r := a + b + c;
    forall i | 0 <= i < |r|
      ensures Rank(r[i].kind) == (if i < |a| then 0 else if i < |a| + |b| then 1 else 2)
    {
      if i < |a| {
        assert r[i] == a[i] && a[i] in a;
      } else if i < |a| + |b| {
        assert r[i] == b[i - |a|] && b[i - |a|] in b;
      } else {
        assert r[i] == c[i - |a| - |b|] && c[i - |a| - |b|] in c;
      }
    }
  }

  // -------------------------------------------------------------- timeline

  datatype TimelineItem = TimelineItem(kind: Kind, title: string, description: string, time: int)

  /** The timestamp of a stamped item (the default is never used: only stamped items are shown). */
  function StampOf(stamp: Option<int>): int
  {
    if stamp.Some? then stamp.value else 0
  }

  function NoteCreated(n: Note): bool { n.created.Some? }

  function CardCreated(c: StoredFlashcard): bool { c.created.Some? }

  function QuizTaken(q: StoredQuiz): bool { q.taken.Some? }

  function NoteEvent(n: Note): TimelineItem
  {
    TimelineItem(NoteItem, n.title, Describe(n.content), StampOf(n.created))
  }

  function CardEvent(c: StoredFlashcard): TimelineItem
  {
    TimelineItem(FlashcardItem, c.front, Describe(c.back), StampOf(c.created))
  }

  function QuizEvent(q: StoredQuiz): TimelineItem
  {
    TimelineItem(QuizItem, q.title, QuestionsLabel(q.questionCount), StampOf(q.taken))
  }

  /** Every stamped note, then flash card, then quiz, as a timeline item. */
  function TimelineEvents(notes: seq<Note>, cards: seq<StoredFlashcard>, quizzes: seq<StoredQuiz>): (r: seq<TimelineItem>)
    ensures |r| <= |notes| + |cards| + |quizzes|
  {
    Keep(notes, NoteCreated, NoteEvent) + Keep(cards, CardCreated, CardEvent) + Keep(quizzes, QuizTaken, QuizEvent)
  }

  /** The events are exactly the stamped items: each stamped note, card or quiz yields one, and nothing else does. */
  lemma TimelineEventsAreStamped(notes: seq<Note>, cards: seq<StoredFlashcard>, quizzes: seq<StoredQuiz>)
    ensures forall n :: n in notes && n.created.Some? ==> NoteEvent(n) in TimelineEvents(notes, cards, quizzes)
    ensures forall c :: c in cards && c.created.Some? ==> CardEvent(c) in TimelineEvents(notes, cards, quizzes)
    ensures forall q :: q in quizzes && q.taken.Some? ==> QuizEvent(q) in TimelineEvents(notes, cards, quizzes)
    ensures forall e :: e in TimelineEvents(notes, cards, quizzes) ==>
      || (exists n :: n in notes && n.created == Some(e.time) && e == NoteEvent(n))
      || (exists c :: c in cards && c.created == Some(e.time) && e == CardEvent(c))
      || (exists q :: q in quizzes && q.taken == Some(e.time) && e == QuizEvent(q))
  {
    KeepMembers(notes, NoteCreated, NoteEvent);
    KeepMembers(cards, CardCreated, CardEvent);
    KeepMembers(quizzes, QuizTaken, QuizEvent);
  }

  predicate LatestFirst(items: seq<TimelineItem>)
  {
    forall i, j :: 0 <= i < j < |items| ==> items[i].time >= items[j].time
  }

  /** One insertion step: `x` goes after every item at least as late, before every earlier one. */
  method InsertLatestFirst(sorted: seq<TimelineItem>, x: TimelineItem) returns (r: seq<TimelineItem>)
    requires LatestFirst(sorted)
    ensures multiset(r) == multiset(sorted) + multiset{x}
    ensures LatestFirst(r)
  {
    var j := 0;
    while j < |sorted| && sorted[j].time >= x.time
      invariant 0 <= j <= |sorted|
      invariant forall i :: 0 <= i < j ==> sorted[i].time >= x.time
    {
      j := j + 1;
    }
    var left, right := sorted[..j], sorted[j..];
    assert sorted == left + right;
    r := left + [x] + right;
    assert multiset(r) == multiset(left) + multiset{x} + multiset(right);
    InsertedInPlace(sorted, x, j);
  }

  /** Placing `x` after the items at least as late and before the rest keeps the list latest first. */
  lemma InsertedInPlace(sorted: seq<TimelineItem>, x: TimelineItem, j: nat)
    requires LatestFirst(sorted)
    requires j <= |sorted|
    requires forall i :: 0 <= i < j ==> sorted[i].time >= x.time
    requires j < |sorted| ==> sorted[j].time < x.time
    ensures LatestFirst(sorted[..j] + [x] + sorted[j..])
  {
    var r := sorted[..j] + [x] + sorted[j..];
    forall a, b | 0 <= a < b < |r| ensures r[a].time >= r[b].time {
      if b < j {
        assert r[a] == sorted[a] && r[b] == sorted[b];
      } else if b == j {
        assert r[a] == sorted[a] && r[b] == x;
      } else if a < j {
        assert r[a] == sorted[a] && r[b] == sorted[b - 1];
      } else if a == j {
        assert r[a] == x && r[b] == sorted[b - 1];
        assert sorted[j].time >= sorted[b - 1].time;
      } else {
        assert r[a] == sorted[a - 1] && r[b] == sorted[b - 1];
      }
    }
  }

  /** `items.sort((a, b) => b.time - a.time)`: the same items, latest first. */
  method SortLatestFirst(items: seq<TimelineItem>) returns (sorted: seq<TimelineItem>)
    ensures multiset(sorted) == multiset(items)
    ensures LatestFirst(sorted)
  {
    sorted := [];
    for k := 0 to |items|
      invariant multiset(sorted) == multiset(items[..k])
      invariant LatestFirst(sorted)
    {
      assert items[..k + 1] == items[..k] + [items[k]];
      sorted := InsertLatestFirst(sorted, items[k]);
    }
    assert items[..|items|] == items;
  }

  const TimelineLength: nat := 10

  /**
   * The recent-activity timeline: at most ten stamped items, latest first,
   * each one of the stored items, and none left out that is later than one
   * shown.
   */
  method BuildTimeline(notes: seq<Note>, cards: seq<StoredFlashcard>, quizzes: seq<StoredQuiz>)
    returns (timeline: seq<TimelineItem>)
    ensures var events := TimelineEvents(notes, cards, quizzes);
      && |timeline| == (if |events| < TimelineLength then |events| else TimelineLength)
      && LatestFirst(timeline)
      && multiset(timeline) <= multiset(events)
      && forall x, i :: x in multiset(events) - multiset(timeline) && 0 <= i < |timeline| ==> x.time <= timeline[i].time
  {
    var noteEvents := PushEach(notes, NoteCreated, NoteEvent);
    var cardEvents := PushEach(cards, CardCreated, CardEvent);
    var quizEvents := PushEach(quizzes, QuizTaken, QuizEvent);
    var timelineArr := noteEvents + cardEvents + quizEvents;
    var sorted := SortLatestFirst(timelineArr);
    assert |sorted| == |multiset(sorted)| == |multiset(timelineArr)| == |timelineArr|;
    timeline := Take(sorted, TimelineLength);
    LatestPrefix(sorted, TimelineLength);
  }

  /** The first `k` items of a latest-first list are latest first, and no item left out is later than one kept. */
  lemma LatestPrefix(sorted: seq<TimelineItem>, k: nat)
    requires LatestFirst(sorted)
    ensures var top := Take(sorted, k);
      && LatestFirst(top)
      && multiset(top) <= multiset(sorted)
      && forall x, i :: x in multiset(sorted) - multiset(top) && 0 <= i < |top| ==> x.time <= top[i].time
  {
    var top := Take(sorted, k);
    var rest := sorted[|top|..];
    assert sorted == top + rest;
    assert multiset(sorted) == multiset(top) + multiset(rest);
    forall x, i | x in multiset(sorted) - multiset(top) && 0 <= i < |top|
      ensures x.time <= top[i].time
    {
      assert x in rest;
      var m :| 0 <= m < |rest| && rest[m] == x;
      assert sorted[|top| + m] == x;
    }
  }

}
