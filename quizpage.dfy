/**
 * The quiz page's bookkeeping: choosing a note, replacing the questions
 * with a freshly generated quiz, counting answers, the final feedback, the
 * retake button, and the entries both handlers add to the shared
 * `flashlearn-recent-activity` log (newest first, at most ten).
 *
 * The quiz generator (a remote language model) and the save to disk are
 * outside the model: their outcomes are parameters of `GenerateQuiz`.
 */
module QuizPage {
  import opened Records
  import opened Text

  /** A quiz question; `correctAnswer` indexes `options`. */
  datatype Question = Question(question: string, options: seq<string>, correctAnswer: int)

  const Placeholder: string := "Select a note to generate a quiz"
  const AllCorrect: string := "Excellent! You got all questions correct."
  const NoneCorrect: string := "No correct answers. Try again!"
  const LogLength: nat := 10

  /** `notes.find(note => note.id === id)`: the first note carrying `id`, if any. */
  function FindNote(notes: seq<Note>, id: string): (r: Option<Note>)
    ensures r.Some? ==> r.value in notes && r.value.id == id
    ensures r.Some? ==> exists i :: 0 <= i < |notes| && notes[i] == r.value && forall j :: 0 <= j < i ==> notes[j].id != id
    ensures r.None? <==> forall n :: n in notes ==> n.id != id
  {
    if notes == [] then None
    else if notes[0].id == id then Some(notes[0])
    else
      var rest := FindNote(notes[1..], id);
      assert notes == [notes[0]] + notes[1..];
      if rest.Some? then
        var i :| 0 <= i < |notes[1..]| && notes[1..][i] == rest.value && forall j :: 0 <= j < i ==> notes[1..][j].id != id;
        assert notes[i + 1] == rest.value;
        rest
      else rest
  }

  /** `!selectedNoteId` is false only for a non-empty id: `null` and `""` both count as no selection. */
  predicate HasSelection(selected: Option<string>)
  {
    selected.Some? && selected.value != ""
  }

  /** The label of the note dropdown: the chosen note's title, or the placeholder. */
  function SelectedNoteName(selected: Option<string>, notes: seq<Note>): (name: string)
    ensures !HasSelection(selected) ==> name == Placeholder
    ensures HasSelection(selected) && FindNote(notes, selected.value).Some? ==>
      name == FindNote(notes, selected.value).value.title
    ensures HasSelection(selected) && (forall n :: n in notes ==> n.id != selected.value) ==> name == Placeholder
    ensures name == Placeholder || exists n :: n in notes && n.title == name && n.id == selected.value
  {
    if !HasSelection(selected) then Placeholder
    else
      match FindNote(notes, selected.value)
      case Some(n) => n.title
      case None => Placeholder
  }

  /**
   * The partial-score message, `You got ${score} out of ${n} correct. ...`:
   * the score after "You got ", then the question count and the fixed ending.
   */
  function PartialFeedback(score: nat, n: nat): (m: string)
    ensures |m| > 8 + |NatToString(score)|
    ensures m[..8] == "You got " && m[8..8 + |NatToString(score)|] == NatToString(score)
    ensures m[8 + |NatToString(score)|..] == " out of " + NatToString(n) + " correct. Try again to improve your score!"
  {
    var digits := NatToString(score);
    var m := "You got " + digits + (" out of " + NatToString(n) + " correct. Try again to improve your score!");
    assert m[8..8 + |digits|] == digits;
    assert m[8 + |digits|..] == " out of " + NatToString(n) + " correct. Try again to improve your score!";
    m
  }

  /**
   * The final feedback: shown once every question of a non-empty quiz is
   * answered, and then chosen by the score.
   */
  function FinalFeedback(score: nat, totalAnswered: nat, n: nat): (r: Option<string>)
    ensures r.Some? <==> totalAnswered == n && n > 0
    ensures r.Some? && score == n ==> r.value == AllCorrect
    ensures r.Some? && 0 < score != n ==> r.value == PartialFeedback(score, n)
    ensures r.Some? && score == 0 ==> r.value == NoneCorrect
  {
    if totalAnswered == n && n > 0 then
      Some(if score == n then AllCorrect else if score > 0 then PartialFeedback(score, n) else NoneCorrect)
    else None
  }

  /**
   * The three messages are told apart by their first character, so the
   * message shown determines which case the score is in.
   */
  lemma FeedbackNamesItsCase(score: nat, totalAnswered: nat, n: nat)
    requires totalAnswered == n && n > 0
    ensures FinalFeedback(score, totalAnswered, n) == Some(AllCorrect) <==> score == n
    ensures FinalFeedback(score, totalAnswered, n) == Some(NoneCorrect) <==> score == 0
    ensures FinalFeedback(score, totalAnswered, n) == Some(PartialFeedback(score, n)) <==> 0 < score != n
  {
    var partial := PartialFeedback(score, n);
    assert partial[0] == 'Y';
    assert AllCorrect[0] == 'E';
    assert NoneCorrect[0] == 'N';
  }

  /** The partial message quotes the score: the digits after "You got " read back to the score. */
  lemma PartialFeedbackQuotesScore(score: nat, n: nat)
    ensures var digits := NatToString(score);
      PartialFeedback(score, n)[8..8 + |digits|] == digits && DecimalValue(digits) == score
  {
    NatToStringRoundTrip(score);
  }

  /** The partial message quotes the question count: the digits after " out of " read back to it. */
  lemma PartialFeedbackQuotesCount(score: nat, n: nat)
    ensures var lead := 16 + |NatToString(score)|;
      var count := NatToString(n);
      |PartialFeedback(score, n)| >= lead + |count|
      && PartialFeedback(score, n)[lead..lead + |count|] == count && DecimalValue(count) == n
  {
    QuotedAfter(PartialFeedback(score, n), 8 + |NatToString(score)|, " out of ", n, " correct. Try again to improve your score!");
  }

  /** `Math.round(score / totalAnswered * 100)`, shown once something was answered. */
  function ScorePercent(score: nat, totalAnswered: nat): (r: Option<nat>)
    ensures r.Some? <==> totalAnswered > 0
    ensures r.Some? ==> (2 * r.value - 1) * totalAnswered <= 200 * score < (2 * r.value + 1) * totalAnswered
  {
    if totalAnswered > 0 then Some(RoundRatio(100 * score, totalAnswered)) else None
  }

  /** While the score never passes the number answered, the percentage stays within 0..100. */
  lemma ScorePercentBounds(score: nat, totalAnswered: nat)
    requires 0 < totalAnswered
    requires score <= totalAnswered
    ensures ScorePercent(score, totalAnswered).value <= 100
    ensures score == totalAnswered ==> ScorePercent(score, totalAnswered).value == 100
    ensures score == 0 ==> ScorePercent(score, totalAnswered).value == 0
  {
    var r := ScorePercent(score, totalAnswered).value;
    if r > 100 {
      MulLe(201, 2 * r - 1, totalAnswered);
      assert false;
    }
    if score == totalAnswered {
      RoundRatioWhole(100, totalAnswered);
    }
    if score == 0 {
      RoundRatioWhole(0, totalAnswered);
    }
  }

  /**
   * `activity.unshift(entry)` followed by storing `activity.slice(0, 10)`:
   * the new entry first, then as much of the old log as fits.
   */
  function LogActivity(log: seq<ActivityEntry>, entry: ActivityEntry): (r: seq<ActivityEntry>)
    ensures |r| == if |log| + 1 < LogLength then |log| + 1 else LogLength
    ensures r[0] == entry
    ensures r[1..] <= log
  {
    Take([entry] + log, LogLength)
  }

  /**
   * What the dashboard sees after a logged quiz: the entry's day is marked
   * active, and the log never spans more than ten days.
   */
  lemma LoggedDayIsActive(log: seq<ActivityEntry>, entry: ActivityEntry)
    ensures DayOf(entry.date) in DaySet(LogActivity(log, entry))
    ensures |DaySet(LogActivity(log, entry))| <= LogLength
  {
    var r := LogActivity(log, entry);
    assert r[0] in r;
    DaySetSize(r);
  }

  /** `Generated quiz from "<title>"`: the note's title, quoted after a fixed 21-character lead. */
  function GeneratedTitle(noteTitle: string): (t: string)
    ensures |t| == |noteTitle| + 22
    ensures t[..21] == "Generated quiz from \"" && t[21..|t| - 1] == noteTitle && t[|t| - 1] == '"'
  {
    "Generated quiz from \"" + noteTitle + "\""
  }

  /**
   * `Completed quiz (<score>/<questions>)`: the score just reached, in
   * decimal, after a fixed 16-character lead, then "/", the question count
   * and the closing parenthesis.
   */
  function CompletedTitle(score: nat, n: nat): (t: string)
    ensures |t| > 16 + |NatToString(score)|
    ensures t[..16] == "Completed quiz (" && t[16..16 + |NatToString(score)|] == NatToString(score)
    ensures t[16 + |NatToString(score)|..] == "/" + NatToString(n) + ")"
  {
    var digits := NatToString(score);
    var t := "Completed quiz (" + digits + ("/" + NatToString(n) + ")");
    assert t[16..16 + |digits|] == digits;
    assert t[16 + |digits|..] == "/" + NatToString(n) + ")";
    t
  }

  /** The logged title quotes the score: the digits after "(" read back to it. */
  lemma CompletedTitleQuotesScore(score: nat, n: nat)
    ensures var digits := NatToString(score);
      CompletedTitle(score, n)[16..16 + |digits|] == digits && DecimalValue(digits) == score
  {
    NatToStringRoundTrip(score);
  }

  /** The logged title quotes the question count: the digits after "/" read back to it, and ")" closes the title. */
  lemma CompletedTitleQuotesCount(score: nat, n: nat)
    ensures var lead := 17 + |NatToString(score)|;
      var count := NatToString(n);
      |CompletedTitle(score, n)| == lead + |count| + 1
      && CompletedTitle(score, n)[lead..lead + |count|] == count && DecimalValue(count) == n
  {
    QuotedAfter(CompletedTitle(score, n), 16 + |NatToString(score)|, "/", n, ")");
  }

  /**
   * The quiz page's state. `activity` stands for the stored activity log,
   * which the page reads, extends and writes back within one handler.
   */
  class QuizSession {
    var quizQuestions: seq<Question>
    var notes: seq<Note>
    var selectedNoteId: Option<string>
    var dropdownOpen: bool
    var score: nat
    var totalAnswered: nat
    var quizAttempt: nat
    var activity: seq<ActivityEntry>

    /** No more answers are right than were given. */
    predicate Valid()
      reads this
    {
      score <= totalAnswered
    }

    /** The page after its stored notes, questions and the activity log are loaded. */
    constructor (notes: seq<Note>, questions: seq<Question>, activity: seq<ActivityEntry>)
      ensures Valid()
      ensures this.notes == notes && quizQuestions == questions && this.activity == activity
      ensures selectedNoteId == None && !dropdownOpen
      ensures score == 0 && totalAnswered == 0 && quizAttempt == 0
    {
      this.notes, quizQuestions, this.activity := notes, questions, activity;
      selectedNoteId := None;
      dropdownOpen := false;
      score, totalAnswered, quizAttempt := 0, 0, 0;
    }

    method SelectNote(noteId: string)
      requires Valid()
      modifies this
      ensures Valid()
      ensures selectedNoteId == Some(noteId) && !dropdownOpen
      ensures quizQuestions == old(quizQuestions) && notes == old(notes) && activity == old(activity)
      ensures score == old(score) && totalAnswered == old(totalAnswered) && quizAttempt == old(quizAttempt)
    {
      selectedNoteId := Some(noteId);
      dropdownOpen := false;
    }

    /**
     * Generate a quiz from the selected note. `generated` is what the
     * generator returned: `Some(questions)`, or `None` when the call throws
     * (the generator itself answers a network or parse failure with
     * `Some([])`, and that is handled like any other result); `saved`
     * tells whether writing the questions to disk succeeded; `now` is the
     * clock. Nothing happens without a selected, existing note or when the
     * call throws; otherwise the questions are replaced (by none at all
     * for an empty result) and the tally cleared, and the log gains an
     * entry once the save succeeded.
     */
    method GenerateQuiz(generated: Option<seq<Question>>, saved: bool, now: int)
      requires Valid()
      modifies this
      ensures Valid()
      ensures notes == old(notes) && selectedNoteId == old(selectedNoteId) && dropdownOpen == old(dropdownOpen)
      ensures quizAttempt == old(quizAttempt)
      ensures !HasSelection(old(selectedNoteId)) || FindNote(notes, old(selectedNoteId).value).None? || generated.None? ==>
        quizQuestions == old(quizQuestions) && score == old(score) && totalAnswered == old(totalAnswered)
        && activity == old(activity)
      ensures HasSelection(old(selectedNoteId)) && FindNote(notes, old(selectedNoteId).value).Some? && generated.Some? ==>
        quizQuestions == generated.value && score == 0 && totalAnswered == 0
        && activity == (if saved
                        then LogActivity(old(activity), ActivityEntry("quiz", GeneratedTitle(FindNote(notes, old(selectedNoteId).value).value.title), now))
                        else old(activity))
    {
      if !HasSelection(selectedNoteId) {
        return;
      }
      var selectedNote := FindNote(notes, selectedNoteId.value);
      if selectedNote.None? {
        return;
      }
      if generated.None? {
        return;
      }
      quizQuestions := generated.value;
      score := 0;
      totalAnswered := 0;
      if !saved {
        return;
      }
      activity := LogActivity(activity, ActivityEntry("quiz", GeneratedTitle(selectedNote.value.title), now));
    }

    /** One answered question: always counted, scored only when right. */
    method SubmitAnswer(isCorrect: bool)
      requires Valid()
      modifies this
      ensures Valid()
      ensures totalAnswered == old(totalAnswered) + 1
      ensures score == old(score) + (if isCorrect then 1 else 0)
      ensures quizQuestions == old(quizQuestions) && notes == old(notes) && activity == old(activity)
      ensures selectedNoteId == old(selectedNoteId) && dropdownOpen == old(dropdownOpen) && quizAttempt == old(quizAttempt)
    {
      if isCorrect {
        score := score + 1;
      }
      totalAnswered := totalAnswered + 1;
    }

    /**
     * The retake button, offered with the final feedback (so once every
     * question of a non-empty quiz is answered, as `FinalFeedback` states): the tally is
     * cleared, the attempt counter (which remounts the questions) moves
     * on by one, and the log records the score just reached.
     */
    method Retake(now: int)
      requires Valid()
      requires totalAnswered == |quizQuestions| > 0
      modifies this
      ensures Valid()
      ensures score == 0 && totalAnswered == 0 && quizAttempt == old(quizAttempt) + 1
      ensures activity == LogActivity(old(activity), ActivityEntry("quiz", CompletedTitle(old(score), |quizQuestions|), now))
      ensures quizQuestions == old(quizQuestions) && notes == old(notes)
      ensures selectedNoteId == old(selectedNoteId) && dropdownOpen == old(dropdownOpen)
    {
      var entry := ActivityEntry("quiz", CompletedTitle(score, |quizQuestions|), now);
      activity := LogActivity(activity, entry);
      score := 0;
      totalAnswered := 0;
      quizAttempt := quizAttempt + 1;
    }
  }
}
