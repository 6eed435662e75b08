/**
 * The flip card with its "remembered / repeat" review loop.
 *
 * The component keeps six pieces of React state. A handler runs inside the
 * render in which it was created, so it reads every piece of state as that
 * render saw it; each `setX(v)` it issues is queued and applied afterwards in
 * issue order, a later plain value overriding an earlier functional update.
 * `handleRemembered` and `handleRepeat` queue the append of the current index
 * and then call `nextCard`, which therefore filters the lists WITHOUT the mark
 * just made, and whose own `setRepeatList` / `setRememberedList` at the end of
 * the deck replace the queued append.
 *
 * `ReviewState` is a snapshot of that state; the functions below give the
 * state after each handler, and the class `Session` carries the state as
 * fields and is proved to follow them. The `onComplete` callback is modelled
 * by the counter `completions` of its calls.
 */
module FlashCard {
  import opened Records
  import opened Text

  datatype Mode = Normal | Repetitive

  /** A card of the `cards` prop; a face that is not a string is `None`. */
  datatype CardData = CardData(front: Option<string>, back: Option<string>)

  datatype ReviewState = ReviewState(
    currentIndex: int,
    repeatList: seq<int>,
    rememberedList: seq<int>,
    mode: Mode,
    isFlipped: bool,
    showComplete: bool,
    completions: nat)

  /** The state on mount: the `index` prop (default 0) and everything else cleared. */
  function Initial(index: int): (s: ReviewState)
    ensures s.currentIndex == index && s.repeatList == [] && s.rememberedList == []
    ensures s.mode == Normal && !s.isFlipped && !s.showComplete && s.completions == 0
  {
    ReviewState(index, [], [], Normal, false, false, 0)
  }

  /**
   * `repeatList.filter(idx => !rememberedList.includes(idx))`: the queued
   * repeats that were not remembered since, in the order they were queued.
   */
  function Pending(repeatList: seq<int>, rememberedList: seq<int>): (r: seq<int>)
    ensures |r| <= |repeatList|
    ensures forall x :: x in r <==> x in repeatList && x !in rememberedList
  {
    KeepMembers(repeatList, NotIn(rememberedList), Same);
    Keep(repeatList, NotIn(rememberedList), Same)
  }

  function NotIn(rememberedList: seq<int>): int -> bool
  {
    x => x !in rememberedList
  }

  function Same(x: int): int
  {
    x
  }

  /** The filter keeps the queue order: filtering a queue in two parts gives the two filtered parts in turn. */
  lemma PendingAppend(a: seq<int>, b: seq<int>, rememberedList: seq<int>)
    ensures Pending(a + b, rememberedList) == Pending(a, rememberedList) + Pending(b, rememberedList)
  {
    KeepAppend(a, b, NotIn(rememberedList), Same);
  }

  /** When nothing queued was remembered, the whole queue is pending, unchanged. */
  lemma PendingNothingRemembered(repeatList: seq<int>, rememberedList: seq<int>)
    requires forall x :: x in repeatList ==> x !in rememberedList
    ensures Pending(repeatList, rememberedList) == repeatList
  {
    assert forall x :: x in repeatList ==> NotIn(rememberedList)(x);
    KeepAll(repeatList, NotIn(rememberedList), Same);
  }

  /** The state a finished session leaves behind (FlashCard.tsx:48-54). */
  predicate Completed(r: ReviewState, before: ReviewState)
  {
    r == ReviewState(0, [], [], Normal, false, true, before.completions + 1)
  }

  /**
   * `nextCard` on a deck of `n` cards. `marked` is the state that already
   * holds the mark the handler queued; `seenRepeat` and `seenRemembered` are
   * the lists of the render the handler runs in.
   */
  function Advance(n: nat, marked: ReviewState, seenRepeat: seq<int>, seenRemembered: seq<int>): (r: ReviewState)
    ensures n == 0 ==> r == marked
    ensures n > 0 ==> !r.isFlipped
    ensures r.completions == marked.completions || Completed(r, marked)
  {
    if n == 0 then marked
    else if marked.currentIndex + 1 >= n then
      var toRepeat := Pending(seenRepeat, seenRemembered);
      if |toRepeat| == 0 then ReviewState(0, [], [], Normal, false, true, marked.completions + 1)
      else marked.(currentIndex := toRepeat[0], repeatList := toRepeat[1..], isFlipped := false)
    else marked.(currentIndex := marked.currentIndex + 1, isFlipped := false)
  }

  /** `handleRemembered`: queue the current index onto `rememberedList`, then `nextCard`. */
  function MarkRemembered(n: nat, s: ReviewState): (r: ReviewState)
    ensures n == 0 ==> r == s
    ensures 0 < n && s.currentIndex + 1 < n ==>
      r == s.(currentIndex := s.currentIndex + 1, rememberedList := s.rememberedList + [s.currentIndex], isFlipped := false)
  {
    if n == 0 then s
    else Advance(n, s.(rememberedList := s.rememberedList + [s.currentIndex]), s.repeatList, s.rememberedList)
  }

  /** `handleRepeat`: queue the current index onto `repeatList`, then `nextCard`. */
  function MarkRepeat(n: nat, s: ReviewState): (r: ReviewState)
    ensures n == 0 ==> r == s
    ensures 0 < n && s.currentIndex + 1 < n ==>
      r == s.(currentIndex := s.currentIndex + 1, repeatList := s.repeatList + [s.currentIndex], isFlipped := false)
  {
    if n == 0 then s
    else Advance(n, s.(repeatList := s.repeatList + [s.currentIndex]), s.repeatList, s.rememberedList)
  }

  /** `startRepetitiveMode`: a fresh session on the first card, in repetitive mode. */
  function StartRepetitive(n: nat, s: ReviewState): (r: ReviewState)
    ensures n == 0 ==> r == s
    ensures n > 0 ==> r.mode == Repetitive && r.currentIndex == 0 && r.repeatList == [] && r.rememberedList == []
    ensures n > 0 ==> !r.isFlipped && !r.showComplete && r.completions == s.completions
  {
    if n == 0 then s else ReviewState(0, [], [], Repetitive, false, false, s.completions)
  }

  /** `handleFlip`: the face toggles and nothing else changes. */
  function Flip(s: ReviewState): (r: ReviewState)
    ensures r.isFlipped == !s.isFlipped
    ensures r.(isFlipped := s.isFlipped) == s
  {
    s.(isFlipped := !s.isFlipped)
  }

  /**
   * At the end of the deck the next card comes from the queue as the render
   * saw it: the mark just made plays no part in the choice, a card remembered
   * earlier is never chosen, and with nothing pending the session completes
   * and is reset, whichever button was pressed.
   */
  lemma DeckEnd(n: nat, s: ReviewState)
    requires 0 < n <= s.currentIndex + 1
    ensures var toRepeat := Pending(s.repeatList, s.rememberedList);
      && (toRepeat == [] ==> Completed(MarkRemembered(n, s), s) && Completed(MarkRepeat(n, s), s))
      && (toRepeat != [] ==>
            && MarkRemembered(n, s) == s.(currentIndex := toRepeat[0], repeatList := toRepeat[1..],
                                          rememberedList := s.rememberedList + [s.currentIndex], isFlipped := false)
            && MarkRepeat(n, s) == s.(currentIndex := toRepeat[0], repeatList := toRepeat[1..], isFlipped := false))
  {
  }

  /** The card a session jumps back to was queued for repeat and is not in the remembered list the render saw. */
  lemma JumpTargetNotRemembered(n: nat, s: ReviewState, remembered: bool)
    requires 0 < n <= s.currentIndex + 1
    requires Pending(s.repeatList, s.rememberedList) != []
    ensures var r := if remembered then MarkRemembered(n, s) else MarkRepeat(n, s);
      r.currentIndex in s.repeatList && r.currentIndex !in s.rememberedList && r.mode == s.mode
  {
    var toRepeat := Pending(s.repeatList, s.rememberedList);
    assert toRepeat[0] in toRepeat;
  }

  /** Every index the session holds points into the deck. */
  predicate IndicesInRange(n: nat, s: ReviewState)
  {
    && 0 <= s.currentIndex < n
    && (forall i :: i in s.repeatList ==> 0 <= i < n)
    && (forall i :: i in s.rememberedList ==> 0 <= i < n)
  }

  /** Starting a session puts every index in range, and every handler keeps them there. */
  lemma IndicesStayInRange(n: nat, s: ReviewState)
    ensures n > 0 ==> IndicesInRange(n, StartRepetitive(n, s))
    ensures IndicesInRange(n, s) ==>
      && IndicesInRange(n, MarkRemembered(n, s))
      && IndicesInRange(n, MarkRepeat(n, s))
      && IndicesInRange(n, Flip(s))
  {
    if IndicesInRange(n, s) && s.currentIndex + 1 >= n {
      var toRepeat := Pending(s.repeatList, s.rememberedList);
      if toRepeat != [] {
        assert toRepeat[0] in toRepeat;
        assert forall i :: i in toRepeat[1..] ==> i in toRepeat;
      }
    }
  }

  /** `k` presses of "Remembered" in a row. */
  function RememberTimes(n: nat, s: ReviewState, k: nat): ReviewState
  {
    if k == 0 then s else MarkRemembered(n, RememberTimes(n, s, k - 1))
  }

  /** After `k < n` presses of "Remembered" from a fresh start, cards `0..k-1` are remembered in order and card `k` is shown. */
  lemma {:induction false} RememberPrefix(n: nat, s: ReviewState, k: nat)
    requires k < n
    ensures RememberTimes(n, StartRepetitive(n, s), k)
      == ReviewState(k, [], seq(k, i => i), Repetitive, false, false, s.completions)
  {
    if k > 0 {
      RememberPrefix(n, s, k - 1);
      assert seq(k - 1, i => i) + [k - 1] == seq(k, i => i);
    }
  }

  /** Remembering every card of a fresh session visits each card once, completes, and resets the session. */
  lemma RememberWholeDeck(n: nat, s: ReviewState)
    requires n > 0
    ensures Completed(RememberTimes(n, StartRepetitive(n, s), n), s)
    ensures ProgressPercent(n, |RememberTimes(n, StartRepetitive(n, s), n).rememberedList|) == 0
  {
    RememberPrefix(n, s, n - 1);
    var last := RememberTimes(n, StartRepetitive(n, s), n - 1);
    assert Pending(last.repeatList, last.rememberedList) == [];
    assert |RememberTimes(n, StartRepetitive(n, s), n).rememberedList| == 0;
    RoundRatioWhole(0, n);
  }

  /**
   * Deck A, B, C: A repeat, B remembered, C repeat. The repeat of C is lost:
   * the session jumps to A with nothing left queued, and after A it walks on
   * to B instead of staying within the queue.
   */
  lemma LastRepeatIsDropped()
    ensures var s1 := MarkRepeat(3, StartRepetitive(3, Initial(0)));
            var s2 := MarkRemembered(3, s1);
            var s3 := MarkRepeat(3, s2);
            && s3.currentIndex == 0 && s3.repeatList == [] && s3.rememberedList == [1] && s3.mode == Repetitive
            && MarkRemembered(3, s3).currentIndex == 1
  {
    var s0 := StartRepetitive(3, Initial(0));
    assert s0 == ReviewState(0, [], [], Repetitive, false, false, 0);
    var s1 := MarkRepeat(3, s0);
    assert s1 == ReviewState(1, [0], [], Repetitive, false, false, 0);
    var s2 := MarkRemembered(3, s1);
    assert s2 == ReviewState(2, [0], [1], Repetitive, false, false, 0);
    PendingNothingRemembered([0], [1]);
    DeckEnd(3, s2);
    var s3 := MarkRepeat(3, s2);
    assert s3 == ReviewState(0, [], [1], Repetitive, false, false, 0);
  }

  /**
   * Deck A, B, on card A with nothing queued: "Repeat" on A and then
   * "Remembered" on B ends the pass with A queued, so the session jumps
   * back to A with B's mark added and A no longer queued, and is not
   * completed.
   */
  lemma RepeatThenRemember(rememberedList: seq<int>, completions: nat)
    requires 0 !in rememberedList
    ensures var s := ReviewState(0, [], rememberedList, Repetitive, false, false, completions);
      MarkRemembered(2, MarkRepeat(2, s)) == s.(rememberedList := rememberedList + [1])
  {
    var s := ReviewState(0, [], rememberedList, Repetitive, false, false, completions);
    var s1 := MarkRepeat(2, s);
    assert s1 == s.(currentIndex := 1, repeatList := [0]);
    PendingNothingRemembered([0], rememberedList);
    DeckEnd(2, s1);
  }

  /**
   * Deck A, B: A is always marked "repeat" and B "remembered". Each pass ends
   * on B with A still queued, so the session jumps back to A and never
   * completes, while B's marks pile up in the remembered list and the
   * progress bar passes 100 %.
   */
  lemma ProgressCanPassFullDeck()
    ensures var s := StartRepetitive(2, Initial(0));
            var t := MarkRemembered(2, MarkRepeat(2, MarkRemembered(2, MarkRepeat(2, s))));
            var u := MarkRemembered(2, MarkRepeat(2, t));
            && t.rememberedList == [1, 1] && u.rememberedList == [1, 1, 1] && u.mode == Repetitive
            && ProgressPercent(2, |u.rememberedList|) == 150
  {
    var s := StartRepetitive(2, Initial(0));
    assert s == ReviewState(0, [], [], Repetitive, false, false, 0);
    RepeatThenRemember([], 0);
    var s1 := MarkRemembered(2, MarkRepeat(2, s));
    assert s1 == ReviewState(0, [], [1], Repetitive, false, false, 0);
    RepeatThenRemember([1], 0);
    var t := MarkRemembered(2, MarkRepeat(2, s1));
    assert t == ReviewState(0, [], [1, 1], Repetitive, false, false, 0);
    RepeatThenRemember([1, 1], 0);
    RoundRatioWhole(150, 2);
  }

  /** `progressPercent`: the share of remembered marks in the deck, rounded to a whole percent; 0 without a deck. */
  function ProgressPercent(n: nat, rememberedCount: nat): (p: nat)
    ensures n == 0 ==> p == 0
    ensures n > 0 ==> (2 * p - 1) * n <= 200 * rememberedCount < (2 * p + 1) * n
  {
    if n > 0 then RoundRatio(100 * rememberedCount, n) else 0
  }

  /** The bar stays within 100 % as long as there are no more marks than cards, and is full when there are exactly as many. */
  lemma ProgressBounds(n: nat, rememberedCount: nat)
    requires rememberedCount <= n
    ensures ProgressPercent(n, rememberedCount) <= 100
    ensures n > 0 && rememberedCount == n ==> ProgressPercent(n, rememberedCount) == 100
  {
    if n > 0 {
      var p := ProgressPercent(n, rememberedCount);
      if p > 100 {
        MulLe(201, 2 * p - 1, n);
        assert false;
      }
      if rememberedCount == n {
        RoundRatioWhole(100, n);
      }
    }
  }

  /** A face shows its own text only when it is a string that `trim` does not empty. */
  predicate HasText(face: Option<string>): (b: bool)
    ensures b <==> face.Some? && !IsBlank(face.value)
  {
    face.Some? && !TrimsToEmpty(face.value)
  }

  const NoBackContent: string := "No back content"

  /**
   * The faces shown for the current index: out of the deck, the `front` and
   * `back` props; on a card, its own faces, a blank front falling back to the
   * `front` prop and a blank back to "No back content".
   */
  function CardFaces(front: string, back: string, cards: seq<CardData>, currentIndex: int): (faces: (string, string))
    ensures !(0 <= currentIndex < |cards|) ==> faces == (front, back)
    ensures 0 <= currentIndex < |cards| && HasText(cards[currentIndex].front) ==> faces.0 == cards[currentIndex].front.value
    ensures 0 <= currentIndex < |cards| && !HasText(cards[currentIndex].front) ==> faces.0 == front
    ensures 0 <= currentIndex < |cards| && HasText(cards[currentIndex].back) ==> faces.1 == cards[currentIndex].back.value
    ensures 0 <= currentIndex < |cards| && !HasText(cards[currentIndex].back) ==> faces.1 == NoBackContent
    ensures 0 <= currentIndex < |cards| ==> !IsBlank(faces.1)
    ensures 0 <= currentIndex < |cards| ==> faces.0 == front || !IsBlank(faces.0)
  {
    if 0 <= currentIndex < |cards| then
      var card := cards[currentIndex];
      var cardFront := if HasText(card.front) then card.front.value else front;
      var cardBack := if HasText(card.back) then card.back.value else NoBackContent;
      assert !IsTrimmed(NoBackContent[0]);
      (cardFront, cardBack)
    else (front, back)
  }

  /** The component instance: its props and its React state. */
  class Session {
    const front: string
    const back: string
    const cards: seq<CardData>
    var currentIndex: int
    var repeatList: seq<int>
    var rememberedList: seq<int>
    var mode: Mode
    var isFlipped: bool
    var showComplete: bool
    var completions: nat

    function State(): ReviewState
      reads this
    {
      ReviewState(currentIndex, repeatList, rememberedList, mode, isFlipped, showComplete, completions)
    }

    constructor (front: string, back: string, cards: seq<CardData>, index: int)
      ensures this.front == front && this.back == back && this.cards == cards
      ensures State() == Initial(index)
    {
      this.front, this.back, this.cards := front, back, cards;
      isFlipped := false;
      currentIndex := index;
      repeatList, rememberedList := [], [];
      mode := Normal;
      showComplete := false;
      completions := 0;
    }

    method HandleFlip()
      modifies this
      ensures State() == Flip(old(State()))
    {
      isFlipped := !isFlipped;
    }

    method HandleRemembered()
      modifies this
      ensures State() == MarkRemembered(|cards|, old(State()))
    {
      if |cards| == 0 {
        return;
      }
      var seenRepeat, seenRemembered := repeatList, rememberedList;
      rememberedList := rememberedList + [currentIndex];
      NextCard(seenRepeat, seenRemembered);
    }

    method HandleRepeat()
      modifies this
      ensures State() == MarkRepeat(|cards|, old(State()))
    {
      if |cards| == 0 {
        return;
      }
      var seenRepeat, seenRemembered := repeatList, rememberedList;
      repeatList := repeatList + [currentIndex];
      NextCard(seenRepeat, seenRemembered);
    }

    /** `nextCard`, run with the lists of the render that called it. */
    method NextCard(seenRepeat: seq<int>, seenRemembered: seq<int>)
      modifies this
      ensures State() == Advance(|cards|, old(State()), seenRepeat, seenRemembered)
    {
      if |cards| == 0 {
        return;
      }
      var nextIdx := currentIndex + 1;
      if nextIdx >= |cards| {
        var toRepeat := Pending(seenRepeat, seenRemembered);
        if |toRepeat| == 0 {
          showComplete := true;
          completions := completions + 1;
          mode := Normal;
          currentIndex := 0;
          repeatList := [];
          rememberedList := [];
          isFlipped := false;
          return;
        }
        currentIndex := toRepeat[0];
        repeatList := toRepeat[1..];
        isFlipped := false;
        return;
      }
      currentIndex := nextIdx;
      isFlipped := false;
    }

    method StartRepetitiveMode()
      modifies this
      ensures State() == StartRepetitive(|cards|, old(State()))
    {
      if |cards| == 0 {
        return;
      }
      mode := Repetitive;
      currentIndex := 0;
      repeatList := [];
      rememberedList := [];
      isFlipped := false;
      showComplete := false;
    }

    /** The "Close" button of the completion dialog. */
    method CloseComplete()
      modifies this
      ensures State() == old(State()).(showComplete := false)
    {
      showComplete := false;
    }
  }
}
