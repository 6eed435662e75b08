/**
 * The persisted shapes that the dashboard, the quiz page and the flash-card
 * component share, and the small sequence and arithmetic helpers that their
 * JavaScript uses (`filter`, `forEach` + `push`, `slice(0, k)`, `Math.round`).
 *
 * Time is an integer number of milliseconds since the epoch (UTC). The first
 * ten characters of an ISO-8601 timestamp, `date.slice(0, 10)`, name its UTC
 * calendar day; here that day is the integer `DayOf(t)`, so two "YYYY-MM-DD"
 * keys are equal exactly when their day numbers are.
 */
module Records {

  datatype Option<T> = None | Some(value: T)

  const MsPerDay: int := 86_400_000

  /**
   * The day key of a timestamp: what `new Date(t).toISOString().slice(0, 10)`
   * names, the UTC day whose 24 hours contain `t`.
   */
  function DayOf(t: int): (d: int)
    ensures d * MsPerDay <= t < d * MsPerDay + MsPerDay
  {
    t / MsPerDay
  }

  /** An entry of the `flashlearn-recent-activity` log. */
  datatype ActivityEntry = ActivityEntry(kind: string, title: string, date: int)

  /** A stored note; `created` is absent on notes saved before timestamps existed. */
  datatype Note = Note(id: string, title: string, content: string, created: Option<int>, pinned: bool)

  /** A stored flash card. */
  datatype StoredFlashcard = StoredFlashcard(id: string, front: string, back: string, created: Option<int>, pinned: bool)

  /** A stored quiz; only the number of its questions is read by the dashboard. */
  datatype StoredQuiz = StoredQuiz(id: string, title: string, questionCount: nat, taken: Option<int>)

  /**
   * The set of day keys of an activity log (`new Set(activity.map(a => a.date.slice(0, 10)))`).
   * A plain definition: its size bound is `DaySetSize`.
   */
  function DaySet(log: seq<ActivityEntry>): set<int>
  {
    set a | a in log :: DayOf(a.date)
  }

  /** There are never more distinct days than log entries. */
  lemma {:induction false} DaySetSize(log: seq<ActivityEntry>)
    ensures |DaySet(log)| <= |log|
  {
    if log != [] {
      var rest := log[1..];
      DaySetSize(rest);
      assert log == [log[0]] + rest;
      assert DaySet(log) == DaySet(rest) + {DayOf(log[0].date)};
    }
  }

  /**
   * `xs.forEach(x => { if (p(x)) out.push(f(x)) })`, or `xs.filter(p)` when
   * `f` is the identity: the images of the elements that pass, in input order.
   */
  function Keep<T, R>(xs: seq<T>, p: T -> bool, f: T -> R): (r: seq<R>)
    ensures |r| <= |xs|
  {
    if xs == [] then []
    else Keep(xs[..|xs| - 1], p, f) + (if p(xs[|xs| - 1]) then [f(xs[|xs| - 1])] else [])
  }

  /** What is kept: the image of every element that passes, and nothing else. */
  lemma {:induction false} KeepMembers<T, R>(xs: seq<T>, p: T -> bool, f: T -> R)
    ensures forall x :: x in xs && p(x) ==> f(x) in Keep(xs, p, f)
    ensures forall y :: y in Keep(xs, p, f) ==> exists x :: x in xs && p(x) && y == f(x)
  {
    if xs != [] {
      var init, last := xs[..|xs| - 1], xs[|xs| - 1];
      assert xs == init + [last];
      KeepMembers(init, p, f);
    }
  }

  /** The `forEach` loop that pushes `f(x)` for every `x` passing `p`. */
  method PushEach<T, R>(xs: seq<T>, p: T -> bool, f: T -> R) returns (out: seq<R>)
    ensures out == Keep(xs, p, f)
  {
    out := [];
    for i := 0 to |xs|
      invariant out == Keep(xs[..i], p, f)
    {
      assert xs[..i + 1] == xs[..i] + [xs[i]];
      KeepSnoc(xs[..i], xs[i], p, f);
      if p(xs[i]) {
        out := out + [f(xs[i])];
      }
    }
    assert xs[..|xs|] == xs;
  }

  /** Keeping one more element: the loop step of `forEach` + `push`. */
  lemma KeepSnoc<T, R>(xs: seq<T>, x: T, p: T -> bool, f: T -> R)
    ensures Keep(xs + [x], p, f) == Keep(xs, p, f) + (if p(x) then [f(x)] else [])
  {
    assert (xs + [x])[..|xs|] == xs;
  }

  /** Keeping distributes over concatenation: the order of the input is the order of the output. */
  lemma {:induction false} KeepAppend<T, R>(a: seq<T>, b: seq<T>, p: T -> bool, f: T -> R)
    ensures Keep(a + b, p, f) == Keep(a, p, f) + Keep(b, p, f)
  {
    if b == [] {
      assert a + b == a;
    } else {
      var init := b[..|b| - 1];
      assert (a + b)[..|a + b| - 1] == a + init;
      assert (a + b)[|a + b| - 1] == b[|b| - 1];
      KeepAppend(a, init, p, f);
    }
  }

  /** When every element passes, keeping is mapping: nothing is dropped and nothing moves. */
  lemma {:induction false} KeepAll<T, R>(xs: seq<T>, p: T -> bool, f: T -> R)
    requires forall x :: x in xs ==> p(x)
    ensures |Keep(xs, p, f)| == |xs|
    ensures forall i :: 0 <= i < |xs| ==> Keep(xs, p, f)[i] == f(xs[i])
  {
    if xs != [] {
      KeepAll(xs[..|xs| - 1], p, f);
    }
  }

  /** `xs.filter(p).length`. */
  function CountIf<T>(xs: seq<T>, p: T -> bool): (c: nat)
    ensures c <= |xs|
    ensures c == 0 <==> forall x :: x in xs ==> !p(x)
    ensures c == |xs| <==> forall x :: x in xs ==> p(x)
  {
    if xs == [] then 0
    else
      var rest := CountIf(xs[1..], p);
      assert xs == [xs[0]] + xs[1..];
      rest + (if p(xs[0]) then 1 else 0)
  }

  /** Counting with a weaker test never counts fewer elements. */
  lemma {:induction false} CountIfMono<T>(xs: seq<T>, p: T -> bool, q: T -> bool)
    requires forall x :: x in xs && p(x) ==> q(x)
    ensures CountIf(xs, p) <= CountIf(xs, q)
  {
    if xs != [] {
      CountIfMono(xs[1..], p, q);
    }
  }

  /** `xs.slice(0, k)`: the first `k` elements, or all of them when there are fewer. */
  function Take<T>(xs: seq<T>, k: nat): (r: seq<T>)
    ensures |r| == if |xs| < k then |xs| else k
    ensures r <= xs
  {
    if |xs| <= k then xs else xs[..k]
  }

  /**
   * `Math.round(p / q)` for a non-negative ratio, computed exactly: the
   * nearest integer, halves rounded up.
   */
  function RoundRatio(p: nat, q: nat): (r: nat)
    requires q > 0
    ensures (2 * r - 1) * q <= 2 * p < (2 * r + 1) * q
  {
    var r := (2 * p + q) / (2 * q);
    DivBounds(2 * p + q, 2 * q);
    r
  }

  lemma DivBounds(a: nat, b: nat)
    requires b > 0
    ensures b * (a / b) <= a < b * (a / b) + b
  {
  }

  /** The rounding is exact on whole ratios: `Math.round(k * q / q) == k`. */
  lemma RoundRatioWhole(k: nat, q: nat)
    requires q > 0
    ensures RoundRatio(k * q, q) == k
  {
    var r := RoundRatio(k * q, q);
    assert (2 * r - 1) * q <= 2 * k * q < (2 * r + 1) * q;
    if r < k {
      MulLe(2 * r + 1, 2 * k, q);
      assert false;
    } else if r > k {
      MulLe(2 * k + 1, 2 * r - 1, q);
      assert false;
    }
  }

  lemma MulLe(a: int, b: int, q: nat)
    requires a <= b
    ensures a * q <= b * q
  {
  }
}
