/**
 * The debounced forward/backward decision of src/Control.cpp (backwards_select).
 *
 * The hardware timer `backwards_timer` is modelled as the clock reading at its last
 * reset, so that its `read_ms()` is the current clock reading minus that value.
 */
module BackwardsDebounce {
  import opened ControlTypes

  /** The stored decision and the clock reading (ms) at which the debounce timer was last reset. */
  datatype Debouncer = Debouncer(backwards: bool, timerStartMs: int)

  /** The undebounced wish: drive backwards when the goal heading is more than PI/2 away. */
  predicate WantsBackwards(m: Math, targetTheta: real, theta: real)
  {
    Abs(m.wrap(targetTheta - theta)) > PI / 2.0
  }

  /**
   * One call of the selector at clock reading `nowMs`: within 50 ms of the last reset
   * nothing changes; after that the decision follows the wish, and the timer is reset
   * exactly when the stored decision flips.
   */
  function Select(d: Debouncer, wanted: bool, nowMs: int): (r: Debouncer)
    ensures nowMs - d.timerStartMs <= BACKWARDS_DEBOUNCE_MS ==> r == d
    ensures nowMs - d.timerStartMs > BACKWARDS_DEBOUNCE_MS ==> r.backwards == wanted
    ensures r.timerStartMs == if r.backwards != d.backwards then nowMs else d.timerStartMs
  {
    if nowMs - d.timerStartMs > BACKWARDS_DEBOUNCE_MS then
      Debouncer(wanted, if d.backwards != wanted then nowMs else d.timerStartMs)
    else
      d
  }

  /** One call of the selector: the wish it is asked about and the clock reading. */
  datatype Sample = Sample(wanted: bool, nowMs: int)

  /** The selector's state after the given calls, in order. */
  function After(d: Debouncer, samples: seq<Sample>): (r: Debouncer)
    decreases |samples|
  {
    if samples == [] then d
    else
      var last := samples[|samples| - 1];
      Select(After(d, samples[..|samples| - 1]), last.wanted, last.nowMs)
  }

  /** Whether the i-th call flipped the stored decision. */
  predicate FlipsAt(d: Debouncer, samples: seq<Sample>, i: nat)
    requires i < |samples|
  {
    After(d, samples[..i]).backwards != After(d, samples[..i + 1]).backwards
  }

  /** The state after the first n + 1 calls is the (n+1)-th call applied to the state after n. */
  lemma AfterStep(d: Debouncer, samples: seq<Sample>, n: nat)
    requires n < |samples|
    ensures After(d, samples[..n + 1]) == Select(After(d, samples[..n]), samples[n].wanted, samples[n].nowMs)
  {
    assert samples[..n + 1][..n] == samples[..n];
  }

  /** Until the next flip, the timer holds the clock reading of the last flip. */
  lemma {:induction false} TimerMarksLastFlip(d: Debouncer, samples: seq<Sample>, i: nat, n: nat)
    requires i < n <= |samples|
    requires FlipsAt(d, samples, i)
    requires forall k :: i < k < n ==> !FlipsAt(d, samples, k)
    ensures After(d, samples[..n]).timerStartMs == samples[i].nowMs
    decreases n
  {
    AfterStep(d, samples, n - 1);
    if n - 1 > i {
      TimerMarksLastFlip(d, samples, i, n - 1);
      assert !FlipsAt(d, samples, n - 1);
    }
  }

  /** Two consecutive flips of the decision are more than 50 ms apart. */
  lemma {:induction false} ConsecutiveFlipsAreSpaced(d: Debouncer, samples: seq<Sample>, i: nat, j: nat)
    requires i < j < |samples|
    requires FlipsAt(d, samples, i) && FlipsAt(d, samples, j)
    requires forall k :: i < k < j ==> !FlipsAt(d, samples, k)
    ensures samples[j].nowMs - samples[i].nowMs > BACKWARDS_DEBOUNCE_MS
  {
    TimerMarksLastFlip(d, samples, i, j);
    AfterStep(d, samples, j);
  }

  /**
   * With a clock that never goes back, any two flips are more than 50 ms apart: wishes
   * that alternate faster than that are seen as a single flip.
   */
  lemma {:induction false} FlipsAreSpaced(d: Debouncer, samples: seq<Sample>, i: nat, j: nat)
    requires i < j < |samples|
    requires forall a, b :: 0 <= a <= b < |samples| ==> samples[a].nowMs <= samples[b].nowMs
    requires FlipsAt(d, samples, i) && FlipsAt(d, samples, j)
    ensures samples[j].nowMs - samples[i].nowMs > BACKWARDS_DEBOUNCE_MS
    decreases j - i
  {
    if k :| i < k < j && FlipsAt(d, samples, k) {
      FlipsAreSpaced(d, samples, k, j);
    } else {
      ConsecutiveFlipsAreSpaced(d, samples, i, j);
    }
  }

  /** A wish held for more than 50 ms after the last reset is always honoured by the next call. */
  lemma SettlesAfterDebounce(d: Debouncer, samples: seq<Sample>, n: nat)
    requires n < |samples|
    requires samples[n].nowMs - After(d, samples[..n]).timerStartMs > BACKWARDS_DEBOUNCE_MS
    ensures After(d, samples[..n + 1]).backwards == samples[n].wanted
  {
    AfterStep(d, samples, n);
  }
}
