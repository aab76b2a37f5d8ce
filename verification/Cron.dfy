/** The optional value and the result the other modules share. */
module Wrappers {
  datatype Option<+T> = None | Some(value: T)

  datatype Result<+T, +E> = Ok(value: T) | Err(error: E)
}

/**
 Schedule slots: the search for the latest slot a scan covers, and the count of
 the slots it skipped. A parsed cron schedule is known only through Next, "the
 first slot strictly after a time, or none".
 */
module Cron {
  import opened Wrappers

  /** Nanoseconds, the unit of Go's time.Duration. */
  type Time = int

  const SECOND: int := 1_000_000_000

  /** Caps the search for missed slots. */
  const MAX_SLOT_STEPS: nat := 100000

  /** A parsed schedule: the instants it fires at, and the library's Next. */
  datatype CronTable = CronTable(fires: Time -> bool, next: Time -> Option<Time>)

  /** Next is right at t: the first firing instant strictly after t, or none when there is none. */
  ghost predicate NextIsLeast(c: CronTable, t: Time) {
    match c.next(t)
    case Some(n) => t < n && c.fires(n) && forall u :: t < u < n ==> !c.fires(u)
    case None => forall u :: t < u ==> !c.fires(u)
  }

  ghost predicate Lawful(c: CronTable) {
    forall t :: NextIsLeast(c, t)
  }

  type Schedule = c: CronTable | Lawful(c) witness CronTable(_ => false, _ => None)

  /** The slots in the half-open interval (from, to]. */
  ghost function SlotsIn(s: Schedule, from: Time, end: Time): set<Time> {
    set t | from < t <= end && s.fires(t)
  }

  ghost predicate NoSlotIn(s: Schedule, from: Time, end: Time) {
    forall t :: from < t <= end ==> !s.fires(t)
  }

  /** The greatest slot of an interval that has one. */
  ghost function LastSlotIn(s: Schedule, from: Time, end: Time): (m: Time)
    requires !NoSlotIn(s, from, end)
    ensures from < m <= end && s.fires(m) && NoSlotIn(s, m, end)
    decreases end - from
  {
    if s.fires(end) then end else LastSlotIn(s, from, end - 1)
  }

  /** What a search finds: the greatest slot of the interval, or the end of the interval past the cap. */
  ghost function LatestSlot(s: Schedule, from: Time, now: Time): Option<Time> {
    if NoSlotIn(s, from, now) then None
    else if |SlotsIn(s, from, now)| > MAX_SLOT_STEPS then Some(now)
    else Some(LastSlotIn(s, from, now))
  }

  /** Whatever the search finds, it lies in the interval and leaves no slot after it. */
  lemma LatestSlotLeavesNone(s: Schedule, from: Time, now: Time)
    ensures LatestSlot(s, from, now).None? <==> NoSlotIn(s, from, now)
    ensures LatestSlot(s, from, now).Some? ==>
              var t := LatestSlot(s, from, now).value;
              && from < t <= now
              && NoSlotIn(s, t, now)
              && (|SlotsIn(s, from, now)| <= 100_000 ==> s.fires(t))
  {
    if !NoSlotIn(s, from, now) {
      var m := LastSlotIn(s, from, now);
    }
  }

  /** A step of either loop: the next slot extends the interval by exactly itself. */
  lemma NextExtends(s: Schedule, from: Time, at: Time, n: Time)
    requires from <= at && s.next(at) == Some(n)
    ensures at < n && s.fires(n)
    ensures |SlotsIn(s, from, n)| == |SlotsIn(s, from, at)| + 1
  {
    assert NextIsLeast(s, at);
    assert SlotsIn(s, from, n) == SlotsIn(s, from, at) + {n};
  }

  /** The end of either loop: no slot follows `at` up to `end`, so the longer interval holds the same slots. */
  lemma NextPast(s: Schedule, from: Time, at: Time, end: Time)
    requires from <= at <= end
    requires s.next(at).None? || end < s.next(at).value
    ensures NoSlotIn(s, at, end)
    ensures SlotsIn(s, from, end) == SlotsIn(s, from, at)
  {
    assert NextIsLeast(s, at);
  }

  lemma SubsetSize<T>(a: set<T>, b: set<T>)
    requires a <= b
    ensures |a| <= |b|
  {
    assert b == a + (b - a);
  }

  lemma LongerIntervalHoldsMore(s: Schedule, from: Time, at: Time, end: Time)
    requires at <= end
    ensures |SlotsIn(s, from, at)| <= |SlotsIn(s, from, end)|
  {
    SubsetSize(SlotsIn(s, from, at), SlotsIn(s, from, end));
  }

  method LatestSlotAtOrBefore(s: Schedule, from: Time, now: Time) returns (last: Option<Time>)
    ensures last == LatestSlot(s, from, now)
  {
    last := None;
    var t := s.next(from);
    var i := 0;
    ghost var at := from;
    assert SlotsIn(s, from, from) == {};
    while t.Some? && t.value <= now
      invariant 0 <= i <= MAX_SLOT_STEPS
      invariant from <= at && (at == from || at <= now) && t == s.next(at)
      invariant |SlotsIn(s, from, at)| == i
      invariant if i == 0 then last == None && at == from else from < at && last == Some(at) && s.fires(at)
      decreases now - at
    {
      NextExtends(s, from, at, t.value);
      if i >= MAX_SLOT_STEPS {
        LongerIntervalHoldsMore(s, from, t.value, now);
        return Some(now);
      }
      at := t.value;
      last := Some(t.value);
      t := s.next(t.value);
      i := i + 1;
    }
    if at <= now {
      NextPast(s, from, at, now);
    }
  }

  function Min(a: int, b: int): int { if a <= b then a else b }

  function Max(a: int, b: int): int { if a <= b then b else a }

  /** The slots a catch-up skipped: those strictly between two committed times, up to the cap. */
  ghost function Skipped(s: Schedule, from: Time, end: Time): nat {
    Min(|SlotsIn(s, from, end - 1)|, MAX_SLOT_STEPS)
  }

  method SlotsBetween(s: Schedule, from: Time, end: Time) returns (n: nat)
    ensures n == Skipped(s, from, end)
  {
    n := 0;
    var t := s.next(from);
    ghost var at := from;
    assert SlotsIn(s, from, from) == {};
    while t.Some? && t.value < end && n < MAX_SLOT_STEPS
      invariant n <= MAX_SLOT_STEPS
      invariant from <= at && (at == from || at < end) && t == s.next(at)
      invariant |SlotsIn(s, from, at)| == n
      decreases MAX_SLOT_STEPS - n
    {
      NextExtends(s, from, at, t.value);
      at := t.value;
      n := n + 1;
      t := s.next(t.value);
    }
    if at < end {
      LongerIntervalHoldsMore(s, from, at, end - 1);
      if n < MAX_SLOT_STEPS {
        NextPast(s, from, at, end - 1);
      }
    }
  }

  /** The watermark after a run of commits that completed at the given times. */
  ghost function MarkAfter(s: Schedule, mark: Time, completions: seq<Time>): Time
    decreases |completions|
  {
    if completions == [] then mark
    else
      var n := |completions| - 1;
      var m := MarkAfter(s, mark, completions[..n]);
      match LatestSlot(s, m, completions[n])
      case None => m
      case Some(t) => t
  }

  lemma MarkOneMore(s: Schedule, mark: Time, completions: seq<Time>, c: Time)
    ensures MarkAfter(s, mark, completions + [c]) ==
            var m := MarkAfter(s, mark, completions);
            match LatestSlot(s, m, c) case None => m case Some(t) => t
  {
  }

  /** What those commits account for: each that moves the mark covers one slot and the ones it skipped. */
  ghost function Accounted(s: Schedule, mark: Time, completions: seq<Time>): nat
    decreases |completions|
  {
    if completions == [] then 0
    else
      var n := |completions| - 1;
      var m := MarkAfter(s, mark, completions[..n]);
      Accounted(s, mark, completions[..n]) +
      match LatestSlot(s, m, completions[n])
      case None => 0
      case Some(t) => Skipped(s, m, t) + 1
  }

  /** No search of the run hits the step cap. */
  ghost predicate Uncapped(s: Schedule, mark: Time, completions: seq<Time>) {
    forall i :: 0 <= i < |completions| ==>
      |SlotsIn(s, MarkAfter(s, mark, completions[..i]), completions[i])| <= MAX_SLOT_STEPS
  }

  lemma SlotsSplit(s: Schedule, a: Time, b: Time, c: Time)
    requires a <= b <= c
    ensures |SlotsIn(s, a, c)| == |SlotsIn(s, a, b)| + |SlotsIn(s, b, c)|
  {
    assert SlotsIn(s, a, c) == SlotsIn(s, a, b) + SlotsIn(s, b, c);
    assert SlotsIn(s, a, b) !! SlotsIn(s, b, c);
  }

  /** An uncapped catch-up to a slot accounts for exactly the slots it moved over. */
  lemma SkippedPlusOne(s: Schedule, from: Time, slot: Time, end: Time)
    requires from < slot <= end && s.fires(slot)
    requires |SlotsIn(s, from, end)| <= MAX_SLOT_STEPS
    ensures Skipped(s, from, slot) + 1 == |SlotsIn(s, from, slot)|
  {
    SlotsSplit(s, from, slot - 1, slot);
    assert SlotsIn(s, slot - 1, slot) == {slot};
    LongerIntervalHoldsMore(s, from, slot, end);
  }

  /** Every slot between the first and the last mark is accounted for exactly once. */
  lemma {:induction false} EverySlotAccountedOnce(s: Schedule, mark: Time, completions: seq<Time>)
    requires Uncapped(s, mark, completions)
    ensures mark <= MarkAfter(s, mark, completions)
    ensures Accounted(s, mark, completions) == |SlotsIn(s, mark, MarkAfter(s, mark, completions))|
    decreases |completions|
  {
    if completions == [] {
      assert SlotsIn(s, mark, mark) == {};
    } else {
      var n := |completions| - 1;
      var before := completions[..n];
      forall i | 0 <= i < n
        ensures |SlotsIn(s, MarkAfter(s, mark, before[..i]), before[i])| <= MAX_SLOT_STEPS
      {
        assert before[..i] == completions[..i];
      }
      EverySlotAccountedOnce(s, mark, before);
      var m := MarkAfter(s, mark, before);
      var found := LatestSlot(s, m, completions[n]);
      LatestSlotLeavesNone(s, m, completions[n]);
      if found.Some? {
        SlotsSplit(s, mark, m, found.value);
        SkippedPlusOne(s, m, found.value, completions[n]);
      }
    }
  }
}
