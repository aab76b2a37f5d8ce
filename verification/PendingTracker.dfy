/**
 Polling of what waits for an approval: the delay grows with the time waited,
 and an entry is kept only while the resource reports that it waits.
 */
module PendingTracker {
  import opened Wrappers
  import opened Cron

  const RETRY: int := 5 * SECOND
  const MAX_PENDING: int := 300 * SECOND

  datatype Entry = Entry(key: string, since: Time)

  function Doubled(k: nat): int {
    if k == 0 then RETRY else 2 * Doubled(k - 1)
  }

  /** The least number of doublings that covers the time waited. */
  ghost predicate Covers(k: nat, elapsed: int) {
    Doubled(k) >= elapsed && forall j: nat :: j < k ==> Doubled(j) < elapsed
  }

  lemma {:induction false} DoublingGrows(j: nat, k: nat)
    requires j < k
    ensures 2 * Doubled(j) <= Doubled(k) && Doubled(j) >= RETRY
    decreases k
  {
    DoubledIsPositive(j);
    if j + 1 < k {
      DoublingGrows(j, k - 1);
    }
  }

  lemma {:induction false} DoubledIsPositive(k: nat)
    ensures Doubled(k) >= RETRY
  {
    if k > 0 {
      DoubledIsPositive(k - 1);
    }
  }

  function Capped(d: int): int {
    if d < MAX_PENDING then d else MAX_PENDING
  }

  /** The delay of a resource that has waited for so long: the least doubling of 5s that covers it, at most 5m. */
  function DelayAfter(elapsed: int): int {
    DelayFrom(0, elapsed)
  }

  function DelayFrom(k: nat, elapsed: int): int
    decreases MAX_PENDING - Doubled(k)
  {
    if Doubled(k) < elapsed && Doubled(k) < MAX_PENDING then
      DoublingGrows(k, k + 1);
      DelayFrom(k + 1, elapsed)
    else Capped(Doubled(k))
  }

  lemma {:induction false} DelayIsLeastDoubling(k: nat, elapsed: int, least: nat)
    requires Covers(least, elapsed) && k <= least
    ensures DelayFrom(k, elapsed) == Capped(Doubled(least))
    decreases least - k
  {
    if k < least {
      DoublingGrows(k, least);
      if Doubled(k) < MAX_PENDING {
        DelayIsLeastDoubling(k + 1, elapsed, least);
      }
    }
  }

  lemma {:induction false} CoverExists(elapsed: int, k: nat) returns (least: nat)
    requires forall j: nat :: j < k ==> Doubled(j) < elapsed
    ensures k <= least && Covers(least, elapsed)
    decreases elapsed - Doubled(k)
  {
    if Doubled(k) >= elapsed {
      least := k;
    } else {
      DoublingGrows(k, k + 1);
      least := CoverExists(elapsed, k + 1);
    }
  }

  /** Waiting longer never shortens the delay. */
  lemma DelayIsMonotone(e: int, f: int)
    requires e <= f
    ensures RETRY <= DelayAfter(e) <= DelayAfter(f) <= MAX_PENDING
  {
    var m := CoverExists(e, 0);
    var n := CoverExists(f, 0);
    DelayIsLeastDoubling(0, e, m);
    DelayIsLeastDoubling(0, f, n);
    DoubledIsPositive(m);
    if n < m {
      DoublingGrows(n, m);
    } else if m < n {
      DoublingGrows(m, n);
    }
  }

  class Tracker<Name(==)> {
    var entries: map<Name, Entry>

    constructor ()
      ensures entries == map[]
    {
      entries := map[];
    }

    /** A resource that starts waiting, or waits for something else, starts over. */
    method Delay(name: Name, key: string, now: Time) returns (d: int)
      modifies this
      ensures entries == old(entries)[name := Tracked(old(entries), name, key, now)]
      ensures d == DelayAfter(now - entries[name].since)
    {
      var e: Entry;
      if name !in entries || entries[name].key != key {
        e := Entry(key, now);
        entries := entries[name := e];
      } else {
        e := entries[name];
      }
      d := RETRY;
      var elapsed := now - e.since;
      ghost var k: nat := 0;
      while d < elapsed && d < MAX_PENDING
        invariant d == Doubled(k) && DelayAfter(elapsed) == DelayFrom(k, elapsed)
        invariant e == Tracked(old(entries), name, key, now) && entries == old(entries)[name := e]
        decreases MAX_PENDING - d
      {
        DoublingGrows(k, k + 1);
        d := 2 * d;
        k := k + 1;
      }
      assert DelayFrom(k, elapsed) == Capped(d);
      d := Capped(d);
    }

    method Reset(name: Name)
      modifies this
      ensures entries == old(entries) - {name}
    {
      entries := entries - {name};
    }
  }

  function Tracked<Name(==)>(entries: map<Name, Entry>, name: Name, key: string, now: Time): Entry {
    if name in entries && entries[name].key == key then entries[name] else Entry(key, now)
  }

  // ---- Polling at the returned delays ---------------------------------------------

  /** The time waited at a poll, when each poll comes the returned delay after the last. */
  function WaitedAt(poll: nat): int {
    if poll == 0 then 0 else WaitedAt(poll - 1) + DelayAfter(WaitedAt(poll - 1))
  }

  lemma {:induction false} EarlyPolls(poll: nat)
    requires 1 <= poll <= 7
    ensures WaitedAt(poll) == Doubled(poll - 1)
  {
    if poll == 1 {
      assert WaitedAt(0) == 0 && DelayFrom(0, 0) == RETRY;
    } else {
      EarlyPolls(poll - 1);
      CoveredExactly(poll - 2);
    }
  }

  lemma CoveredExactly(k: nat)
    ensures DelayAfter(Doubled(k)) == Capped(Doubled(k))
  {
    forall j: nat | j < k ensures Doubled(j) < Doubled(k) {
      DoublingGrows(j, k);
    }
    DelayIsLeastDoubling(0, Doubled(k), k);
  }

  lemma {:induction false} LatePolls(poll: nat)
    requires poll >= 7
    ensures WaitedAt(poll) >= 320 * SECOND
  {
    if poll == 7 {
      EarlyPolls(7);
      SmallDoublings();
    } else {
      LatePolls(poll - 1);
      DelayIsMonotone(0, WaitedAt(poll - 1));
    }
  }

  lemma SmallDoublings()
    ensures Doubled(1) == 10 * SECOND && Doubled(2) == 20 * SECOND && Doubled(3) == 40 * SECOND
    ensures Doubled(4) == 80 * SECOND && Doubled(5) == 160 * SECOND && Doubled(6) == 320 * SECOND
  {
    assert Doubled(0) == RETRY;
    assert Doubled(1) == 2 * Doubled(0);
    assert Doubled(2) == 2 * Doubled(1);
    assert Doubled(3) == 2 * Doubled(2);
    assert Doubled(4) == 2 * Doubled(3);
    assert Doubled(5) == 2 * Doubled(4);
    assert Doubled(6) == 2 * Doubled(5);
  }

  lemma WaitedDelays(poll: nat)
    ensures DelayAfter(WaitedAt(poll)) ==
            if poll == 0 then RETRY else if poll <= 6 then Doubled(poll - 1) else MAX_PENDING
  {
    SmallDoublings();
    if poll == 0 {
      assert DelayFrom(0, 0) == RETRY;
    } else if poll <= 6 {
      EarlyPolls(poll);
      CoveredExactly(poll - 1);
      if poll < 6 {
        DoublingGrows(poll - 1, 5);
      }
    } else {
      LatePolls(poll);
      CoveredExactly(6);
      DelayIsMonotone(Doubled(6), WaitedAt(poll));
    }
  }

  /** The tracker, the time and the delay after a number of polls, each of them the returned delay after the last. */
  datatype Polled<Name> = Polled(entries: map<Name, Entry>, now: Time, delay: int)

  ghost function PolledAt<Name>(entries: map<Name, Entry>, name: Name, key: string, now: Time): Polled<Name> {
    var after := entries[name := Tracked(entries, name, key, now)];
    Polled(after, now, DelayAfter(now - after[name].since))
  }

  ghost function Polling<Name>(entries: map<Name, Entry>, name: Name, key: string, start: Time, poll: nat): Polled<Name> {
    if poll == 0 then PolledAt(entries, name, key, start)
    else
      var last := Polling(entries, name, key, start, poll - 1);
      PolledAt(last.entries, name, key, last.now + last.delay)
  }

  lemma FirstPoll<Name>(entries: map<Name, Entry>, name: Name, key: string, now: Time)
    requires name !in entries || entries[name].key != key
    ensures PolledAt(entries, name, key, now) == Polled(entries[name := Entry(key, now)], now, DelayAfter(0))
  {
  }

  lemma PollKeeps<Name>(entries: map<Name, Entry>, name: Name, key: string, start: Time, now: Time)
    requires name in entries && entries[name] == Entry(key, start)
    ensures PolledAt(entries, name, key, now) == Polled(entries, now, DelayAfter(now - start))
  {
    assert entries[name := entries[name]] == entries;
  }

  lemma {:induction false} PollingWaits<Name>(entries: map<Name, Entry>, name: Name, key: string, start: Time, poll: nat)
    requires name !in entries || entries[name].key != key
    ensures Polling(entries, name, key, start, poll) ==
            Polled(entries[name := Entry(key, start)], start + WaitedAt(poll), DelayAfter(WaitedAt(poll)))
  {
    if poll == 0 {
      FirstPoll(entries, name, key, start);
    } else {
      var now := start + WaitedAt(poll - 1) + DelayAfter(WaitedAt(poll - 1));
      PollingWaits(entries, name, key, start, poll - 1);
      PollKeeps(entries[name := Entry(key, start)], name, key, start, now);
    }
  }

  /** The delays of the first seven polls, in seconds. */
  const FIRST_DELAYS: seq<int> := [5, 5, 10, 20, 40, 80, 160]

  /**
   A resource that starts waiting, or waits for something else, and is polled at
   the returned delays: it keeps the entry of its first poll, and waits 5, 5, 10,
   20, 40, 80 and 160 seconds, then 5 minutes each time.
   */
  lemma PollDelays<Name>(entries: map<Name, Entry>, name: Name, key: string, start: Time, poll: nat)
    requires name !in entries || entries[name].key != key
    ensures var p := Polling(entries, name, key, start, poll);
            && p.entries == entries[name := Entry(key, start)]
            && p.delay == (if poll < 7 then FIRST_DELAYS[poll] else 300) * SECOND
  {
    PollingWaits(entries, name, key, start, poll);
    WaitedDelays(poll);
    SmallDoublings();
  }
}
