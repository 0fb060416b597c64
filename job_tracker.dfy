/**
 * The seen-job history tracker (`JobTracker` in job_tracker.py).
 *
 * The history store is three fields of a class: `seenJobs` maps a job
 * fingerprint to the timestamp it was last emitted, `dailyCounts` maps a day
 * to the number of jobs found that day, and `lastCleanup` is the time of the
 * last sweep. Timestamps are integer seconds; the calendar day of a timestamp
 * is `t / 86400`, and the ISO date strings the source uses as keys of
 * `daily_counts` are represented by those day numbers. Every operation that
 * reads the clock takes the current time `now` as a parameter. The MD5 digest
 * is a function `digest` fixed when the tracker is built.
 */
module JobTracking {
  import opened Wrappers
  import opened Text
  import opened Seqs
  import opened Jobs

  const SecondsPerDay: int := 86400

  /** The calendar day containing timestamp `t`. */
  function DayOf(t: int): int
  {
    t / SecondsPerDay
  }

  /** A calendar date, the key of `daily_counts` (an ISO date string in the source). */
  datatype Date = Date(dayNumber: int)

  function DateOf(t: int): Date
  {
    Date(DayOf(t))
  }

  /** The timestamp of the first second of a date (`date + "T00:00:00"`). */
  function Midnight(date: Date): int
  {
    date.dayNumber * SecondsPerDay
  }

  /** The string `generate_job_hash` feeds to MD5. */
  function HashKey(job: Job): string
  {
    HyphenJoin(Normalize(job.title), Normalize(job.company), Normalize(job.location.GetOr("")))
  }

  /** `f"{t}-{c}-{l}"` */
  function HyphenJoin(t: string, c: string, l: string): string
  {
    t + "-" + c + "-" + l
  }

  lemma HyphenJoinInjective(t1: string, c1: string, l1: string, t2: string, c2: string, l2: string)
    requires NoChar(t1, '-') && NoChar(c1, '-') && NoChar(t2, '-') && NoChar(c2, '-')
    requires HyphenJoin(t1, c1, l1) == HyphenJoin(t2, c2, l2)
    ensures t1 == t2 && c1 == c2 && l1 == l2
  {
    assert HyphenJoin(t1, c1, l1) == t1 + ['-'] + (c1 + ['-'] + l1);
    assert HyphenJoin(t2, c2, l2) == t2 + ['-'] + (c2 + ['-'] + l2);
    SeparatedPartsDetermined(t1, c1 + ['-'] + l1, t2, c2 + ['-'] + l2, '-');
    SeparatedPartsDetermined(c1, l1, c2, l2, '-');
  }

  function GenerateJobHash(digest: string -> string, job: Job): string
  {
    digest(HashKey(job))
  }

  function HashOf(digest: string -> string): Job -> string
  {
    job => GenerateJobHash(digest, job)
  }

  // ---------------------------------------------------------------- fingerprints

  /**
   * The fingerprint reads only the lower-cased, stripped title, company and
   * location, and a missing location counts as the empty one.
   */
  lemma HashUsesNormalizedFields(digest: string -> string, a: Job, b: Job)
    requires Normalize(a.title) == Normalize(b.title)
    requires Normalize(a.company) == Normalize(b.company)
    requires Normalize(a.location.GetOr("")) == Normalize(b.location.GetOr(""))
    ensures GenerateJobHash(digest, a) == GenerateJobHash(digest, b)
  {
  }

  lemma MissingLocationIsEmpty(digest: string -> string, job: Job)
    ensures GenerateJobHash(digest, job.(location := None)) == GenerateJobHash(digest, job.(location := Some("")))
  {
  }

  /**
   * When neither title nor company contains a hyphen, the hashed string
   * determines all three normalised fields (so only a digest collision can
   * merge two different jobs).
   */
  lemma HashKeyInjective(a: Job, b: Job)
    requires NoChar(Normalize(a.title), '-') && NoChar(Normalize(a.company), '-')
    requires NoChar(Normalize(b.title), '-') && NoChar(Normalize(b.company), '-')
    requires HashKey(a) == HashKey(b)
    ensures Normalize(a.title) == Normalize(b.title)
    ensures Normalize(a.company) == Normalize(b.company)
    ensures Normalize(a.location.GetOr("")) == Normalize(b.location.GetOr(""))
  {
    HyphenJoinInjective(Normalize(a.title), Normalize(a.company), Normalize(a.location.GetOr("")),
                        Normalize(b.title), Normalize(b.company), Normalize(b.location.GetOr("")));
  }

  // ---------------------------------------------------------------- filter_new_jobs

  /** The stored emission date of `h` is after today minus the threshold. */
  predicate SeenRecently(seen: map<string, int>, h: string, daysThreshold: int, now: int)
  {
    h in seen && DayOf(seen[h]) > DayOf(now) - daysThreshold
  }

  datatype Selection = Selection(emitted: seq<Job>, seen: map<string, int>)

  /** One iteration of the loop of `filter_new_jobs`. */
  function Step(digest: string -> string, prev: Selection, job: Job, daysThreshold: int, now: int): Selection
  {
    var h := GenerateJobHash(digest, job);
    if SeenRecently(prev.seen, h, daysThreshold, now) then prev
    else Selection(prev.emitted + [job], prev.seen[h := now])
  }

  /** The jobs `filter_new_jobs` returns and the store it leaves behind. */
  function Select(digest: string -> string, jobs: seq<Job>, seen: map<string, int>, daysThreshold: int, now: int): Selection
  {
    if jobs == [] then Selection([], seen)
    else Step(digest, Select(digest, jobs[..|jobs| - 1], seen, daysThreshold, now), jobs[|jobs| - 1], daysThreshold, now)
  }

  function FreshIn(digest: string -> string, seen: map<string, int>, daysThreshold: int, now: int): Job -> bool
  {
    job => !SeenRecently(seen, GenerateJobHash(digest, job), daysThreshold, now)
  }

  /** The output is the input with some jobs deleted, in input order. */
  lemma {:induction false} SelectIsSubsequence(digest: string -> string, jobs: seq<Job>, seen: map<string, int>, daysThreshold: int, now: int)
    ensures IsSubsequence(Select(digest, jobs, seen, daysThreshold, now).emitted, jobs)
    decreases |jobs|
  {
    if jobs != [] {
      var init := jobs[..|jobs| - 1];
      var prev := Select(digest, init, seen, daysThreshold, now);
      var r := Select(digest, jobs, seen, daysThreshold, now).emitted;
      SelectIsSubsequence(digest, init, seen, daysThreshold, now);
      if r != prev.emitted {
        assert r[..|r| - 1] == prev.emitted;
      } else if r != [] {
        assert IsSubsequence(r, init);
      }
    }
  }

  function EmittedHashes(digest: string -> string, jobs: seq<Job>, seen: map<string, int>, daysThreshold: int, now: int): set<string>
  {
    KeysOf(Select(digest, jobs, seen, daysThreshold, now).emitted, HashOf(digest))
  }

  /** `seen` with the entries of `stamped` set to `now`. */
  function Stamp(seen: map<string, int>, stamped: set<string>, now: int): map<string, int>
  {
    map h | h in seen.Keys + stamped :: if h in stamped then now else seen[h]
  }

  lemma StampAdd(seen: map<string, int>, stamped: set<string>, h: string, now: int)
    ensures Stamp(seen, stamped, now)[h := now] == Stamp(seen, stamped + {h}, now)
  {
  }

  lemma SelectSnoc(digest: string -> string, init: seq<Job>, x: Job, seen: map<string, int>, daysThreshold: int, now: int)
    ensures Select(digest, init + [x], seen, daysThreshold, now)
         == Step(digest, Select(digest, init, seen, daysThreshold, now), x, daysThreshold, now)
  {
    assert (init + [x])[..|init + [x]| - 1] == init;
  }

  /**
   * The store after the batch: the entries of the emitted jobs' fingerprints
   * are stamped with `now`, and every other entry is left as it was.
   */
  lemma {:induction false} SelectStore(digest: string -> string, jobs: seq<Job>, seen: map<string, int>, daysThreshold: int, now: int)
    ensures Select(digest, jobs, seen, daysThreshold, now).seen
         == Stamp(seen, EmittedHashes(digest, jobs, seen, daysThreshold, now), now)
    decreases |jobs|
  {
    if jobs == [] {
      assert Stamp(seen, {}, now) == seen;
    } else {
      var init, x := jobs[..|jobs| - 1], jobs[|jobs| - 1];
      assert jobs == init + [x];
      SelectStore(digest, init, seen, daysThreshold, now);
      SelectSnoc(digest, init, x, seen, daysThreshold, now);
      var prev := Select(digest, init, seen, daysThreshold, now);
      var h := GenerateJobHash(digest, x);
      if !SeenRecently(prev.seen, h, daysThreshold, now) {
        KeysOfSnoc(prev.emitted, x, HashOf(digest));
        StampAdd(seen, EmittedHashes(digest, init, seen, daysThreshold, now), h, now);
      }
    }
  }

  /** Only fingerprints of the batch are emitted. */
  lemma EmittedHashesInBatch(digest: string -> string, jobs: seq<Job>, seen: map<string, int>, daysThreshold: int, now: int)
    ensures EmittedHashes(digest, jobs, seen, daysThreshold, now) <= KeysOf(jobs, HashOf(digest))
  {
    SelectIsSubsequence(digest, jobs, seen, daysThreshold, now);
    SubsequenceMembers(Select(digest, jobs, seen, daysThreshold, now).emitted, jobs);
  }

  /** Entries for fingerprints outside the batch are never touched. */
  lemma SelectLeavesOthers(digest: string -> string, jobs: seq<Job>, seen: map<string, int>, daysThreshold: int, now: int, h: string)
    requires h !in KeysOf(jobs, HashOf(digest))
    ensures h in Select(digest, jobs, seen, daysThreshold, now).seen <==> h in seen
    ensures h in seen ==> Select(digest, jobs, seen, daysThreshold, now).seen[h] == seen[h]
  {
    SelectStore(digest, jobs, seen, daysThreshold, now);
    EmittedHashesInBatch(digest, jobs, seen, daysThreshold, now);
  }

  /** With a threshold of at least one day, every fingerprint of the batch ends up recent. */
  lemma {:induction false} SelectMarksBatch(digest: string -> string, jobs: seq<Job>, seen: map<string, int>, daysThreshold: int, now: int)
    requires daysThreshold >= 1
    ensures forall h :: h in KeysOf(jobs, HashOf(digest)) ==>
      SeenRecently(Select(digest, jobs, seen, daysThreshold, now).seen, h, daysThreshold, now)
    decreases |jobs|
  {
    if jobs != [] {
      var init, x := jobs[..|jobs| - 1], jobs[|jobs| - 1];
      SelectMarksBatch(digest, init, seen, daysThreshold, now);
      assert jobs == init + [x];
      SelectSnoc(digest, init, x, seen, daysThreshold, now);
      KeysOfSnoc(init, x, HashOf(digest));
    }
  }

  /**
   * With a threshold of at least one day, `filter_new_jobs` emits the first job
   * of every fingerprint of the batch that was not seen recently before the
   * batch: later jobs with the same fingerprint are suppressed because the
   * first one stamped it with `now`.
   */
  lemma {:induction false} SelectClosedForm(digest: string -> string, jobs: seq<Job>, seen: map<string, int>, daysThreshold: int, now: int)
    requires daysThreshold >= 1
    ensures Select(digest, jobs, seen, daysThreshold, now).emitted
         == Filter(KeepFirst(jobs, HashOf(digest)), FreshIn(digest, seen, daysThreshold, now))
    decreases |jobs|
  {
    if jobs != [] {
      var init, x := jobs[..|jobs| - 1], jobs[|jobs| - 1];
      assert jobs == init + [x];
      var h := GenerateJobHash(digest, x);
      var prev := Select(digest, init, seen, daysThreshold, now);
      var firsts := KeepFirst(init, HashOf(digest));
      SelectClosedForm(digest, init, seen, daysThreshold, now);
      SelectSnoc(digest, init, x, seen, daysThreshold, now);
      KeepFirstSnoc(init, x, HashOf(digest));
      if h in KeysOf(init, HashOf(digest)) {
        SelectMarksBatch(digest, init, seen, daysThreshold, now);
        assert Step(digest, prev, x, daysThreshold, now) == prev;
        assert KeepFirst(jobs, HashOf(digest)) == firsts;
      } else {
        SelectLeavesOthers(digest, init, seen, daysThreshold, now, h);
        assert SeenRecently(prev.seen, h, daysThreshold, now) == SeenRecently(seen, h, daysThreshold, now);
        FilterSnoc(firsts, x, FreshIn(digest, seen, daysThreshold, now));
        assert KeepFirst(jobs, HashOf(digest)) == firsts + [x];
      }
    }
  }

  /** With a threshold of at least one day, no two emitted jobs share a fingerprint. */
  lemma EmittedFingerprintsDistinct(digest: string -> string, jobs: seq<Job>, seen: map<string, int>, daysThreshold: int, now: int)
    requires daysThreshold >= 1
    ensures DistinctKeys(Select(digest, jobs, seen, daysThreshold, now).emitted, HashOf(digest))
  {
    SelectClosedForm(digest, jobs, seen, daysThreshold, now);
    KeepFirstProperties(jobs, HashOf(digest));
    FilterDistinctKeys(KeepFirst(jobs, HashOf(digest)), FreshIn(digest, seen, daysThreshold, now), HashOf(digest));
  }

  /** Running the same batch again at the same time emits nothing. */
  lemma RerunEmitsNothing(digest: string -> string, jobs: seq<Job>, seen: map<string, int>, daysThreshold: int, now: int)
    requires daysThreshold >= 1
    ensures var after := Select(digest, jobs, seen, daysThreshold, now).seen;
      Select(digest, jobs, after, daysThreshold, now).emitted == []
  {
    var after := Select(digest, jobs, seen, daysThreshold, now).seen;
    SelectMarksBatch(digest, jobs, seen, daysThreshold, now);
    SelectClosedForm(digest, jobs, after, daysThreshold, now);
    var firsts := KeepFirst(jobs, HashOf(digest));
    KeepFirstProperties(jobs, HashOf(digest));
    forall j | j in firsts
      ensures !FreshIn(digest, after, daysThreshold, now)(j)
    {
      assert GenerateJobHash(digest, j) in KeysOf(jobs, HashOf(digest));
    }
    FilterNone(firsts, FreshIn(digest, after, daysThreshold, now));
  }

  // ---------------------------------------------------------------- cleanup_old_history

  /** The seen entries that survive a sweep with the given cutoff. */
  function SweepSeen(seen: map<string, int>, cutoff: int): (r: map<string, int>)
    ensures forall h :: h in r <==> h in seen && seen[h] >= cutoff
    ensures forall h :: h in r ==> r[h] == seen[h]
  {
    map h | h in seen && seen[h] >= cutoff :: seen[h]
  }

  /** The daily counts that survive a sweep with the given cutoff. */
  function SweepCounts(counts: map<Date, int>, cutoff: int): (r: map<Date, int>)
    ensures forall d :: d in r <==> d in counts && Midnight(d) >= cutoff
    ensures forall d :: d in r ==> r[d] == counts[d]
  {
    map d | d in counts && Midnight(d) >= cutoff :: counts[d]
  }

  /** `now - timedelta(days=days_to_keep)` */
  function Cutoff(now: int, daysToKeep: int): int
  {
    now - daysToKeep * SecondsPerDay
  }

  lemma DayBeforeCutoff(t: int, now: int, daysToKeep: int)
    requires t < Cutoff(now, daysToKeep)
    ensures DayOf(t) <= DayOf(now) - daysToKeep
  {
    assert DayOf(Cutoff(now, daysToKeep)) == DayOf(now) - daysToKeep;
  }

  /**
   * A sweep that keeps at least `daysThreshold` days of history never changes
   * what `filter_new_jobs` emits: every entry it deletes is too old to
   * suppress anything.
   */
  lemma SweepPreservesSelection(digest: string -> string, jobs: seq<Job>, seen: map<string, int>,
                                daysThreshold: int, daysToKeep: int, cutoff: int, now: int)
    requires 1 <= daysThreshold <= daysToKeep
    requires cutoff <= Cutoff(now, daysToKeep)
    ensures Select(digest, jobs, SweepSeen(seen, cutoff), daysThreshold, now).emitted
         == Select(digest, jobs, seen, daysThreshold, now).emitted
  {
    var swept := SweepSeen(seen, cutoff);
    forall h
      ensures SeenRecently(swept, h, daysThreshold, now) == SeenRecently(seen, h, daysThreshold, now)
    {
      if h in seen && h !in swept {
        DayBeforeCutoff(seen[h], now, daysToKeep);
      }
    }
    SelectClosedForm(digest, jobs, swept, daysThreshold, now);
    SelectClosedForm(digest, jobs, seen, daysThreshold, now);
    FilterCongruent(KeepFirst(jobs, HashOf(digest)), FreshIn(digest, swept, daysThreshold, now), FreshIn(digest, seen, daysThreshold, now));
  }

  /** Sweeping twice with the same cutoff is sweeping once, and a sweep never adds entries. */
  lemma SweepIdempotent(seen: map<string, int>, counts: map<Date, int>, cutoff: int)
    ensures SweepSeen(SweepSeen(seen, cutoff), cutoff) == SweepSeen(seen, cutoff)
    ensures SweepCounts(SweepCounts(counts, cutoff), cutoff) == SweepCounts(counts, cutoff)
    ensures SweepSeen(seen, cutoff).Keys <= seen.Keys && |SweepSeen(seen, cutoff)| <= |seen|
  {
    SubsetCardinality(SweepSeen(seen, cutoff).Keys, seen.Keys);
  }

  lemma SubsetCardinality(a: set<string>, b: set<string>)
    requires a <= b
    ensures |a| <= |b|
  {
    assert b == a + (b - a);
  }

  // ---------------------------------------------------------------- daily counts

  /** `daily_counts.get(day, 0)` */
  function CountOn(counts: map<Date, int>, date: Date): int
  {
    if date in counts then counts[date] else 0
  }

  /** The sum of the counts of the `days` dates ending with day `today`. */
  function RecentTotal(counts: map<Date, int>, today: int, days: nat): int
  {
    if days == 0 then 0 else RecentTotal(counts, today, days - 1) + CountOn(counts, Date(today - (days - 1)))
  }

  /** With every stored count between 0 and `most`, the sum over `days` dates lies between 0 and `days * most`. */
  lemma {:induction false} RecentTotalBounds(counts: map<Date, int>, today: int, days: nat, most: nat)
    requires forall d :: d in counts ==> 0 <= counts[d] <= most
    ensures 0 <= RecentTotal(counts, today, days) <= days * most
  {
    if days > 0 {
      RecentTotalBounds(counts, today, days - 1, most);
      var d := Date(today - (days - 1));
      assert 0 <= CountOn(counts, d) <= most;
    }
  }

  /** The average over `days` dates is at most the largest count, and at least 0. */
  lemma AverageBounds(counts: map<Date, int>, today: int, days: nat, most: nat)
    requires days > 0 && forall d :: d in counts ==> 0 <= counts[d] <= most
    ensures 0.0 <= RecentTotal(counts, today, days) as real / days as real <= most as real
  {
    RecentTotalBounds(counts, today, days, most);
  }

  /** Selecting one job more is one more step. */
  lemma SelectExtend(digest: string -> string, jobs: seq<Job>, i: nat, seen: map<string, int>, daysThreshold: int, now: int)
    requires i < |jobs|
    ensures Select(digest, jobs[..i + 1], seen, daysThreshold, now)
      == Step(digest, Select(digest, jobs[..i], seen, daysThreshold, now), jobs[i], daysThreshold, now)
  {
    assert jobs[..i + 1][..i] == jobs[..i];
  }

  datatype Stats = Stats(totalJobsTracked: nat, recentDailyCounts: map<Date, int>, avgDailyJobs: real, lastCleanup: int)

  class JobTracker {
    const digest: string -> string
    var seenJobs: map<string, int>
    var dailyCounts: map<Date, int>
    var lastCleanup: int

    /** The empty store `load_history` builds when there is no history file. */
    constructor (digest: string -> string, now: int)
      ensures this.digest == digest
      ensures seenJobs == map[] && dailyCounts == map[] && lastCleanup == now
    {
      this.digest := digest;
      seenJobs := map[];
      dailyCounts := map[];
      lastCleanup := now;
    }

    method FilterNewJobs(jobs: seq<Job>, daysThreshold: int, now: int) returns (newJobs: seq<Job>)
      modifies this`seenJobs
      ensures Selection(newJobs, seenJobs) == Select(digest, jobs, old(seenJobs), daysThreshold, now)
    {
      newJobs := [];
      var i := 0;
      while i < |jobs|
        invariant 0 <= i <= |jobs|
        invariant Selection(newJobs, seenJobs) == Select(digest, jobs[..i], old(seenJobs), daysThreshold, now)
      {
        var job := jobs[i];
        var jobHash := GenerateJobHash(digest, job);
        SelectExtend(digest, jobs, i, old(seenJobs), daysThreshold, now);
        if jobHash in seenJobs && DayOf(seenJobs[jobHash]) > DayOf(now) - daysThreshold {
          // seen recently: skip
        } else {
          newJobs := newJobs + [job];
          seenJobs := seenJobs[jobHash := now];
        }
        i := i + 1;
      }
      assert jobs[..i] == jobs;
    }

    method RecordDailyCount(jobCount: int, now: int)
      modifies this`dailyCounts
      ensures dailyCounts == old(dailyCounts)[DateOf(now) := jobCount]
    {
      dailyCounts := dailyCounts[DateOf(now) := jobCount];
    }

    method GetRecentDailyCounts(days: int, now: int) returns (recent: map<Date, int>)
      ensures forall d :: d in recent <==> DayOf(now) - days < d.dayNumber <= DayOf(now)
      ensures forall d :: d in recent ==> recent[d] == CountOn(dailyCounts, d)
      ensures |recent| == if days > 0 then days else 0
    {
      recent := map[];
      var today := DayOf(now);
      var i := 0;
      while i < days
        invariant 0 <= i <= (if days > 0 then days else 0)
        invariant forall d :: d in recent <==> today - i < d.dayNumber <= today
        invariant forall d :: d in recent ==> recent[d] == CountOn(dailyCounts, d)
        invariant |recent| == i
      {
        var date := Date(today - i);
        assert date !in recent;
        recent := recent[date := CountOn(dailyCounts, date)];
        i := i + 1;
      }
      assert i == if days > 0 then days else 0;
    }

    /**
     * `cleanup_old_history`. The clock is read twice: `now` for the cutoff
     * and `finishedAt` for `last_cleanup`.
     */
    method CleanupOldHistory(daysToKeep: int, now: int, finishedAt: int)
      modifies this`seenJobs, this`dailyCounts, this`lastCleanup
      ensures seenJobs == SweepSeen(old(seenJobs), Cutoff(now, daysToKeep))
      ensures dailyCounts == SweepCounts(old(dailyCounts), Cutoff(now, daysToKeep))
      ensures lastCleanup == finishedAt
    {
      var cutoff := Cutoff(now, daysToKeep);
      RemoveSeenBefore(cutoff);
      RemoveCountsBefore(cutoff);
      lastCleanup := finishedAt;
    }

    /** The `seen_jobs` half of `cleanup_old_history`: collect the old fingerprints, then delete them. */
    method RemoveSeenBefore(cutoff: int)
      modifies this`seenJobs
      ensures seenJobs == SweepSeen(old(seenJobs), cutoff)
    {
      var jobsToRemove: set<string> := {};
      var pending := seenJobs.Keys;
      while pending != {}
        invariant pending <= seenJobs.Keys && seenJobs == old(seenJobs)
        invariant forall h :: h in jobsToRemove <==> h in seenJobs && h !in pending && seenJobs[h] < cutoff
        decreases |pending|
      {
        var h :| h in pending;
        if seenJobs[h] < cutoff {
          jobsToRemove := jobsToRemove + {h};
        }
        pending := pending - {h};
      }
      var doomed := jobsToRemove;
      while doomed != {}
        invariant doomed <= jobsToRemove
        invariant seenJobs == old(seenJobs) - (jobsToRemove - doomed)
        decreases |doomed|
      {
        var h :| h in doomed;
        seenJobs := seenJobs - {h};
        doomed := doomed - {h};
      }
    }

    /** The `daily_counts` half of `cleanup_old_history`: dates whose midnight is before the cutoff go. */
    method RemoveCountsBefore(cutoff: int)
      modifies this`dailyCounts
      ensures dailyCounts == SweepCounts(old(dailyCounts), cutoff)
    {
      var datesToRemove: set<Date> := {};
      var pending := dailyCounts.Keys;
      while pending != {}
        invariant pending <= dailyCounts.Keys && dailyCounts == old(dailyCounts)
        invariant forall d :: d in datesToRemove <==> d in dailyCounts && d !in pending && Midnight(d) < cutoff
        decreases |pending|
      {
        var d :| d in pending;
        if Midnight(d) < cutoff {
          datesToRemove := datesToRemove + {d};
        }
        pending := pending - {d};
      }
      var doomed := datesToRemove;
      while doomed != {}
        invariant doomed <= datesToRemove
        invariant dailyCounts == old(dailyCounts) - (datesToRemove - doomed)
        decreases |doomed|
      {
        var d :| d in doomed;
        dailyCounts := dailyCounts - {d};
        doomed := doomed - {d};
      }
    }

    method GetStats(now: int) returns (stats: Stats)
      ensures stats.totalJobsTracked == |seenJobs|
      ensures forall d :: d in stats.recentDailyCounts <==> DayOf(now) - 7 < d.dayNumber <= DayOf(now)
      ensures forall d :: d in stats.recentDailyCounts ==> stats.recentDailyCounts[d] == CountOn(dailyCounts, d)
      ensures stats.avgDailyJobs == RecentTotal(dailyCounts, DayOf(now), 7) as real / 7.0
      ensures stats.lastCleanup == lastCleanup
    {
      var recent := GetRecentDailyCounts(7, now);
      var today := DayOf(now);
      var total := 0;
      for i := 0 to 7
        invariant total == RecentTotal(dailyCounts, today, i)
      {
        var d := Date(today - i);
        assert d in recent;
        total := total + recent[d];
      }
      stats := Stats(|seenJobs|, recent, total as real / 7.0, lastCleanup);
    }
  }
}
