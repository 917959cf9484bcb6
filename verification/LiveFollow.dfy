/** Following live console views (src/metaproc/commands/gcp.py, `_print_live_logs`): per-job cursors and
    failure counters, and the order of the two reads that makes the last one complete. */
module LiveFollow {
  import opened Common

  const MAX_CONSECUTIVE_ERRORS := 10

  /** What a poll reads of a job's Batch state, and of its live view. */
  datatype Batch = Unknown | Going | Ended
  datatype View = BadRead | Unsupported | Snapshot(lines: nat, exited: bool, tail: nat)

  datatype Counters = Counters(total: nat, failures: nat, viewFailures: nat)

  datatype Outcome = Follow | Exited | EndedWithoutExit | Stop

  /** `shown` lines are printed and `missed` ones reported as missing from the bounded tail. */
  datatype Polled = Polled(outcome: Outcome, counters: Counters, shown: nat, missed: nat)

  /** `new_tail_lines`: how many of the new lines the tail still has. */
  function NewLines(tail: nat, previous: nat, total: nat): (nat, nat)
    requires previous < total
  {
    if total - previous <= tail then (total - previous, 0) else (tail, total - previous - tail)
  }

  /** One poll of one job. */
  function PollJob(c: Counters, batch: Batch, view: View): Polled {
    var failures := if batch.Unknown? then c.failures + 1 else 0;
    match view
    case Unsupported => Polled(Stop, c.(failures := failures), 0, 0)
    case BadRead =>
      var c' := Counters(c.total, failures, c.viewFailures + 1);
      Polled(if c'.viewFailures >= MAX_CONSECUTIVE_ERRORS then Stop else Follow, c', 0, 0)
    case Snapshot(lines, exited, tail) =>
      var c' := Counters(if lines > c.total then lines else c.total, failures, 0);
      var (shown, missed) := if lines > c.total then NewLines(tail, c.total, lines) else (0, 0);
      Polled(if exited then Exited
             else if batch.Ended? then EndedWithoutExit
             else if failures >= MAX_CONSECUTIVE_ERRORS then Stop
             else Follow, c', shown, missed)
  }

  /** What a poll does: a recorded exit ends the follow of a job whatever Batch says, Batch's end does only without one,
      and the follow stops on a tenth failure in a row; each new line is shown, or missing because the tail is too
      short. */
  lemma {:induction false} PollExactly(c: Counters, batch: Batch, view: View)
    ensures var r := PollJob(c, batch, view);
      && (r.outcome.Exited? <==> view.Snapshot? && view.exited)
      && (r.outcome.EndedWithoutExit? <==> view.Snapshot? && !view.exited && batch.Ended?)
      && (r.outcome.Stop? <==>
            || view.Unsupported?
            || (view.BadRead? && c.viewFailures >= 9)
            || (view.Snapshot? && !view.exited && batch.Unknown? && c.failures >= 9))
      && (view.Snapshot? ==>
            && r.shown + r.missed == r.counters.total - c.total
            && r.counters.total == (if c.total < view.lines then view.lines else c.total)
            && r.shown <= view.tail && (r.missed > 0 ==> r.shown == view.tail)
            && r.counters.viewFailures == 0)
      && (!view.Snapshot? ==> r.shown == r.missed == 0 && r.counters.total == c.total)
      && (view.BadRead? ==> r.counters.viewFailures == c.viewFailures + 1)
      && (r.counters.failures == if batch.Unknown? then c.failures + 1 else 0)
  {
  }

  // ----- the follow, with its dictionaries

  class LiveFollow {
    var totals: map<string, nat>
    var failures: map<string, nat>
    var viewFailures: map<string, nat>
    var active: seq<string>
    var everyExitRecorded: bool

    /** A job without an entry has not failed yet. */
    function CountersOf(job: string): Counters
      requires job in totals
      reads this
    {
      Counters(totals[job], if job in failures then failures[job] else 0,
               if job in viewFailures then viewFailures[job] else 0)
    }

    ghost predicate Valid()
      reads this
    {
      (forall job | job in active :: job in totals) && Unique(active)
    }

    constructor (totals: map<string, nat>, viewFailures: map<string, nat>, active: seq<string>, recorded: bool)
      requires (forall job | job in active :: job in totals) && Unique(active)
      ensures Valid() && this.active == active && this.totals == totals && this.viewFailures == viewFailures
      ensures everyExitRecorded == recorded
      ensures forall job | job in totals ::
        CountersOf(job) == Counters(totals[job], 0, if job in viewFailures then viewFailures[job] else 0)
    {
      this.totals, this.failures, this.viewFailures := totals, map[], viewFailures;
      this.active, this.everyExitRecorded := active, recorded;
    }

    /** The poll of one job changes the dictionary entries of that job only. */
    method PollOne(job: string, batch: Batch, view: View) returns (outcome: Outcome)
      requires job in totals
      modifies this`totals, this`failures, this`viewFailures, this`everyExitRecorded
      ensures outcome == PollJob(old(CountersOf(job)), batch, view).outcome
      ensures totals.Keys == old(totals.Keys)
      ensures CountersOf(job) == PollJob(old(CountersOf(job)), batch, view).counters
      ensures forall other | other in totals && other != job :: CountersOf(other) == old(CountersOf(other))
      ensures everyExitRecorded == (old(everyExitRecorded) && !outcome.EndedWithoutExit?)
    {
      failures := failures[job := if !batch.Unknown? then 0 else CountersOf(job).failures + 1];
      match view
      case Unsupported => return Stop;
      case BadRead =>
        viewFailures := viewFailures[job := CountersOf(job).viewFailures + 1];
        return if viewFailures[job] >= MAX_CONSECUTIVE_ERRORS then Stop else Follow;
      case Snapshot(lines, exited, tail) =>
        viewFailures := viewFailures[job := 0];
        if lines > totals[job] {
          totals := totals[job := lines];
        }
        if exited { return Exited; }
        if batch.Ended? {
          everyExitRecorded := false;
          return EndedWithoutExit;
        }
        return if failures[job] >= MAX_CONSECUTIVE_ERRORS then Stop else Follow;
    }

    method ReadAndPoll(job: string, answers: Answers) returns (outcome: Outcome)
      requires job in totals
      modifies this`totals, this`failures, this`viewFailures, this`everyExitRecorded
      ensures outcome == Polls(old(Counts()), answers, job).outcome
      ensures Counts() == old(Counts())[job := Polls(old(Counts()), answers, job).counters]
      ensures everyExitRecorded == (old(everyExitRecorded) && !outcome.EndedWithoutExit?)
    {
      hide PollJob;
      var (batch, view) := answers(job);
      outcome := PollOne(job, batch, view);
    }

    /** One round over the active jobs; `answers` are the two reads of each job.  It stops with an error if
        and only if the poll of some job does; else each job's counters are those of its own poll, and
        the jobs whose poll says so stay active. */
    method Round(answers: Answers) returns (stopped: bool)
      requires Valid()
      modifies this
      ensures stopped <==> StopsIn(old(Counts()), answers, old(active))
      ensures !stopped ==> Valid()
      ensures !stopped ==> Counts() == Advanced(old(Counts()), answers, old(active))
      ensures !stopped ==> active == Survivors(old(Counts()), answers, old(active))
      ensures !stopped ==>
        (everyExitRecorded <==> old(everyExitRecorded) && ExitsRecorded(old(Counts()), answers, old(active)))
    {
      hide Advanced, Survivors, StopsIn, ExitsRecorded, Polls, PolledSoFar;
      var still: seq<string> := [];
      ghost var before := Counts();
      ghost var recorded := everyExitRecorded;
      NonePolled(before, answers, active, recorded);
      for k := 0 to |active|
        invariant active == old(active) && Valid() && Counts().Keys == before.Keys
        invariant PolledSoFar(before, answers, active[..k], recorded, Counts(), still, everyExitRecorded)
      {
        var job := active[k];
        PolledNext(before, answers, active, k, recorded, Counts(), still, everyExitRecorded);
        var outcome := ReadAndPoll(job, answers);
        if outcome.Stop? {
          StopsLater(before, answers, active, k);
          return true;
        }
        if outcome.Follow? { still := still + [job]; }
      }
      assert active[..|active|] == active;
      AllPolled(before, answers, active, recorded, Counts(), still, everyExitRecorded);
      active := still;
      stopped := false;
    }

    /** The counters of all jobs. */
    ghost function Counts(): (m: map<string, Counters>)
      reads this
      ensures m.Keys == totals.Keys
    {
      map job | job in totals :: CountersOf(job)
    }
  }

  type Answers = string -> (Batch, View)

  ghost function Polls(counts: map<string, Counters>, answers: Answers, job: string): Polled {
    PollJob(if job in counts then counts[job] else Counters(0, 0, 0), answers(job).0, answers(job).1)
  }

  /** The counters after the polls of some jobs. */
  ghost function Advanced(counts: map<string, Counters>, answers: Answers, polled: seq<string>):
      map<string, Counters> {
    map job | job in counts :: if job in polled then Polls(counts, answers, job).counters else counts[job]
  }

  ghost predicate StopsIn(counts: map<string, Counters>, answers: Answers, polled: seq<string>) {
    exists k | 0 <= k < |polled| :: Polls(counts, answers, polled[k]).outcome.Stop?
  }

  /** No job was given up because Batch ended it without a recorded exit. */
  ghost predicate ExitsRecorded(counts: map<string, Counters>, answers: Answers, polled: seq<string>) {
    forall k | 0 <= k < |polled| :: !Polls(counts, answers, polled[k]).outcome.EndedWithoutExit?
  }

  /** The polled jobs that stay active, in order. */
  ghost function Survivors(counts: map<string, Counters>, answers: Answers, polled: seq<string>): seq<string>
    decreases |polled|
  {
    if polled == [] then []
    else
      var job := polled[|polled| - 1];
      Survivors(counts, answers, polled[..|polled| - 1])
      + (if Polls(counts, answers, job).outcome.Follow? then [job] else [])
  }

  /** What a round has done after some of its polls. */
  ghost predicate PolledSoFar(before: map<string, Counters>, answers: Answers, polled: seq<string>, recorded: bool,
                              counts: map<string, Counters>, still: seq<string>, recordedNow: bool) {
    && !StopsIn(before, answers, polled)
    && counts == Advanced(before, answers, polled)
    && still == Survivors(before, answers, polled)
    && recordedNow == (recorded && ExitsRecorded(before, answers, polled))
  }

  lemma {:induction false} NonePolled(before: map<string, Counters>, answers: Answers, active: seq<string>,
                                      recorded: bool)
    ensures PolledSoFar(before, answers, active[..0], recorded, before, [], recorded)
  {
    assert Advanced(before, answers, []) == before;
  }

  /** The poll of the next job, started from the counters so far, is its poll from the counters before the round. */
  lemma {:induction false} PolledNext(before: map<string, Counters>, answers: Answers, active: seq<string>, k: nat,
                                      recorded: bool, counts: map<string, Counters>, still: seq<string>,
                                      recordedNow: bool)
    requires k < |active| && Unique(active) && forall job | job in active :: job in before
    requires PolledSoFar(before, answers, active[..k], recorded, counts, still, recordedNow)
    ensures var job := active[k]; var r := Polls(counts, answers, job);
      && r == Polls(before, answers, job)
      && (!r.outcome.Stop? ==>
            PolledSoFar(before, answers, active[..k + 1], recorded, counts[job := r.counters],
                        if r.outcome.Follow? then still + [job] else still,
                        recordedNow && !r.outcome.EndedWithoutExit?))
  {
    hide PollJob;
    var job := active[k];
    var r := Polls(before, answers, job);
    assert active[..k + 1] == active[..k] + [job] && job !in active[..k];
    assert active[..k + 1][..k] == active[..k];
    assert counts[job] == before[job];
    if !r.outcome.Stop? {
      assert counts[job := r.counters] == Advanced(before, answers, active[..k + 1]);
      assert !StopsIn(before, answers, active[..k + 1]);
    }
  }

  lemma {:induction false} AllPolled(before: map<string, Counters>, answers: Answers, active: seq<string>,
                                     recorded: bool, counts: map<string, Counters>, still: seq<string>,
                                     recordedNow: bool)
    requires Unique(active) && PolledSoFar(before, answers, active, recorded, counts, still, recordedNow)
    ensures !StopsIn(before, answers, active) && counts == Advanced(before, answers, active)
    ensures still == Survivors(before, answers, active) && Unique(still) && forall job | job in still :: job in active
    ensures recordedNow == (recorded && ExitsRecorded(before, answers, active))
  {
    SurvivorsUnique(before, answers, active);
  }

  lemma {:induction false} StopsLater(counts: map<string, Counters>, answers: Answers, active: seq<string>, k: nat)
    requires k < |active| && Polls(counts, answers, active[k]).outcome.Stop?
    ensures StopsIn(counts, answers, active)
  {
  }

  lemma {:induction false} SurvivorsUnique(counts: map<string, Counters>, answers: Answers, polled: seq<string>)
    requires Unique(polled)
    ensures Unique(Survivors(counts, answers, polled))
    ensures forall job | job in Survivors(counts, answers, polled) :: job in polled
    decreases |polled|
  {
    if polled != [] {
      var n := |polled| - 1;
      SurvivorsUnique(counts, answers, polled[..n]);
      assert polled[n] !in polled[..n];
      assert forall job | job in polled[..n] :: job in polled;
    }
  }

  // ----- one job over time

  /** What there is to read at a moment: the published lines, the recorded exit, and Batch's own state. */
  datatype Moment = Moment(lines: nat, exited: bool, ended: bool)

  /** Lines are only added; Batch ends a job after the last update of its view. */
  ghost predicate History(h: seq<Moment>) {
    && (forall i, j | 0 <= i <= j < |h| :: h[i].lines <= h[j].lines && (h[i].ended ==> h[j].ended))
    && (forall i, j | 0 <= i <= j < |h| && h[i].ended :: h[j].lines == h[i].lines && h[j].exited == h[i].exited)
  }

  /** A poll reads the Batch state at one moment and the view at another; either read can fail. */
  datatype Poll = Poll(batchAt: nat, viewAt: nat, batchFails: bool, viewFails: bool, tail: nat)

  function BatchRead(h: seq<Moment>, p: Poll): Batch
    requires p.batchAt < |h|
  {
    if p.batchFails then Unknown else if h[p.batchAt].ended then Ended else Going
  }

  function ViewRead(h: seq<Moment>, p: Poll): View
    requires p.viewAt < |h|
  {
    if p.viewFails then BadRead else Snapshot(h[p.viewAt].lines, h[p.viewAt].exited, p.tail)
  }

  /** The Batch state is read before the view, and polls follow one another. */
  ghost predicate InOrder(h: seq<Moment>, polls: seq<Poll>) {
    && (forall k | 0 <= k < |polls| :: polls[k].batchAt <= polls[k].viewAt < |h|)
    && (forall k | 0 < k < |polls| :: polls[k - 1].viewAt <= polls[k].batchAt)
  }

  /** A follow of one job: its state after some polls, and the lines shown and reported missing. */
  datatype Progress = Progress(last: Outcome, counters: Counters, shown: nat, missed: nat)

  function After(h: seq<Moment>, c: Counters, polls: seq<Poll>): Progress
    requires forall k | 0 <= k < |polls| :: polls[k].batchAt < |h| && polls[k].viewAt < |h|
    decreases |polls|
  {
    if polls == [] then Progress(Follow, c, 0, 0)
    else
      var n := |polls| - 1;
      var before := After(h, c, polls[..n]);
      if !before.last.Follow? then before
      else
        var r := PollJob(before.counters, BatchRead(h, polls[n]), ViewRead(h, polls[n]));
        Progress(r.outcome, r.counters, before.shown + r.shown, before.missed + r.missed)
  }

  /** The cursor only moves forward, never past the published lines, and each line it passes has been
      shown or reported missing. */
  lemma {:induction false} CursorAccounts(h: seq<Moment>, c: Counters, polls: seq<Poll>)
    requires History(h) && InOrder(h, polls) && |h| > 0 && c.total <= h[0].lines
    ensures var p := After(h, c, polls);
      && p.counters.total == c.total + p.shown + p.missed
      && p.counters.total <= if polls == [] then h[0].lines else h[polls[|polls| - 1].viewAt].lines
    decreases |polls|
  {
    if polls != [] {
      CursorAccounts(h, c, polls[..|polls| - 1]);
    }
  }

  /** A follow that Batch's end stops has read everything: its cursor is the final line count, and all
      lines past the first cursor have been shown or reported missing. */
  lemma {:induction false} DrainOnEnd(h: seq<Moment>, c: Counters, polls: seq<Poll>)
    requires History(h) && InOrder(h, polls) && |h| > 0 && c.total <= h[0].lines
    requires polls != [] && After(h, c, polls[..|polls| - 1]).last.Follow? && After(h, c, polls).last.EndedWithoutExit?
    ensures var final := h[|h| - 1].lines;
      && After(h, c, polls).counters.total == final
      && After(h, c, polls).shown + After(h, c, polls).missed == final - c.total
  {
    CursorAccounts(h, c, polls);
    CursorAccounts(h, c, polls[..|polls| - 1]);
    var p := polls[|polls| - 1];
    assert h[p.batchAt].ended;
    assert h[p.viewAt].lines == h[p.batchAt].lines == h[|h| - 1].lines;
  }

  /** With the Batch state read at moment `b` and the view at moment `v`, a job dropped because Batch ended it has been
      read to its last line. */
  ghost predicate Drains(b: nat, v: nat) {
    forall h: seq<Moment>, c: Counters, tail: nat | History(h) && b < |h| && v < |h| && c.total <= h[0].lines ::
      DrainedBy(h, c, Poll(b, v, false, false, tail))
  }

  ghost predicate DrainedBy(h: seq<Moment>, c: Counters, p: Poll)
    requires p.batchAt < |h| && p.viewAt < |h|
  {
    var r := PollJob(c, BatchRead(h, p), ViewRead(h, p));
    r.outcome.EndedWithoutExit? ==> r.counters.total == h[|h| - 1].lines
  }

  /** A job that writes one line and ends at moment `n`. */
  function EndsAt(n: nat): (h: seq<Moment>)
    ensures |h| == n + 1 && h[n] == Moment(1, false, true)
    ensures forall k | 0 <= k < n :: h[k] == Moment(0, false, false)
  {
    if n == 0 then [Moment(1, false, true)] else [Moment(0, false, false)] + EndsAt(n - 1)
  }

  /** The order of the two reads is what the guarantee hangs on: it holds if and only if the Batch state is not read
      after the view. */
  lemma {:induction false} ReadOrderExact(b: nat, v: nat)
    ensures Drains(b, v) <==> b <= v
  {
    if b <= v {
      forall h: seq<Moment>, c: Counters, tail: nat | History(h) && b < |h| && v < |h| && c.total <= h[0].lines
        ensures DrainedBy(h, c, Poll(b, v, false, false, tail))
      {
        if h[b].ended { assert h[v].lines == h[b].lines == h[|h| - 1].lines; }
      }
    } else {
      var h := EndsAt(b);
      assert History(h);
      assert !DrainedBy(h, Counters(0, 0, 0), Poll(b, v, false, false, 0));
    }
  }

  /** The view reads of the last polls all failed. */
  ghost predicate TrailingFailures(polls: seq<Poll>, n: nat)
    requires n <= |polls|
  {
    forall k | |polls| - n <= k < |polls| :: polls[k].viewFails
  }

  lemma {:induction false} FailuresCounted(h: seq<Moment>, c: Counters, polls: seq<Poll>, n: nat)
    requires (forall k | 0 <= k < |polls| :: polls[k].batchAt < |h| && polls[k].viewAt < |h|)
    requires n <= |polls| && TrailingFailures(polls, n) && After(h, c, polls).last.Follow?
    ensures After(h, c, polls).counters.viewFailures >= n
    ensures polls != [] ==> After(h, c, polls).counters.viewFailures < MAX_CONSECUTIVE_ERRORS
    decreases |polls|
  {
    if n > 0 {
      assert TrailingFailures(polls[..|polls| - 1], n - 1);
      FailuresCounted(h, c, polls[..|polls| - 1], n - 1);
    }
  }

  /** No job is followed through as many consecutive failed view reads as the limit. */
  lemma {:induction false} FailuresStop(h: seq<Moment>, c: Counters, polls: seq<Poll>)
    requires (forall k | 0 <= k < |polls| :: polls[k].batchAt < |h| && polls[k].viewAt < |h|)
    requires |polls| >= 10 && TrailingFailures(polls, 10)
    ensures !After(h, c, polls).last.Follow?
  {
    if After(h, c, polls).last.Follow? {
      FailuresCounted(h, c, polls, MAX_CONSECUTIVE_ERRORS);
    }
  }

  // ----- failed reads of the Batch state

  ghost predicate Fitting(h: seq<Moment>, polls: seq<Poll>) {
    forall k | 0 <= k < |polls| :: polls[k].batchAt < |h| && polls[k].viewAt < |h|
  }

  /** The Batch reads of the last polls all failed. */
  ghost predicate TrailingUnknown(polls: seq<Poll>, n: nat)
    requires n <= |polls|
  {
    forall k | |polls| - n <= k < |polls| :: polls[k].batchFails
  }

  /** A job followed through failed Batch reads has had no readable view since the limit was reached: the limit is
      looked at only when the view can be read. */
  lemma {:induction false} UnknownCounted(h: seq<Moment>, c: Counters, polls: seq<Poll>, n: nat)
    requires Fitting(h, polls) && n <= |polls| && TrailingUnknown(polls, n) && After(h, c, polls).last.Follow?
    ensures After(h, c, polls).counters.failures >= n
    ensures n >= 10 ==> TrailingFailures(polls, n - 9)
    decreases |polls|
  {
    if n > 0 {
      assert TrailingUnknown(polls[..|polls| - 1], n - 1);
      UnknownCounted(h, c, polls[..|polls| - 1], n - 1);
    }
  }

  /** Some follow is still on after `n` consecutive failed Batch reads. */
  ghost predicate CanSurvive(n: nat) {
    exists h, c, polls :: Survives(h, c, polls, n)
  }

  ghost predicate Survives(h: seq<Moment>, c: Counters, polls: seq<Poll>, n: nat) {
    && Fitting(h, polls) && n <= |polls| && TrailingUnknown(polls, n)
    && After(h, c, polls).last.Follow?
  }

  const MOST_UNKNOWN := 2 * MAX_CONSECUTIVE_ERRORS - 2

  /** One limit less one with a readable view, then as many without. */
  function Unnoticed(n: nat): (polls: seq<Poll>)
    ensures |polls| == n
    ensures forall k | 0 <= k < n :: polls[k] == Poll(0, 0, true, k >= MAX_CONSECUTIVE_ERRORS - 1, 0)
  {
    if n == 0 then [] else Unnoticed(n - 1) + [Poll(0, 0, true, n - 1 >= MAX_CONSECUTIVE_ERRORS - 1, 0)]
  }

  const BEGUN := [Moment(0, false, false)]

  lemma {:induction false} UnnoticedGoesOn(n: nat)
    requires n <= MOST_UNKNOWN
    ensures After(BEGUN, Counters(0, 0, 0), Unnoticed(n)) ==
      Progress(Follow, Counters(0, n, if n < MAX_CONSECUTIVE_ERRORS then 0 else n + 1 - MAX_CONSECUTIVE_ERRORS), 0, 0)
    decreases n
  {
    if n > 0 {
      hide After;
      UnnoticedGoesOn(n - 1);
      OneMore(Unnoticed(n - 1), n - 1, n - 1 >= MAX_CONSECUTIVE_ERRORS - 1);
    }
  }

  /** One more poll with a failed Batch read. */
  lemma {:induction false} OneMore(polls: seq<Poll>, f: nat, bad: bool)
    requires Fitting(BEGUN, polls)
    requires var v := if f < MAX_CONSECUTIVE_ERRORS then 0 else f + 1 - MAX_CONSECUTIVE_ERRORS;
      After(BEGUN, Counters(0, 0, 0), polls) == Progress(Follow, Counters(0, f, v), 0, 0)
    requires bad == (f >= MAX_CONSECUTIVE_ERRORS - 1) && f < MOST_UNKNOWN
    ensures var v := if f + 1 < MAX_CONSECUTIVE_ERRORS then 0 else f + 2 - MAX_CONSECUTIVE_ERRORS;
      After(BEGUN, Counters(0, 0, 0), polls + [Poll(0, 0, true, bad, 0)])
        == Progress(Follow, Counters(0, f + 1, v), 0, 0)
  {
    var more := polls + [Poll(0, 0, true, bad, 0)];
    assert more[..|more| - 1] == polls;
    assert Fitting(BEGUN, more);
  }

  /** Failed Batch reads do not stop a follow at the limit: eighteen in a row can be survived, and no more. */
  lemma {:induction false} UnknownExactly(n: nat)
    ensures CanSurvive(n) <==> n <= 18
  {
    if n <= MOST_UNKNOWN {
      UnnoticedGoesOn(n);
      assert Survives(BEGUN, Counters(0, 0, 0), Unnoticed(n), n);
    }
    if CanSurvive(n) {
      var h, c, polls :| Survives(h, c, polls, n);
      UnknownCounted(h, c, polls, n);
      if n >= MAX_CONSECUTIVE_ERRORS { FailuresCounted(h, c, polls, n + 1 - MAX_CONSECUTIVE_ERRORS); }
    }
  }
}
