/** Following Cloud Logging entries (src/metaproc/commands/gcp.py, `_follow_logs`): overlapping poll
    windows and a bounded cache of the insert ids that have been printed. */
module LogFollow {
  import opened Common

  /** Times are in seconds; an entry becomes visible to queries some time after its timestamp. */
  datatype Entry = Entry(insertId: string, timestamp: real, visibleAt: real)

  const POLL_FRESHNESS := 10.0
  const CACHE_SIZE := 2000

  /** The cache and, as a record of the run, all entries printed so far. */
  datatype State = State(ids: set<string>, order: seq<string>, printed: seq<Entry>)

  // ----- one entry, and the entries of one poll

  /** Appending to a full `deque(maxlen)` drops its first element. */
  function Appended(order: seq<string>, id: string): seq<string> {
    (if |order| >= CACHE_SIZE then order[1..] else order) + [id]
  }

  function Handle(s: State, e: Entry): State {
    if e.insertId == "" then s.(printed := s.printed + [e])
    else if e.insertId in s.ids then s
    else
      var ids := if |s.order| == CACHE_SIZE then s.ids - {s.order[0]} else s.ids;
      State(ids + {e.insertId}, Appended(s.order, e.insertId), s.printed + [e])
  }

  function HandleAll(s: State, entries: seq<Entry>): State
    decreases |entries|
  {
    if entries == [] then s else Handle(HandleAll(s, entries[..|entries| - 1]), entries[|entries| - 1])
  }

  class Follower {
    var ids: set<string>
    var order: seq<string>
    var printed: seq<Entry>
    var lastPoll: real

    function Current(): State
      reads this
    {
      State(ids, order, printed)
    }

    /** Start one freshness window in the past. */
    constructor (now: real)
      ensures Current() == State({}, [], []) && lastPoll == now - POLL_FRESHNESS
    {
      ids, order, printed, lastPoll := {}, [], [], now - POLL_FRESHNESS;
    }

    /** The lower end of the window of the next query, and the time it is issued at. */
    method BeginPoll(now: real) returns (since: real)
      modifies this`lastPoll
      ensures since == old(lastPoll) - POLL_FRESHNESS && lastPoll == now
    {
      since := lastPoll - POLL_FRESHNESS;
      lastPoll := now;
    }

    /** The loop over the entries of one answer. */
    method PrintNew(entries: seq<Entry>)
      modifies this`ids, this`order, this`printed
      ensures Current() == HandleAll(old(Current()), entries)
    {
      for k := 0 to |entries|
        invariant Current() == HandleAll(old(Current()), entries[..k])
      {
        assert entries[..k + 1][..k] == entries[..k];
        var id := entries[k].insertId;
        if id != "" && id in ids {
          continue;
        }
        printed := printed + [entries[k]];
        if id != "" {
          if |order| == CACHE_SIZE {
            ids := ids - {order[0]};
          }
          order := Appended(order, id);
          ids := ids + {id};
        }
      }
      assert entries[..|entries|] == entries;
    }
  }

  // ----- the cache

  function PrintedIds(printed: seq<Entry>): seq<string>
    decreases |printed|
  {
    if printed == [] then []
    else
      var last := printed[|printed| - 1];
      PrintedIds(printed[..|printed| - 1]) + (if last.insertId == "" then [] else [last.insertId])
  }

  /** `order` holds the most recent of all printed ids, as many as fit. */
  ghost predicate Recent(order: seq<string>, all: seq<string>) {
    |order| <= CACHE_SIZE && |order| <= |all| && (|all| > |order| ==> |order| == CACHE_SIZE)
    && order == all[|all| - |order|..]
  }

  ghost predicate Mirrors(ids: set<string>, order: seq<string>) {
    forall x :: x in ids <==> x in order
  }

  /** The cache holds exactly the most recently printed ids, without repetition, and the lookup set
      mirrors it. */
  ghost predicate CacheInv(s: State) {
    Recent(s.order, PrintedIds(s.printed)) && Unique(s.order) && Mirrors(s.ids, s.order)
  }

  /** Between two prints of one id there are as many prints of other ids, all different, as the cache
      has places. */
  ghost predicate SpacedIds(all: seq<string>) {
    forall i, j | 0 <= i < j < |all| && all[i] == all[j] ::
      j - i > 2000 && Unique(all[j - 2000..j])
  }

  ghost predicate Spaced(s: State) {
    SpacedIds(PrintedIds(s.printed))
  }

  lemma {:induction false} PrintedSnoc(printed: seq<Entry>, e: Entry)
    ensures PrintedIds(printed + [e]) == PrintedIds(printed) + (if e.insertId == "" then [] else [e.insertId])
  {
    assert (printed + [e])[..|printed|] == printed;
  }

  lemma {:induction false} AppendUnique(order: seq<string>, id: string)
    requires Unique(order) && id !in order
    ensures Unique(Appended(order, id))
  {
    var kept := if |order| >= CACHE_SIZE then order[1..] else order;
    assert Unique(kept);
    assert forall k | 0 <= k < |kept| :: kept[k] in order;
  }

  lemma {:induction false} AppendMirrors(ids: set<string>, order: seq<string>, id: string)
    requires Mirrors(ids, order) && Unique(order) && |order| <= CACHE_SIZE
    ensures Mirrors((if |order| == CACHE_SIZE then ids - {order[0]} else ids) + {id}, Appended(order, id))
  {
    if |order| == CACHE_SIZE {
      assert order == [order[0]] + order[1..];
      assert order[0] !in order[1..];
    }
  }

  lemma {:induction false} AppendRecent(order: seq<string>, all: seq<string>, id: string)
    requires Recent(order, all)
    ensures Recent(Appended(order, id), all + [id])
  {
    if |order| == CACHE_SIZE {
      assert order[1..] == all[|all| - |order| + 1..];
    }
  }

  lemma {:induction false} AppendSpaced(order: seq<string>, all: seq<string>, id: string)
    requires SpacedIds(all) && Recent(order, all) && Unique(order) && id !in order
    ensures SpacedIds(all + [id])
  {
    var more := all + [id];
    forall i, j | 0 <= i < j < |more| && more[i] == more[j]
      ensures j - i > CACHE_SIZE && Unique(more[j - CACHE_SIZE..j])
    {
      if j < |all| {
        assert more[j - CACHE_SIZE..j] == all[j - CACHE_SIZE..j];
      } else {
        NotRecent(order, all, i);
        assert more[j - CACHE_SIZE..j] == order;
      }
    }
  }

  lemma {:induction false} NotRecent(order: seq<string>, all: seq<string>, i: nat)
    requires Recent(order, all) && i < |all| && all[i] !in order
    ensures |order| == CACHE_SIZE && i < |all| - |order|
  {
    var n := |all| - |order|;
    assert forall k | n <= k < |all| :: all[k] == order[k - n] && all[k] in order;
  }

  lemma {:induction false} HandleKeeps(s: State, e: Entry)
    requires CacheInv(s) && Spaced(s)
    ensures CacheInv(Handle(s, e)) && Spaced(Handle(s, e))
  {
    hide SpacedIds, Recent, Mirrors, Unique;
    PrintedSnoc(s.printed, e);
    if e.insertId == "" {
      assert PrintedIds(s.printed) + [] == PrintedIds(s.printed);
    } else if e.insertId !in s.ids {
      NewId(s, e.insertId);
      var all := PrintedIds(s.printed);
      AppendUnique(s.order, e.insertId);
      AppendMirrors(s.ids, s.order, e.insertId);
      AppendRecent(s.order, all, e.insertId);
      AppendSpaced(s.order, all, e.insertId);
    }
  }

  lemma {:induction false} NewId(s: State, id: string)
    requires CacheInv(s) && id !in s.ids
    ensures id !in s.order && |s.order| <= CACHE_SIZE
  {
  }

  lemma {:induction false} HandleAllKeeps(s: State, entries: seq<Entry>)
    requires CacheInv(s) && Spaced(s)
    ensures CacheInv(HandleAll(s, entries)) && Spaced(HandleAll(s, entries))
    decreases |entries|
  {
    if entries != [] {
      HandleAllKeeps(s, entries[..|entries| - 1]);
      HandleKeeps(HandleAll(s, entries[..|entries| - 1]), entries[|entries| - 1]);
    }
  }

  // ----- delivery

  /** A poll: when its window was closed, when the query saw the store, and what it answered. */
  datatype Poll = Poll(now: real, queriedAt: real, entries: seq<Entry>)

  /** The lower end of the window of poll `k` of a follow that started at `start`. */
  function Since(start: real, polls: seq<Poll>, k: nat): real
    requires k < |polls|
  {
    (if k == 0 then start - POLL_FRESHNESS else polls[k - 1].now) - POLL_FRESHNESS
  }

  /** The query answers with every entry of the store that lies in the window and is visible. */
  ghost predicate Answers(store: set<Entry>, start: real, polls: seq<Poll>, k: nat)
    requires k < |polls|
  {
    && (forall e | e in store && e.timestamp >= Since(start, polls, k) && e.visibleAt <= polls[k].queriedAt ::
          e in polls[k].entries)
    && (forall e | e in polls[k].entries :: e in store)
  }

  ghost predicate IsFollow(store: set<Entry>, start: real, polls: seq<Poll>) {
    && (forall k | 0 <= k < |polls| :: polls[k].now <= polls[k].queriedAt && Answers(store, start, polls, k))
    && (forall k | 0 < k < |polls| :: polls[k - 1].queriedAt <= polls[k].now)
  }

  function After(polls: seq<Poll>): State
    decreases |polls|
  {
    if polls == [] then State({}, [], [])
    else HandleAll(After(polls[..|polls| - 1]), polls[|polls| - 1].entries)
  }

  lemma {:induction false} AfterKeeps(polls: seq<Poll>)
    ensures CacheInv(After(polls)) && Spaced(After(polls))
    decreases |polls|
  {
    if polls != [] {
      AfterKeeps(polls[..|polls| - 1]);
      HandleAllKeeps(After(polls[..|polls| - 1]), polls[|polls| - 1].entries);
    }
  }

  ghost predicate Delivered(s: State, id: string) {
    exists e :: e in s.printed && e.insertId == id
  }

  lemma {:induction false} IdsPrinted(printed: seq<Entry>, id: string)
    requires id in PrintedIds(printed)
    ensures exists e :: e in printed && e.insertId == id
    decreases |printed|
  {
    var n := |printed| - 1;
    if printed[n].insertId == id {
      assert printed[n] in printed;
    } else {
      IdsPrinted(printed[..n], id);
      var e :| e in printed[..n] && e.insertId == id;
      assert e in printed;
    }
  }

  lemma {:induction false} HandleDelivers(s: State, e: Entry, id: string)
    requires CacheInv(s) && id != "" && (Delivered(s, id) || e.insertId == id)
    ensures Delivered(Handle(s, e), id)
  {
    if Delivered(s, id) {
      var old_e :| old_e in s.printed && old_e.insertId == id;
      assert old_e in Handle(s, e).printed;
    } else if id in s.ids {
      assert id in s.order && id in PrintedIds(s.printed);
      IdsPrinted(s.printed, id);
    } else {
      assert e in Handle(s, e).printed;
    }
  }

  /** Handling an answer prints each of its ids, unless it has been printed before; nothing is unprinted. */
  lemma {:induction false} HandleAllDelivers(s: State, entries: seq<Entry>, id: string)
    requires CacheInv(s) && Spaced(s) && id != ""
    requires Delivered(s, id) || exists e :: e in entries && e.insertId == id
    ensures Delivered(HandleAll(s, entries), id)
    decreases |entries|
  {
    hide CacheInv, Spaced, Handle, Delivered;
    if entries != [] {
      var n := |entries| - 1;
      HandleAllKeeps(s, entries[..n]);
      if entries[n].insertId != id {
        if !Delivered(s, id) {
          var e :| e in entries && e.insertId == id;
          assert entries == entries[..n] + [entries[n]];
          assert e in entries[..n];
        }
        HandleAllDelivers(s, entries[..n], id);
      }
      HandleDelivers(HandleAll(s, entries[..n]), entries[n], id);
    }
  }

  lemma {:induction false} DeliveredStays(polls: seq<Poll>, k: nat, id: string)
    requires k <= |polls| && id != "" && Delivered(After(polls[..k]), id)
    ensures Delivered(After(polls), id)
    decreases |polls|
  {
    var n := |polls|;
    if k == n {
      assert polls[..k] == polls;
    } else {
      assert polls[..n - 1][..k] == polls[..k];
      DeliveredStays(polls[..n - 1], k, id);
      AfterKeeps(polls[..n - 1]);
      HandleAllDelivers(After(polls[..n - 1]), polls[n - 1].entries, id);
    }
  }

  /** The first poll whose query saw the entry has it in its window. */
  lemma {:induction false} WindowCatches(store: set<Entry>, start: real, polls: seq<Poll>, e: Entry, k: nat)
      returns (first: nat)
    requires IsFollow(store, start, polls) && e in store && k < |polls| && e.visibleAt <= polls[k].queriedAt
    requires e.visibleAt <= e.timestamp + POLL_FRESHNESS && e.timestamp >= start - 2.0 * POLL_FRESHNESS
    ensures first <= k && e in polls[first].entries
    decreases k
  {
    if k > 0 && e.visibleAt <= polls[k - 1].queriedAt {
      first := WindowCatches(store, start, polls, e, k - 1);
    } else {
      first := k;
      assert e.timestamp >= Since(start, polls, k);
      assert Answers(store, start, polls, k);
    }
  }

  /** A follow, and an entry of its store that some query was late enough to see. */
  ghost predicate CouldSee(store: set<Entry>, start: real, polls: seq<Poll>, e: Entry) {
    && IsFollow(store, start, polls) && e in store && e.insertId != ""
    && e.timestamp >= start - 20.0
    && exists k :: 0 <= k < |polls| && e.visibleAt <= polls[k].queriedAt
  }

  /** Every entry with an insert id that becomes visible within the freshness window and is not older
      than the first window is printed, once a query has been issued that could see it; and two prints
      of one id are separated by a full cache of others. */
  lemma {:induction false} FollowDelivers(store: set<Entry>, start: real, polls: seq<Poll>, e: Entry)
    requires CouldSee(store, start, polls, e) && e.visibleAt <= e.timestamp + 10.0
    ensures Delivered(After(polls), e.insertId) && Spaced(After(polls))
  {
    var k :| 0 <= k < |polls| && e.visibleAt <= polls[k].queriedAt;
    var first := WindowCatches(store, start, polls, e, k);
    hide IsFollow, CacheInv, Spaced, Delivered, After;
    AnswerDelivers(polls, first, e);
    AfterKeeps(polls);
  }

  /** What one poll is answered has been delivered by the end. */
  lemma {:induction false} AnswerDelivers(polls: seq<Poll>, k: nat, e: Entry)
    requires k < |polls| && e in polls[k].entries && e.insertId != ""
    ensures Delivered(After(polls), e.insertId)
  {
    hide CacheInv, Spaced, Delivered, HandleAll;
    assert polls[..k + 1][..k] == polls[..k];
    AfterKeeps(polls[..k]);
    HandleAllDelivers(After(polls[..k]), polls[k].entries, e.insertId);
    DeliveredStays(polls, k + 1, e.insertId);
  }

  /** The bound is exact: entries that lag by a given time are delivered in every follow if and only if
      the lag is within the freshness window. */
  lemma {:induction false} DeliveryBound(lag: real)
    ensures (forall store, start, polls, e | CouldSee(store, start, polls, e) && e.visibleAt == e.timestamp + lag ::
               Delivered(After(polls), e.insertId))
            <==> lag <= 10.0
  {
    if lag <= POLL_FRESHNESS {
      forall store, start, polls, e | CouldSee(store, start, polls, e) && e.visibleAt == e.timestamp + lag
        ensures Delivered(After(polls), e.insertId)
      {
        FollowDelivers(store, start, polls, e);
      }
    } else {
      var e := Entry("late", 0.0, lag);
      var first := (lag + POLL_FRESHNESS) / 2.0;
      var polls := [Poll(first, first, []), Poll(lag, lag, [])];
      assert Since(0.0, polls, 1) == first - POLL_FRESHNESS;
      assert Answers({e}, 0.0, polls, 0) && Answers({e}, 0.0, polls, 1);
      assert e.visibleAt <= polls[1].queriedAt;
      assert CouldSee({e}, 0.0, polls, e);
      assert polls[..1] == [polls[0]] && polls[..1][..0] == [];
      assert After(polls[..1]) == State({}, [], []) && After(polls) == State({}, [], []);
      assert !Delivered(After(polls), "late");
    }
  }

  /** The follow loop over a number of polls: the windows it asks for and what it prints. */
  method FollowPolls(start: real, polls: seq<Poll>) returns (printed: seq<Entry>, windows: seq<real>)
    ensures printed == After(polls).printed
    ensures |windows| == |polls| && forall k | 0 <= k < |polls| :: windows[k] == Since(start, polls, k)
  {
    var f := new Follower(start);
    windows := [];
    for k := 0 to |polls|
      invariant f.Current() == After(polls[..k])
      invariant f.lastPoll == if k == 0 then start - POLL_FRESHNESS else polls[k - 1].now
      invariant |windows| == k && forall i | 0 <= i < k :: windows[i] == Since(start, polls, i)
    {
      assert polls[..k + 1][..k] == polls[..k];
      var since := f.BeginPoll(polls[k].now);
      windows := windows + [since];
      f.PrintNew(polls[k].entries);
    }
    assert polls[..|polls|] == polls;
    printed := f.printed;
  }
}
