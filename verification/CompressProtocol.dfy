/** The compress-and-replace protocol of src/metaproc/commands/gzip_text.py (`compress_file`) as a state
    machine: every file operation is a step, a fault may strike at any step, a producer may write the
    source in between, and nothing is assumed about the encoder. */
module CompressProtocol {
  import opened Common

  type Bytes = seq<int>

  /** A source file; `mtime` advances with every write. */
  datatype File = File(content: Bytes, mtime: nat)

  /** What decoding a stored file gives, if it decodes at all. */
  type Decoder = Bytes -> Option<Bytes>

  datatype Phase =
    | Stat        // snapshot the source
    | Prepare     // remove a stale staging file
    | Open        // open the staging file
    | Copy        // read, hash and encode, chunk by chunk
    | Sync        // flush, fsync and close
    | Verify      // decode back and hash, chunk by chunk
    | Compare     // lengths and digests
    | Restat      // is the source still the snapshot?
    | Measure     // stat the staging file
    | Publish     // replace the destination
    | Stamp       // copy the modification time
    | Unlink      // delete the source
    | Cleanup     // delete the staging file after an error
    | Done
    | Failed

  /** The files, the latest modification time handed out, the producer's latest content, and the local
      variables of the running call.  Digests are injective, so the hashed bytes stand for them. */
  datatype State = State(
    src: Option<File>, dst: Option<Bytes>, tmp: Option<Bytes>, clock: nat, latest: Bytes,
    phase: Phase, size: nat, mtime: nat, remaining: nat, hashed: Bytes, checked: Bytes)

  datatype Call = Call(decode: Decoder, keepOriginal: bool, chunk: nat)

  predicate Init(s: State) {
    s.phase.Stat? && s.src.Some? && s.src.value.content == s.latest && s.src.value.mtime <= s.clock && s.mtime == 0
  }

  function Fail(s: State): State { s.(phase := Cleanup) }

  // ----- the steps of the call

  ghost predicate StatStep(s: State, s': State) {
    s.phase.Stat? &&
    if s.src.None? then s' == s.(phase := Failed)
    else s' == s.(phase := Prepare, size := |s.src.value.content|, mtime := s.src.value.mtime)
  }

  ghost predicate PrepareStep(s: State, s': State) {
    s.phase.Prepare? && s' == s.(phase := Open, tmp := None)
  }

  ghost predicate OpenStep(s: State, s': State) {
    s.phase.Open? && s' == s.(phase := Copy, tmp := Some([]), remaining := s.size, hashed := [])
  }

  /** Read one chunk at the current offset and hand it to the encoder, which leaves whatever it likes in
      the staging file.  A read at or behind the end of the source gives nothing: the source shrank. */
  ghost predicate CopyStep(c: Call, s: State, s': State, staged: Bytes, n: nat) {
    s.phase.Copy? && 0 < s.remaining <= s.size && s.src.Some? &&
    var content, offset := s.src.value.content, s.size - s.remaining;
    if offset >= |content| then s' == Fail(s)
    else
      && 0 < n <= c.chunk && n <= s.remaining && offset + n <= |content|
      && s' == s.(tmp := Some(staged), remaining := s.remaining - n, hashed := s.hashed + content[offset..offset + n])
  }

  ghost predicate CopyEndStep(s: State, s': State) {
    s.phase.Copy? && s.remaining == 0 && s' == s.(phase := Sync)
  }

  ghost predicate SyncStep(s: State, s': State, staged: Bytes) {
    s.phase.Sync? && s' == s.(phase := Verify, tmp := Some(staged), checked := [])
  }

  ghost predicate VerifyStep(c: Call, s: State, s': State, n: nat) {
    s.phase.Verify? && s.tmp.Some? &&
    match c.decode(s.tmp.value)
    case None => s' == Fail(s)
    case Some(decoded) =>
      if s.checked == decoded then s' == s.(phase := Compare)
      else
        && 0 < n <= c.chunk && |s.checked| + n <= |decoded|
        && s' == s.(checked := s.checked + decoded[|s.checked|..|s.checked| + n])
  }

  ghost predicate CompareStep(s: State, s': State) {
    s.phase.Compare? &&
    s' == if |s.checked| == s.size && s.checked == s.hashed then s.(phase := Restat) else Fail(s)
  }

  ghost predicate RestatStep(s: State, s': State) {
    s.phase.Restat? &&
    s' == if s.src.Some? && |s.src.value.content| == s.size && s.src.value.mtime == s.mtime
          then s.(phase := Measure) else Fail(s)
  }

  ghost predicate MeasureStep(s: State, s': State) {
    s.phase.Measure? && s' == s.(phase := Publish)
  }

  ghost predicate PublishStep(s: State, s': State) {
    s.phase.Publish? && s' == s.(phase := Stamp, dst := s.tmp, tmp := None)
  }

  /** An error here is swallowed. */
  ghost predicate StampStep(s: State, s': State) {
    s.phase.Stamp? && s' == s.(phase := Unlink)
  }

  ghost predicate UnlinkStep(c: Call, s: State, s': State) {
    s.phase.Unlink? && s' == s.(phase := Done, src := if c.keepOriginal then s.src else None)
  }

  /** An error or an interrupt, before or right behind the effect of a step; until the staging file is
      open there is nothing to clean up. */
  ghost predicate FaultStep(c: Call, s: State, s': State, staged: Bytes) {
    match s.phase
    case Stat => s' == s.(phase := Failed)
    case Prepare => s' == s.(phase := Failed) || s' == s.(phase := Failed, tmp := None)
    case Open => s' == s.(phase := Failed) || s' == s.(phase := Failed, tmp := Some([]))
    case Copy => s' == Fail(s.(tmp := Some(staged)))
    case Sync => s' == Fail(s.(tmp := Some(staged)))
    case Publish => s' == Fail(s) || s' == Fail(s.(dst := s.tmp, tmp := None))
    case Unlink => s' == Fail(s) || (!c.keepOriginal && s' == Fail(s.(src := None)))
    case Cleanup => s' == s.(phase := Failed)
    case Done => false
    case Failed => false
    case _ => s' == Fail(s)
  }

  ghost predicate CleanupStep(s: State, s': State) {
    s.phase.Cleanup? && s' == s.(phase := Failed, tmp := None)
  }

  ghost predicate CallStep(c: Call, s: State, s': State, staged: Bytes, n: nat) {
    || StatStep(s, s') || PrepareStep(s, s') || OpenStep(s, s')
    || CopyStep(c, s, s', staged, n) || CopyEndStep(s, s') || SyncStep(s, s', staged)
    || VerifyStep(c, s, s', n) || CompareStep(s, s')
    || RestatStep(s, s') || MeasureStep(s, s') || PublishStep(s, s') || StampStep(s, s')
    || UnlinkStep(c, s, s') || FaultStep(c, s, s', staged) || CleanupStep(s, s')
  }

  // ----- the producer

  /** The call has looked at the source for the last time. */
  predicate PastRestat(s: State) {
    s.phase.Measure? || s.phase.Publish? || s.phase.Stamp? || s.phase.Unlink?
  }

  /** A write replaces the content and advances the modification time. */
  ghost predicate ProducerStep(s: State, s': State, content: Bytes, mtime: nat) {
    s.src.Some? && s.clock < mtime
    && s' == s.(src := Some(File(content, mtime)), clock := mtime, latest := content)
  }

  /** One step of the system; `late` says whether the producer may write past the re-stat. */
  ghost predicate Next(c: Call, late: bool, s: State, s': State) {
    || (exists staged, n :: CallStep(c, s, s', staged, n))
    || ((late || !PastRestat(s)) && exists content, mtime :: ProducerStep(s, s', content, mtime))
  }

  ghost predicate IsRun(c: Call, late: bool, run: seq<State>) {
    |run| > 0 && Init(run[0]) && forall i | 0 <= i < |run| - 1 :: Next(c, late, run[i], run[i + 1])
  }

  // ----- what every step keeps

  /** The source is as it was when the snapshot was taken. */
  predicate Unchanged(s: State) {
    s.src.Some? && s.src.value.mtime == s.mtime
  }

  /** The phases in which the bytes read so far matter. */
  predicate Reading(s: State) {
    s.phase.Copy? || s.phase.Sync? || s.phase.Verify? || s.phase.Compare? || s.phase.Restat?
  }

  predicate Before(s: State) { s.phase.Prepare? || s.phase.Open? }

  /** A stored file holds the producer's latest content. */
  predicate Holds(c: Call, stored: Option<Bytes>, content: Bytes) {
    stored.Some? && c.decode(stored.value) == Some(content)
  }

  ghost predicate SourceInv(c: Call, s: State) {
    && (s.src.Some? ==> s.src.value.content == s.latest && s.src.value.mtime <= s.clock && s.mtime <= s.clock)
    && (s.src.None? ==>
          !c.keepOriginal && Holds(c, s.dst, s.latest) && (s.phase.Done? || s.phase.Cleanup? || s.phase.Failed?))
  }

  /** While the source is unchanged it has the length of the snapshot, and what was hashed is a prefix. */
  ghost predicate ReadInv(s: State) {
    && (Before(s) && Unchanged(s) ==> |s.latest| == s.size)
    && (Reading(s) ==>
          && s.remaining <= s.size && |s.hashed| == s.size - s.remaining
          && (!s.phase.Copy? ==> s.remaining == 0)
          && (Unchanged(s) ==> |s.latest| == s.size && s.hashed == s.latest[..|s.hashed|]))
  }

  ghost predicate StagedInv(c: Call, s: State) {
    && (s.phase.Verify? && s.tmp.Some? && c.decode(s.tmp.value).Some? ==> s.checked <= c.decode(s.tmp.value).value)
    && (s.phase.Compare? ==> Holds(c, s.tmp, s.checked))
    && (s.phase.Restat? ==> Holds(c, s.tmp, s.hashed))
    && (s.phase.Measure? || s.phase.Publish? ==> Holds(c, s.tmp, s.latest))
    && (s.phase.Stamp? || s.phase.Unlink? ==> Holds(c, s.dst, s.latest))
  }

  ghost predicate Inv(c: Call, s: State) {
    SourceInv(c, s) && ReadInv(s) && StagedInv(c, s) && (s.phase.Stat? ==> s.mtime <= s.clock)
  }

  lemma {:induction false} CopyKeeps(c: Call, s: State, s': State, staged: Bytes, n: nat)
    requires Inv(c, s) && CopyStep(c, s, s', staged, n)
    ensures Inv(c, s')
  {
    if s'.phase.Copy? && Unchanged(s) {
      var offset := s.size - s.remaining;
      assert s.latest[..offset] + s.latest[offset..offset + n] == s.latest[..offset + n];
    }
  }

  lemma {:induction false} VerifyKeeps(c: Call, s: State, s': State, n: nat)
    requires Inv(c, s) && VerifyStep(c, s, s', n)
    ensures Inv(c, s')
  {
  }

  lemma {:induction false} RestatKeeps(c: Call, s: State, s': State)
    requires Inv(c, s) && RestatStep(s, s')
    ensures Inv(c, s')
  {
    if s'.phase.Measure? {
      assert s.hashed == s.latest[..|s.latest|] == s.latest;
    }
  }

  lemma {:induction false} EarlyKeeps(c: Call, s: State, s': State, staged: Bytes)
    requires Inv(c, s)
    requires StatStep(s, s') || PrepareStep(s, s') || OpenStep(s, s') || CopyEndStep(s, s') || SyncStep(s, s', staged)
    ensures Inv(c, s')
  {
  }

  lemma {:induction false} LateKeeps(c: Call, s: State, s': State)
    requires Inv(c, s)
    requires CompareStep(s, s') || MeasureStep(s, s') || PublishStep(s, s') || StampStep(s, s') || UnlinkStep(c, s, s')
             || CleanupStep(s, s')
    ensures Inv(c, s')
  {
  }

  lemma {:induction false} FaultKeeps(c: Call, s: State, s': State, staged: Bytes)
    requires Inv(c, s) && FaultStep(c, s, s', staged)
    ensures Inv(c, s')
  {
  }

  lemma {:induction false} CallKeeps(c: Call, s: State, s': State, staged: Bytes, n: nat)
    requires Inv(c, s) && CallStep(c, s, s', staged, n)
    ensures Inv(c, s')
  {
    if StatStep(s, s') || PrepareStep(s, s') || OpenStep(s, s') || CopyEndStep(s, s') || SyncStep(s, s', staged) {
      EarlyKeeps(c, s, s', staged);
    } else if CopyStep(c, s, s', staged, n) {
      CopyKeeps(c, s, s', staged, n);
    } else if VerifyStep(c, s, s', n) {
      VerifyKeeps(c, s, s', n);
    } else if RestatStep(s, s') {
      RestatKeeps(c, s, s');
    } else if FaultStep(c, s, s', staged) {
      FaultKeeps(c, s, s', staged);
    } else {
      LateKeeps(c, s, s');
    }
  }

  lemma {:induction false} StepKeeps(c: Call, s: State, s': State)
    requires Inv(c, s) && Next(c, false, s, s')
    ensures Inv(c, s')
  {
    if staged, n :| CallStep(c, s, s', staged, n) {
      CallKeeps(c, s, s', staged, n);
    }
  }

  lemma {:induction false} RunKeeps(c: Call, run: seq<State>, i: nat)
    requires IsRun(c, false, run) && i < |run|
    ensures Inv(c, run[i])
    decreases i
  {
    if i > 0 {
      RunKeeps(c, run, i - 1);
      StepKeeps(c, run[i - 1], run[i]);
    }
  }

  // ----- the guarantees

  /** The producer's latest content is not lost: it is still in the source, or the destination decodes to
      exactly it. */
  ghost predicate Safe(c: Call, s: State) {
    (s.src.Some? && s.src.value.content == s.latest) || Holds(c, s.dst, s.latest)
  }

  /** With faults at any step, any encoder, and a producer that writes at any time up to the re-stat, no
      state of any run loses a byte; a source that is to be kept is always there; and once the
      destination has been replaced, until the call ends, it decodes to the source. */
  lemma {:induction false} NothingLost(c: Call, run: seq<State>, i: nat)
    requires IsRun(c, false, run) && i < |run|
    ensures Safe(c, run[i])
    ensures c.keepOriginal ==> run[i].src.Some?
    ensures run[i].phase.Stamp? || run[i].phase.Unlink? ==>
      run[i].src.Some? && Holds(c, run[i].dst, run[i].src.value.content)
  {
    RunKeeps(c, run, i);
  }

  /** A call that ends before it has replaced the destination leaves the source and the destination. */
  lemma {:induction false} AbortLeavesFiles(c: Call, late: bool, run: seq<State>, i: nat)
    requires IsRun(c, late, run) && i < |run|
    requires forall j | 0 <= j < i :: !(run[j].phase.Publish? && run[j + 1].dst != run[j].dst) && !run[j].phase.Unlink?
    ensures run[i].src.Some? && run[i].dst == run[0].dst
    decreases i
  {
    if i > 0 {
      AbortLeavesFiles(c, late, run, i - 1);
      var s, s' := run[i - 1], run[i - 1 + 1];
      assert Next(c, late, s, s');
      if staged, n :| CallStep(c, s, s', staged, n) {
        LeavesFiles(c, s, s', staged, n);
      }
    }
  }

  lemma {:induction false} LeavesFiles(c: Call, s: State, s': State, staged: Bytes, n: nat)
    requires CallStep(c, s, s', staged, n) && s.src.Some? && !s.phase.Unlink?
    requires s.phase.Publish? ==> s'.dst == s.dst
    ensures s'.src.Some? && s'.dst == s.dst
  {
  }

  // ----- why the producer has to stop at the re-stat

  // ----- completion

  /** A step of the call without a fault; there is nothing to clean up then. */
  ghost predicate WorkStep(c: Call, s: State, s': State, staged: Bytes, n: nat) {
    || StatStep(s, s') || PrepareStep(s, s') || OpenStep(s, s')
    || CopyStep(c, s, s', staged, n) || CopyEndStep(s, s') || SyncStep(s, s', staged)
    || VerifyStep(c, s, s', n) || CompareStep(s, s')
    || RestatStep(s, s') || MeasureStep(s, s') || PublishStep(s, s') || StampStep(s, s') || UnlinkStep(c, s, s')
  }

  /** The same, with an encoder that leaves `e` in the end. */
  ghost predicate CalmStep(c: Call, e: Bytes, s: State, s': State) {
    exists staged, n :: CalmBy(c, e, s, s', staged, n)
  }

  ghost predicate CalmBy(c: Call, e: Bytes, s: State, s': State, staged: Bytes, n: nat) {
    WorkStep(c, s, s', staged, n) && (s.phase.Sync? ==> staged == e)
  }

  ghost predicate CalmRun(c: Call, e: Bytes, run: seq<State>) {
    run != [] && forall i | 0 <= i < |run| - 1 :: CalmStep(c, e, run[i], run[i + 1])
  }

  /** The encoder is faithful on this content. */
  ghost predicate Faithful(c: Call, content: Bytes, e: Bytes) {
    c.chunk > 0 && c.decode(e) == Some(content)
  }

  /** A call on its way, with the source as it was at the start. */
  ghost predicate OnItsWay(c: Call, source: File, e: Bytes, s: State) {
    var content := source.content;
    && (if s.phase.Done? && !c.keepOriginal then s.src == None else s.src == Some(source))
    && (!s.phase.Stat? ==> s.size == |content| && s.mtime == source.mtime)
    && match s.phase
       case Stat => true
       case Prepare => true
       case Open => true
       case Copy => s.remaining <= s.size && s.hashed == content[..s.size - s.remaining]
       case Sync => s.hashed == content
       case Verify => s.hashed == content && s.tmp == Some(e) && s.checked <= content
       case Compare => s.hashed == content && s.tmp == Some(e) && s.checked == content
       case Restat => s.tmp == Some(e)
       case Measure => s.tmp == Some(e)
       case Publish => s.tmp == Some(e)
       case Stamp => s.dst == Some(e) && s.tmp == None
       case Unlink => s.dst == Some(e) && s.tmp == None
       case Done => s.dst == Some(e) && s.tmp == None
       case Cleanup => false
       case Failed => false
  }

  /** An upper bound on the steps that are left. */
  function StepsLeft(s: State, length: nat): int {
    match s.phase
    case Stat => 2 * length + 12
    case Prepare => 2 * length + 11
    case Open => 2 * length + 10
    case Copy => length + 9 + s.remaining
    case Sync => length + 8
    case Verify => 7 + length - |s.checked|
    case Compare => 6
    case Restat => 5
    case Measure => 4
    case Publish => 3
    case Stamp => 2
    case Unlink => 1
    case _ => 0
  }

  lemma {:induction false} CopyOn(c: Call, source: File, e: Bytes, s: State, s': State, staged: Bytes, n: nat)
    requires OnItsWay(c, source, e, s) && CopyStep(c, s, s', staged, n)
    ensures OnItsWay(c, source, e, s') && StepsLeft(s', |source.content|) < StepsLeft(s, |source.content|)
  {
    var content, offset := source.content, s.size - s.remaining;
    assert content[..offset] + content[offset..offset + n] == content[..offset + n];
  }

  lemma {:induction false} VerifyOn(c: Call, source: File, e: Bytes, s: State, s': State, n: nat)
    requires Faithful(c, source.content, e) && OnItsWay(c, source, e, s) && VerifyStep(c, s, s', n)
    ensures OnItsWay(c, source, e, s') && StepsLeft(s', |source.content|) < StepsLeft(s, |source.content|)
  {
    if s'.phase.Verify? {
      var k := |s.checked|;
      assert source.content[..k] + source.content[k..k + n] == source.content[..k + n];
    }
  }

  lemma {:induction false} StepOn(c: Call, source: File, e: Bytes, s: State, s': State, staged: Bytes, n: nat)
    requires Faithful(c, source.content, e) && OnItsWay(c, source, e, s) && CalmBy(c, e, s, s', staged, n)
    ensures OnItsWay(c, source, e, s') && StepsLeft(s', |source.content|) < StepsLeft(s, |source.content|)
  {
    if CopyStep(c, s, s', staged, n) {
      CopyOn(c, source, e, s, s', staged, n);
    } else if VerifyStep(c, s, s', n) {
      VerifyOn(c, source, e, s, s', n);
    } else {
      assert source.content[..|source.content|] == source.content;
    }
  }

  /** There is always a next step until the call is done. */
  lemma {:induction false} NextOn(c: Call, source: File, e: Bytes, s: State) returns (s': State)
    requires Faithful(c, source.content, e) && OnItsWay(c, source, e, s) && !s.phase.Done?
    ensures CalmStep(c, e, s, s')
  {
    var n := 1;
    match s.phase {
      case Stat => s' := s.(phase := Prepare, size := |source.content|, mtime := source.mtime);
      case Prepare => s' := s.(phase := Open, tmp := None);
      case Open => s' := s.(phase := Copy, tmp := Some([]), remaining := s.size, hashed := []);
      case Copy =>
        var offset := s.size - s.remaining;
        if s.remaining == 0 {
          s' := s.(phase := Sync);
        } else {
          var chunk := source.content[offset..offset + n];
          s' := s.(tmp := Some(e), remaining := s.remaining - n, hashed := s.hashed + chunk);
          assert CopyStep(c, s, s', e, n);
        }
      case Sync => s' := s.(phase := Verify, tmp := Some(e), checked := []);
      case Verify =>
        var k := |s.checked|;
        s' := if s.checked == source.content then s.(phase := Compare)
              else s.(checked := s.checked + source.content[k..k + n]);
        assert VerifyStep(c, s, s', n);
      case Compare => s' := s.(phase := Restat);
      case Restat => s' := s.(phase := Measure);
      case Measure => s' := s.(phase := Publish);
      case Publish => s' := s.(phase := Stamp, dst := s.tmp, tmp := None);
      case Stamp => s' := s.(phase := Unlink);
      case Unlink => s' := s.(phase := Done, src := if c.keepOriginal then s.src else None);
    }
    assert CalmBy(c, e, s, s', e, n);
  }

  lemma {:induction false} RunOn(c: Call, source: File, e: Bytes, run: seq<State>, i: nat)
    requires Faithful(c, source.content, e) && CalmRun(c, e, run) && OnItsWay(c, source, e, run[0]) && i < |run|
    ensures OnItsWay(c, source, e, run[i])
    ensures StepsLeft(run[i], |source.content|) + i <= StepsLeft(run[0], |source.content|)
    decreases i
  {
    if i > 0 {
      RunOn(c, source, e, run, i - 1);
      assert CalmStep(c, e, run[i - 1], run[i - 1 + 1]);
      var staged, n :| CalmBy(c, e, run[i - 1], run[i], staged, n);
      StepOn(c, source, e, run[i - 1], run[i], staged, n);
    }
  }

  /** A run from a state on its way up to the state in which `left` steps are left. */
  lemma {:induction false} CarryOn(c: Call, source: File, e: Bytes, s: State, left: nat) returns (run: seq<State>)
    requires Faithful(c, source.content, e) && OnItsWay(c, source, e, s) && left < 4
    requires StepsLeft(s, |source.content|) >= left
    ensures CalmRun(c, e, run) && run[0] == s && OnItsWay(c, source, e, run[|run| - 1])
    ensures StepsLeft(run[|run| - 1], |source.content|) == left
    decreases StepsLeft(s, |source.content|)
  {
    if StepsLeft(s, |source.content|) == left {
      run := [s];
    } else {
      var s' := NextOn(c, source, e, s);
      var staged, n :| CalmBy(c, e, s, s', staged, n);
      StepOn(c, source, e, s, s', staged, n);
      OneLess(c, source, e, s, s', staged, n);
      var rest := CarryOn(c, source, e, s', left);
      run := [s] + rest;
      forall i | 0 <= i < |run| - 1 ensures CalmStep(c, e, run[i], run[i + 1]) {
        if i > 0 { assert run[i] == rest[i - 1] && run[i + 1] == rest[i - 1 + 1]; }
      }
    }
  }

  /** The last phases are passed one by one. */
  lemma {:induction false} OneLess(c: Call, source: File, e: Bytes, s: State, s': State, staged: Bytes, n: nat)
    requires OnItsWay(c, source, e, s) && CalmBy(c, e, s, s', staged, n) && OnItsWay(c, source, e, s')
    ensures var left := StepsLeft(s', |source.content|);
      left >= 3 || left == StepsLeft(s, |source.content|) - 1
  {
  }

  /** What a call on its way has done when it is done. */
  ghost predicate Completed(c: Call, source: File, e: Bytes, s: State) {
    && s.phase.Done? && s.dst == Some(e) && s.tmp == None
    && s.src == if c.keepOriginal then Some(source) else None
  }

  /** Without faults and writes of the producer, and with an encoder that is faithful on the content, of whatever
      length: no run fails or goes on for ever, every run that stops early can be carried on, and a run that is done
      has published the encoding, left no staging file, and deleted the source exactly if it was not to be kept. */
  lemma {:induction false} Completes(c: Call, start: State, e: Bytes)
    requires Init(start) && Faithful(c, start.src.value.content, e)
    ensures forall run: seq<State> | CalmRun(c, e, run) && run[0] == start :: Orderly(c, start.src.value, e, run)
    ensures exists run: seq<State> :: CalmRun(c, e, run) && run[0] == start && run[|run| - 1].phase.Done?
  {
    var source := start.src.value;
    forall run: seq<State> | CalmRun(c, e, run) && run[0] == start ensures Orderly(c, source, e, run) {
      StaysOrderly(c, source, e, run);
    }
    var run := CarryOn(c, source, e, start, 0);
  }

  ghost predicate Orderly(c: Call, source: File, e: Bytes, run: seq<State>)
    requires run != []
  {
    var last := run[|run| - 1];
    && |run| <= 2 * |source.content| + 13
    && (forall i | 0 <= i < |run| :: !run[i].phase.Cleanup? && !run[i].phase.Failed?)
    && if last.phase.Done? then Completed(c, source, e, last) else exists s' :: CalmStep(c, e, last, s')
  }

  lemma {:induction false} StaysOrderly(c: Call, source: File, e: Bytes, run: seq<State>)
    requires Faithful(c, source.content, e) && CalmRun(c, e, run) && run[0].phase.Stat?
    requires OnItsWay(c, source, e, run[0])
    ensures Orderly(c, source, e, run)
  {
    var n := |run| - 1;
    forall i | 0 <= i < |run| ensures OnItsWay(c, source, e, run[i]) { RunOn(c, source, e, run, i); }
    RunOn(c, source, e, run, n);
    LeftOver(c, source, e, run[n]);
    if !run[n].phase.Done? { var s' := NextOn(c, source, e, run[n]); }
  }

  lemma {:induction false} LeftOver(c: Call, source: File, e: Bytes, s: State)
    requires OnItsWay(c, source, e, s)
    ensures StepsLeft(s, |source.content|) >= 0
  {
  }

  // ----- faults strike anywhere, and the call is never stuck

  ghost predicate SameFiles(s: State, s': State) {
    s.src == s'.src && s.dst == s'.dst && s.tmp == s'.tmp
  }

  /** A step that a fault cuts off, before or right behind its effect on the files. */
  ghost predicate CutOff(c: Call, s: State, files: State) {
    exists staged, s' :: FaultStep(c, s, s', staged) && SameFiles(s', files) && (s'.phase.Cleanup? || s'.phase.Failed?)
  }

  predicate Staging(s: State) {
    s.phase.Copy? || s.phase.Sync? || s.phase.Verify? || s.phase.Compare? || s.phase.Restat? || s.phase.Measure?
    || s.phase.Publish?
  }

  /** The staging file is there from its opening to its publication, and reading and decoding are on their way. */
  ghost predicate Equipped(c: Call, s: State) {
    && (Staging(s) ==> s.tmp.Some?) && (s.phase.Copy? ==> s.remaining <= s.size)
    && (s.phase.Verify? && c.decode(s.tmp.value).Some? ==> s.checked <= c.decode(s.tmp.value).value)
    && (!s.phase.Done? && !s.phase.Cleanup? && !s.phase.Failed? ==> s.src.Some?)
  }

  lemma {:induction false} StaysEquipped(c: Call, late: bool, run: seq<State>, i: nat)
    requires IsRun(c, late, run) && i < |run|
    ensures Equipped(c, run[i])
    decreases i
  {
    if i > 0 {
      StaysEquipped(c, late, run, i - 1);
      var s, s' := run[i - 1], run[i - 1 + 1];
      assert Next(c, late, s, s');
      if staged, n :| CallStep(c, s, s', staged, n) { EquippedStep(c, s, s', staged, n); }
    }
  }

  lemma {:induction false} EquippedStep(c: Call, s: State, s': State, staged: Bytes, n: nat)
    requires Equipped(c, s) && CallStep(c, s, s', staged, n)
    ensures Equipped(c, s')
  {
  }

  /** Each step of the work that a run can take can be cut off before its effect and behind it. */
  lemma {:induction false} FaultsStrike(c: Call, s: State, s': State, staged: Bytes, n: nat)
    requires Equipped(c, s) && WorkStep(c, s, s', staged, n)
    ensures CutOff(c, s, s) && CutOff(c, s, s')
  {
    var before := if s.phase.Stat? || s.phase.Prepare? || s.phase.Open? then s.(phase := Failed) else Fail(s);
    var behind := if s.phase.Stat? || s.phase.Prepare? || s.phase.Open?
                  then s.(phase := Failed, tmp := s'.tmp)
                  else Fail(s.(src := s'.src, dst := s'.dst, tmp := s'.tmp));
    assert FaultStep(c, s, before, if s.tmp.Some? then s.tmp.value else []);
    assert FaultStep(c, s, behind, if s'.tmp.Some? then s'.tmp.value else []);
  }

  /** Whatever faults and writes of the producer have done to it, a run can go on until the call has ended. */
  lemma {:induction false} NeverStuck(c: Call, late: bool, run: seq<State>, i: nat)
    requires IsRun(c, late, run) && i < |run| && c.chunk > 0 && !run[i].phase.Done? && !run[i].phase.Failed?
    ensures exists s' :: GoesOn(c, run[i], s')
  {
    StaysEquipped(c, late, run, i);
    var s' := AnyNext(c, run[i]);
  }

  ghost predicate GoesOn(c: Call, s: State, s': State) {
    (exists staged, n :: WorkStep(c, s, s', staged, n)) || CleanupStep(s, s')
  }

  lemma {:induction false} AnyNext(c: Call, s: State) returns (s': State)
    requires Equipped(c, s) && c.chunk > 0 && !s.phase.Done? && !s.phase.Failed?
    ensures GoesOn(c, s, s')
  {
    var n := 1;
    match s.phase {
      case Stat => s' := s.(phase := Prepare, size := |s.src.value.content|, mtime := s.src.value.mtime);
      case Prepare => s' := s.(phase := Open, tmp := None);
      case Open => s' := s.(phase := Copy, tmp := Some([]), remaining := s.size, hashed := []);
      case Copy =>
        var content, offset := s.src.value.content, s.size - s.remaining;
        if s.remaining == 0 {
          s' := s.(phase := Sync);
        } else if offset >= |content| {
          s' := Fail(s);
        } else {
          s' := s.(tmp := Some([]), remaining := s.remaining - n, hashed := s.hashed + content[offset..offset + n]);
        }
        assert s.remaining > 0 ==> CopyStep(c, s, s', [], n);
      case Sync => s' := s.(phase := Verify, tmp := Some([]), checked := []);
      case Verify => s' := VerifyNext(c, s);
      case Compare => s' := if |s.checked| == s.size && s.checked == s.hashed then s.(phase := Restat) else Fail(s);
      case Restat =>
        s' := if |s.src.value.content| == s.size && s.src.value.mtime == s.mtime then s.(phase := Measure) else Fail(s);
      case Measure => s' := s.(phase := Publish);
      case Publish => s' := s.(phase := Stamp, dst := s.tmp, tmp := None);
      case Stamp => s' := s.(phase := Unlink);
      case Unlink => s' := s.(phase := Done, src := if c.keepOriginal then s.src else None);
      case Cleanup => s' := s.(phase := Failed, tmp := None);
    }
    assert WorkStep(c, s, s', [], n) || CleanupStep(s, s');
  }

  lemma {:induction false} VerifyNext(c: Call, s: State) returns (s': State)
    requires Equipped(c, s) && c.chunk > 0 && s.phase.Verify?
    ensures VerifyStep(c, s, s', 1)
  {
    match c.decode(s.tmp.value) {
      case None => s' := Fail(s);
      case Some(decoded) =>
        s' := if s.checked == decoded then s.(phase := Compare)
              else s.(checked := s.checked + decoded[|s.checked|..|s.checked| + 1]);
    }
  }

  // ----- where the guarantee ends

  /** A call that keeps the source never touches it, whenever the producer writes. */
  lemma {:induction false} KeptStays(c: Call, late: bool, run: seq<State>, i: nat)
    requires c.keepOriginal && IsRun(c, late, run) && i < |run|
    ensures run[i].src.Some? && run[i].src.value.content == run[i].latest
    decreases i
  {
    if i > 0 {
      KeptStays(c, late, run, i - 1);
      var s, s' := run[i - 1], run[i - 1 + 1];
      assert Next(c, late, s, s');
      if staged, n :| CallStep(c, s, s', staged, n) {
        KeptByStep(c, s, s', staged, n);
      }
    }
  }

  lemma {:induction false} KeptByStep(c: Call, s: State, s': State, staged: Bytes, n: nat)
    requires c.keepOriginal && CallStep(c, s, s', staged, n) && s.src.Some?
    ensures s'.src == s.src && s'.latest == s.latest
  {
  }

  lemma {:induction false} CalmIsNext(c: Call, late: bool, e: Bytes, s: State, s': State)
    requires CalmStep(c, e, s, s')
    ensures Next(c, late, s, s')
  {
    var staged, n :| CalmBy(c, e, s, s', staged, n);
    assert CallStep(c, s, s', staged, n);
  }

  /** A producer that writes `y` between the re-stat and the end of a call that deletes the source. */
  lemma {:induction false} LateWrite(c: Call, s: State, x: Bytes, y: Bytes, e: Bytes) returns (run: seq<State>)
    requires !c.keepOriginal && s.phase.Publish? && s.tmp == Some(e) && s.src.Some?
    requires c.decode(e) == Some(x) && x != y
    ensures |run| == 5 && run[0] == s && forall i | 0 <= i < 4 :: Next(c, true, run[i], run[i + 1])
    ensures !Safe(c, run[4])
  {
    var s1 := s.(src := Some(File(y, s.clock + 1)), clock := s.clock + 1, latest := y);
    var s2 := s1.(phase := Stamp, dst := s1.tmp, tmp := None);
    var s3 := s2.(phase := Unlink);
    var s4 := s3.(phase := Done, src := None);
    assert ProducerStep(s, s1, y, s.clock + 1);
    assert CallStep(c, s1, s2, [], 0) && CallStep(c, s2, s3, [], 0) && CallStep(c, s3, s4, [], 0);
    run := [s, s1, s2, s3, s4];
  }

  lemma {:induction false} LosingRun(c: Call, x: Bytes, e: Bytes) returns (run: seq<State>)
    requires !c.keepOriginal && Faithful(c, x, e)
    ensures IsRun(c, true, run) && !Safe(c, run[|run| - 1])
  {
    var source := File(x, 0);
    var start := State(Some(source), None, None, 0, x, Stat, 0, 0, 0, [], []);
    var calm := CarryOn(c, source, e, start, 3);
    var n := |calm| - 1;
    var late := LateWrite(c, calm[n], x, x + [0], e);
    run := calm + late[1..];
    forall i | 0 <= i < |run| - 1 ensures Next(c, true, run[i], run[i + 1]) {
      if i < n {
        CalmIsNext(c, true, e, calm[i], calm[i + 1]);
      } else {
        assert run[i] == late[i - n] && run[i + 1] == late[i - n + 1];
      }
    }
    assert run[|run| - 1] == late[4];
  }

  /** The last look at the source is where the guarantee ends: with any decoder that gives some content, of whatever
      length, no run loses a byte if and only if the producer never writes past the re-stat or the call keeps the
      source. */
  lemma {:induction false} SafeExactly(c: Call, late: bool, x: Bytes, e: Bytes)
    requires Faithful(c, x, e)
    ensures (forall run, i: nat | IsRun(c, late, run) && i < |run| :: Safe(c, run[i])) <==> !late || c.keepOriginal
  {
    if late && !c.keepOriginal {
      var run := LosingRun(c, x, e);
    } else {
      forall run, i: nat | IsRun(c, late, run) && i < |run| ensures Safe(c, run[i]) {
        if c.keepOriginal { KeptStays(c, late, run, i); } else { NothingLost(c, run, i); }
      }
    }
  }
}
