/** A value-level description of the stroke scheduling queue
    (libs/image/kis_strokes_queue.cpp).  Every operation of the queue is a
    function from the old queue state to the new one; the class in
    strokes_queue.dfy is proved to follow these functions, and the module
    StrokesProperties states what the queue promises about them. */
module StrokesModel {
  import opened Wrappers

  // ---------------------------------------------------------------------
  // Strokes, strategies and jobs, as far as the queue looks at them
  // ---------------------------------------------------------------------

  /** KisStroke::Type */
  datatype StrokeType = Legacy | Lod0 | LodN | Suspend | Resume

  /** What the queue asks of a stroke strategy: whether its stroke is
      exclusive, supports wrap-around mode, may be forgotten once finished,
      and may be suspended in favour of a newer LodN stroke. */
  datatype Strategy = Strategy(exclusive: bool, wrapAround: bool,
                               canForget: bool, supportsSuspension: bool)

  /** A queued job: an opaque tag for its data, plus the two properties the
      dispatcher inspects. */
  datatype Job = Job(tag: int, sequential: bool, barrier: bool)

  /** A stroke.  `id` stands for the identity of the shared KisStroke object;
      `buddy` is the id of the LodN buddy of a Lod0 stroke;
      `suspendRequests` records the ids of the LodN strokes this stroke was
      asked to suspend itself for. */
  datatype Stroke = Stroke(
    id: nat,
    kind: StrokeType,
    lod: int,
    strategy: Strategy,
    jobs: seq<Job>,
    ended: bool,
    cancelled: bool,
    initialized: bool,
    prevJobSequential: bool,
    buddy: Option<nat>,
    suspendRequests: seq<nat>)

  function NewStroke(id: nat, kind: StrokeType, lod: int, strategy: Strategy): Stroke
  {
    Stroke(id, kind, lod, strategy, [], false, false, false, false, None, [])
  }

  /** KisStroke::endStroke */
  function EndOne(s: Stroke): Stroke
  {
    s.(ended := true)
  }

  /** KisStroke::cancelStroke: the stroke counts as ended and cancelled, and
      its not yet dispatched jobs are dropped. */
  function CancelOne(s: Stroke): Stroke
  {
    s.(ended := true, cancelled := true, jobs := [])
  }

  /** KisStroke::addJob: a cancelled stroke accepts no more jobs. */
  function AddOneJob(s: Stroke, j: Job): Stroke
  {
    if s.cancelled then s else s.(jobs := s.jobs + [j])
  }

  /** KisStroke::popOneJob */
  function PopOneJob(s: Stroke): Stroke
    requires |s.jobs| > 0
  {
    s.(jobs := s.jobs[1..], initialized := true, prevJobSequential := s.jobs[0].sequential)
  }

  /** KisStroke::suspendStroke */
  function SuspendOne(s: Stroke, recipient: nat): Stroke
  {
    s.(suspendRequests := s.suspendRequests + [recipient])
  }

  predicate NextJobSequential(s: Stroke)
  {
    |s.jobs| > 0 && s.jobs[0].sequential
  }

  predicate NextJobBarrier(s: Stroke)
  {
    |s.jobs| > 0 && s.jobs[0].barrier
  }

  // ---------------------------------------------------------------------
  // Searches over the queue
  // ---------------------------------------------------------------------

  /** The index of the first stroke satisfying `p`, or |q| if none does. */
  function FirstIndex(q: seq<Stroke>, p: Stroke -> bool): (r: nat)
    ensures r <= |q|
    ensures forall k | 0 <= k < r :: !p(q[k])
    ensures r < |q| ==> p(q[r])
  {
    if q == [] then 0
    else if p(q[0]) then 0
    else 1 + FirstIndex(q[1..], p)
  }

  lemma {:induction false} FirstIndexUnique(q: seq<Stroke>, p: Stroke -> bool, i: nat)
    requires i <= |q|
    requires forall k | 0 <= k < i :: !p(q[k])
    requires i < |q| ==> p(q[i])
    ensures FirstIndex(q, p) == i
  {
  }

  predicate IsLodNAnchor(s: Stroke)
  {
    !s.cancelled && (s.kind == Lod0 || s.kind == Suspend || s.kind == Resume)
  }

  predicate IsLiveResume(s: Stroke)
  {
    !s.cancelled && s.kind == Resume
  }

  /** Private::findNewLodNPos, without its side effect on the head. */
  function FindNewLodNPos(q: seq<Stroke>): nat
  {
    FirstIndex(q, IsLodNAnchor)
  }

  /** Private::findNewLod0Pos */
  function FindNewLod0Pos(q: seq<Stroke>): nat
  {
    FirstIndex(q, IsLiveResume)
  }

  /** Private::canUseLodN */
  predicate CanUseLodN(q: seq<Stroke>)
  {
    forall i | 0 <= i < |q| :: q[i].kind != Legacy
  }

  /** Private::shouldWrapInSuspendUpdatesStroke */
  predicate ShouldWrapInSuspendUpdatesStroke(q: seq<Stroke>)
  {
    forall i | 0 <= i < |q| :: !IsLiveResume(q[i])
  }

  /** Private::hasUnfinishedStrokes */
  predicate HasUnfinishedStrokes(q: seq<Stroke>)
  {
    exists i | 0 <= i < |q| :: !q[i].ended
  }

  /** The loop at the head of Private::switchDesiredLevelOfDetail. */
  predicate OnlyLegacyStrokes(q: seq<Stroke>)
  {
    forall i | 0 <= i < |q| :: q[i].kind == Legacy
  }

  predicate ContainsLod0(q: seq<Stroke>)
  {
    exists i | 0 <= i < |q| :: q[i].kind == Lod0
  }

  /** The position of the stroke a handle refers to, or |q|. */
  function IndexOf(q: seq<Stroke>, id: nat): nat
  {
    FirstIndex(q, (s: Stroke) => s.id == id)
  }

  /** A handle (KisStrokeId, a weak pointer) resolves while its stroke is queued. */
  predicate Resolves(q: seq<Stroke>, id: nat)
  {
    IndexOf(q, id) < |q|
  }

  /** Apply `f` to the stroke with the given id, if it is queued. */
  function UpdateById(q: seq<Stroke>, id: nat, f: Stroke -> Stroke): (r: seq<Stroke>)
    ensures |r| == |q|
  {
    var i := IndexOf(q, id);
    if i < |q| then q[i := f(q[i])] else q
  }

  function InsertAt(q: seq<Stroke>, i: nat, s: Stroke): (r: seq<Stroke>)
    requires i <= |q|
    ensures |r| == |q| + 1 && r[i] == s
    ensures r[..i] == q[..i] && r[i + 1..] == q[i..]
  {
    q[..i] + [s] + q[i..]
  }

  /** Inserting in front of what was inserted at the same position. */
  lemma {:induction false} InsertAtSamePosition(q: seq<Stroke>, i: nat, xs: seq<Stroke>, y: Stroke)
    requires i <= |q|
    ensures i <= |q[..i] + xs + q[i..]|
    ensures InsertAt(q[..i] + xs + q[i..], i, y) == q[..i] + ([y] + xs) + q[i..]
  {
    var t := q[..i] + xs + q[i..];
    assert t[..i] == q[..i];
    assert t[i..] == xs + q[i..];
  }

  /** Replacing the stroke just inserted. */
  lemma {:induction false} ReplaceInserted(q: seq<Stroke>, i: nat, x: Stroke, rest: seq<Stroke>, y: Stroke)
    requires i <= |q|
    ensures (q[..i] + [x] + rest)[i := y] == q[..i] + [y] + rest
  {
  }

  /** The three inserts of the Suspend/Lod0/Resume bracket at one position,
      each of Suspend and Resume ended once it is queued, leave the three
      strokes consecutive at that position. */
  lemma {:induction false} BracketInserts(q: seq<Stroke>, i: nat, suspend: Stroke, lod0: Stroke, resume: Stroke,
                                          t1: seq<Stroke>, t2: seq<Stroke>, t3: seq<Stroke>, t4: seq<Stroke>,
                                          t5: seq<Stroke>)
    requires i <= |q|
    requires t1 == InsertAt(q, i, resume) && t2 == t1[i := EndOne(t1[i])]
    requires t3 == InsertAt(t2, i, lod0) && t4 == InsertAt(t3, i, suspend) && t5 == t4[i := EndOne(t4[i])]
    ensures t5 == q[..i] + [EndOne(suspend), lod0, EndOne(resume)] + q[i..]
  {
    InsertAtSamePosition(q, i, [], resume);
    assert q[..i] + [] + q[i..] == q;
    ReplaceInserted(q, i, resume, q[i..], EndOne(resume));
    InsertAtSamePosition(q, i, [EndOne(resume)], lod0);
    InsertAtSamePosition(q, i, [lod0, EndOne(resume)], suspend);
    ReplaceInserted(q, i, suspend, [lod0, EndOne(resume)] + q[i..], EndOne(suspend));
  }

  // ---------------------------------------------------------------------
  // The queue
  // ---------------------------------------------------------------------

  /** What lod0ToNStrokeStrategyFactory(forgettable) returns: the strategy of
      the synchronisation stroke and its jobs. */
  datatype SyncPair = SyncPair(strategy: Strategy, jobs: seq<Job>)

  /** The LOD synchronisation factory, given by its answers for both values
      of its `forgettable` argument. */
  datatype SyncFactory = SyncFactory(forgettable: SyncPair, regular: SyncPair)

  /** KisStrokesQueue::Private.  `nextId` supplies fresh stroke identities. */
  datatype QueueState = QueueState(
    strokes: seq<Stroke>,
    openedStrokesCounter: int,
    needsExclusiveAccess: bool,
    wrapAroundModeSupported: bool,
    lodNNeedsSynchronization: bool,
    desiredLevelOfDetail: int,
    nextDesiredLevelOfDetail: int,
    lod0ToNFactory: Option<SyncFactory>,
    suspendFactory: Strategy,
    resumeFactory: Strategy,
    nextId: nat)

  /** The constructor of KisStrokesQueue::Private. */
  function InitialState(suspendFactory: Strategy, resumeFactory: Strategy): QueueState
  {
    QueueState([], 0, false, false, true, 0, 0, None, suspendFactory, resumeFactory, 0)
  }

  /** Private::startLod0ToNStroke */
  function StartLod0ToNStroke(s: QueueState, levelOfDetail: int, forgettable: bool): (r: QueueState)
    ensures |r.strokes| <= |s.strokes| + 1
    ensures r.desiredLevelOfDetail == s.desiredLevelOfDetail
    ensures r.nextDesiredLevelOfDetail == s.nextDesiredLevelOfDetail
  {
    if levelOfDetail == 0 || s.lod0ToNFactory.None? then s
    else
      var pair := if forgettable then s.lod0ToNFactory.value.forgettable
                  else s.lod0ToNFactory.value.regular;
      var sync := NewStroke(s.nextId, LodN, levelOfDetail, pair.strategy).(jobs := pair.jobs, ended := true);
      s.(strokes := s.strokes + [sync], nextId := s.nextId + 1, lodNNeedsSynchronization := false)
  }

  /** Private::cancelForgettableStrokes */
  function CancelForgettableStrokes(q: seq<Stroke>): (r: seq<Stroke>)
    ensures |r| == |q|
  {
    if |q| > 0 && !HasUnfinishedStrokes(q) then
      seq(|q|, i requires 0 <= i < |q| => if q[i].strategy.canForget then CancelOne(q[i]) else q[i])
    else q
  }

  /** What findNewLodNPos does to the head: a head that is the insertion
      point and supports suspension is asked to suspend for the new LodN. */
  function SuspendHeadFor(q: seq<Stroke>, pos: nat, lodN: nat): seq<Stroke>
  {
    if pos == 0 && |q| > 0 && q[0].strategy.supportsSuspension then q[0 := SuspendOne(q[0], lodN)]
    else q
  }

  /** Whether startStroke creates a buddy pair. */
  predicate UsesLodN(s: QueueState, lodClone: Option<Strategy>)
  {
    s.desiredLevelOfDetail != 0 && CanUseLodN(s.strokes) && lodClone.Some?
  }

  /** The state startStroke has reached when it creates the pair: forgettable
      strokes cancelled and, if the LOD cache is stale, the sync stroke queued. */
  function PairPrelude(s: QueueState): QueueState
  {
    var s1 := s.(strokes := CancelForgettableStrokes(s.strokes));
    if s1.lodNNeedsSynchronization then StartLod0ToNStroke(s1, s1.desiredLevelOfDetail, false) else s1
  }

  /** The queue after the LodN buddy has been placed. */
  function WithLodNBuddy(s: QueueState, lodClone: Strategy): seq<Stroke>
  {
    var pos := FindNewLodNPos(s.strokes);
    var lodN := NewStroke(s.nextId, LodN, s.desiredLevelOfDetail, lodClone);
    InsertAt(SuspendHeadFor(s.strokes, pos, lodN.id), pos, lodN)
  }

  /** The buddy-pair branch of startStroke, from the state PairPrelude reached:
      the LodN buddy is placed, then the Lod0 stroke. */
  function AdmitPair(s2: QueueState, strategy: Strategy, lodClone: Strategy): (QueueState, nat)
  {
    PlaceLod0(s2.(strokes := WithLodNBuddy(s2, lodClone)), strategy)
  }

  /** The Lod0 stroke of a pair whose LodN buddy (id `s.nextId`) is queued:
      bracketed by a Suspend and a Resume stroke when no non-cancelled Resume
      stroke is queued, inserted before the first one otherwise. */
  function PlaceLod0(s: QueueState, strategy: Strategy): (QueueState, nat)
  {
    var lod0 := NewStroke(s.nextId + 1, Lod0, 0, strategy).(buddy := Some(s.nextId));
    var q := s.strokes;
    if ShouldWrapInSuspendUpdatesStroke(q) then
      var suspend := NewStroke(s.nextId + 2, Suspend, 0, s.suspendFactory).(ended := true);
      var resume := NewStroke(s.nextId + 3, Resume, 0, s.resumeFactory).(ended := true);
      var p := FindNewLod0Pos(q);
      (s.(strokes := q[..p] + [suspend, lod0, resume] + q[p..],
          nextId := s.nextId + 4,
          openedStrokesCounter := s.openedStrokesCounter + 1), lod0.id)
    else
      (s.(strokes := InsertAt(q, FindNewLod0Pos(q), lod0),
          nextId := s.nextId + 2,
          openedStrokesCounter := s.openedStrokesCounter + 1), lod0.id)
  }

  /** The Legacy branch of startStroke: the stroke goes to the tail and the
      LOD cache is marked stale. */
  function AdmitLegacy(s1: QueueState, strategy: Strategy): (QueueState, nat)
  {
    var legacy := NewStroke(s1.nextId, Legacy, 0, strategy);
    (s1.(strokes := s1.strokes + [legacy],
         nextId := s1.nextId + 1,
         openedStrokesCounter := s1.openedStrokesCounter + 1,
         lodNNeedsSynchronization := true), legacy.id)
  }

  /** KisStrokesQueue::startStroke: the new state and the handle of the
      stroke given to the caller.  `lodClone` is what
      strategy->createLodClone(desiredLevelOfDetail) returns. */
  function StartStroke(s: QueueState, strategy: Strategy, lodClone: Option<Strategy>): (QueueState, nat)
  {
    var s1 := s.(strokes := CancelForgettableStrokes(s.strokes));
    if UsesLodN(s1, lodClone) then AdmitPair(PairPrelude(s), strategy, lodClone.value)
    else AdmitLegacy(s1, strategy)
  }

  /** KisStrokesQueue::addJob.  `lodClone` is what
      data->createLodClone(buddy LOD) returns. */
  function AddJob(s: QueueState, id: nat, job: Job, lodClone: Option<Job>): QueueState
    requires Resolves(s.strokes, id)
  {
    var i := IndexOf(s.strokes, id);
    var stroke := s.strokes[i];
    if stroke.buddy.Some? then
      if lodClone.None? then s
      else
        var q := UpdateById(s.strokes, stroke.buddy.value, (b: Stroke) => AddOneJob(b, lodClone.value));
        s.(strokes := q[i := AddOneJob(q[i], job)])
    else
      s.(strokes := s.strokes[i := AddOneJob(stroke, job)])
  }

  /** KisStrokesQueue::endStroke */
  function EndStroke(s: QueueState, id: nat): QueueState
    requires Resolves(s.strokes, id)
  {
    var i := IndexOf(s.strokes, id);
    var stroke := s.strokes[i];
    var q := s.strokes[i := EndOne(stroke)];
    s.(strokes := if stroke.buddy.Some? then UpdateById(q, stroke.buddy.value, EndOne) else q,
       openedStrokesCounter := s.openedStrokesCounter - 1)
  }

  /** KisStrokesQueue::cancelStroke: the new state and whether the handle resolved. */
  function CancelStroke(s: QueueState, id: nat): (QueueState, bool)
  {
    if !Resolves(s.strokes, id) then (s, false)
    else
      var i := IndexOf(s.strokes, id);
      var stroke := s.strokes[i];
      var q := s.strokes[i := CancelOne(stroke)];
      (s.(strokes := if stroke.buddy.Some? then UpdateById(q, stroke.buddy.value, CancelOne) else q,
          openedStrokesCounter := s.openedStrokesCounter - 1), true)
  }

  function CancelAll(q: seq<Stroke>): (r: seq<Stroke>)
    ensures |r| == |q|
  {
    seq(|q|, i requires 0 <= i < |q| => CancelOne(q[i]))
  }

  /** KisStrokesQueue::tryCancelCurrentStrokeAsync */
  function TryCancelCurrentStrokeAsync(s: QueueState): (QueueState, bool)
  {
    if |s.strokes| > 0 && !HasUnfinishedStrokes(s.strokes) then
      (s.(strokes := CancelAll(s.strokes),
          lodNNeedsSynchronization := s.lodNNeedsSynchronization || ContainsLod0(s.strokes)), true)
    else (s, false)
  }

  /** 1 while a requested LOD change has not been applied yet. */
  function PendingSwitch(s: QueueState): nat
  {
    if s.desiredLevelOfDetail != s.nextDesiredLevelOfDetail then 1 else 0
  }

  /** Private::switchDesiredLevelOfDetail */
  function SwitchDesiredLevelOfDetail(s: QueueState, forced: bool): (r: QueueState)
    ensures !forced ==> |r.strokes| + PendingSwitch(r) <= |s.strokes| + PendingSwitch(s)
  {
    if forced || s.nextDesiredLevelOfDetail != s.desiredLevelOfDetail then
      if !OnlyLegacyStrokes(s.strokes) then s
      else
        var forgettable := forced && !s.lodNNeedsSynchronization
                           && s.desiredLevelOfDetail == s.nextDesiredLevelOfDetail;
        var s1 := s.(desiredLevelOfDetail := s.nextDesiredLevelOfDetail,
                     lodNNeedsSynchronization := s.lodNNeedsSynchronization || !forgettable);
        if s1.desiredLevelOfDetail != 0 then StartLod0ToNStroke(s1, s1.desiredLevelOfDetail, forgettable)
        else s1
    else s
  }

  /** KisStrokesQueue::setDesiredLevelOfDetail */
  function SetDesiredLevelOfDetail(s: QueueState, lod: int): QueueState
  {
    if lod == s.nextDesiredLevelOfDetail then s
    else SwitchDesiredLevelOfDetail(s.(nextDesiredLevelOfDetail := lod), false)
  }

  /** KisStrokesQueue::explicitRegenerateLevelOfDetail */
  function ExplicitRegenerateLevelOfDetail(s: QueueState): QueueState
  {
    SwitchDesiredLevelOfDetail(s, true)
  }

  /** KisStrokesQueue::notifyUFOChangedImage */
  function NotifyUFOChangedImage(s: QueueState): QueueState
  {
    s.(lodNNeedsSynchronization := true)
  }

  /** KisStrokesQueue::checkLevelOfDetailProperty */
  predicate LevelOfDetailCompatible(head: Stroke, runningLevelOfDetail: int)
  {
    runningLevelOfDetail < 0 || head.lod == runningLevelOfDetail
  }

  /** KisStrokesQueue::checkExclusiveProperty */
  predicate ExclusiveAllows(head: Stroke, numMergeJobs: nat)
  {
    !head.strategy.exclusive || numMergeJobs == 0
  }

  /** KisStrokesQueue::checkSequentialProperty */
  predicate SequentialAllows(head: Stroke, numStrokeJobs: nat)
  {
    !(head.prevJobSequential || NextJobSequential(head)) || numStrokeJobs == 0
  }

  /** KisStrokesQueue::checkBarrierProperty */
  predicate BarrierAllows(head: Stroke, numMergeJobs: nat, numStrokeJobs: nat, externalJobsPending: bool)
  {
    !NextJobBarrier(head) || (numMergeJobs == 0 && numStrokeJobs == 0 && !externalJobsPending)
  }

  /** The head may hand out a job as far as checkStrokeState is concerned. */
  predicate HeadReady(q: seq<Stroke>, runningLevelOfDetail: int)
  {
    |q| > 0 && |q[0].jobs| > 0 && LevelOfDetailCompatible(q[0], runningLevelOfDetail)
  }

  /** KisStrokesQueue::checkStrokeState, recursion included. */
  function CheckStrokeState(s: QueueState, hasStrokeJobsRunning: bool, runningLevelOfDetail: int): (r: (QueueState, bool))
    requires |s.strokes| > 0
    ensures r.1 <==> HeadReady(r.0.strokes, runningLevelOfDetail)
    decreases |s.strokes| + PendingSwitch(s)
  {
    var head := s.strokes[0];
    var hasLodCompatibility := LevelOfDetailCompatible(head, runningLevelOfDetail);
    var hasJobs := |head.jobs| > 0;
    if !head.initialized && hasJobs && hasLodCompatibility then
      (s.(needsExclusiveAccess := head.strategy.exclusive,
          wrapAroundModeSupported := head.strategy.wrapAround), true)
    else if hasJobs && hasLodCompatibility then
      (s, true)
    else if head.ended && !hasJobs && !hasStrokeJobsRunning then
      var s1 := SwitchDesiredLevelOfDetail(
        s.(strokes := s.strokes[1..], needsExclusiveAccess := false, wrapAroundModeSupported := false), false);
      if |s1.strokes| > 0 then CheckStrokeState(s1, false, runningLevelOfDetail) else (s1, false)
    else
      (s, false)
  }

  /** A job handed to the updater context, with the LOD it works on. */
  datatype Dispatched = Dispatched(job: Job, lod: int)

  /** KisStrokesQueue::processOneJob: the new state and the job handed out, if any. */
  function ProcessOneJob(s: QueueState, numMergeJobs: nat, numStrokeJobs: nat,
                         runningLevelOfDetail: int, externalJobsPending: bool): (QueueState, Option<Dispatched>)
  {
    if |s.strokes| == 0 then (s, None)
    else
      var (s1, ok) := CheckStrokeState(s, numStrokeJobs != 0, runningLevelOfDetail);
      if ok
         && ExclusiveAllows(s1.strokes[0], numMergeJobs)
         && SequentialAllows(s1.strokes[0], numStrokeJobs)
         && BarrierAllows(s1.strokes[0], numMergeJobs, numStrokeJobs, externalJobsPending) then
        var head := s1.strokes[0];
        (s1.(strokes := s1.strokes[0 := PopOneJob(head)]), Some(Dispatched(head.jobs[0], head.lod)))
      else (s1, None)
  }

  /** What the queue sees of KisUpdaterContext: free threads, running merge
      and stroke jobs, and the LOD running on the CPU (negative: none). */
  datatype UpdaterContext = UpdaterContext(spareThreads: nat, mergeJobs: nat, strokeJobs: nat, levelOfDetail: int)

  /** KisUpdaterContext::addStrokeJob, as the queue sees it. */
  function AddStrokeJob(ctx: UpdaterContext, d: Dispatched): UpdaterContext
    requires ctx.spareThreads > 0
  {
    ctx.(spareThreads := ctx.spareThreads - 1, strokeJobs := ctx.strokeJobs + 1, levelOfDetail := d.lod)
  }

  /** KisStrokesQueue::processQueue: dispatch while a thread is free and a job is admissible. */
  function ProcessQueue(s: QueueState, ctx: UpdaterContext, externalJobsPending: bool): (QueueState, seq<Dispatched>)
    decreases ctx.spareThreads
  {
    if ctx.spareThreads == 0 then (s, [])
    else
      var (s1, d) := ProcessOneJob(s, ctx.mergeJobs, ctx.strokeJobs, ctx.levelOfDetail, externalJobsPending);
      if d.None? then (s1, [])
      else
        var (s2, ds) := ProcessQueue(s1, AddStrokeJob(ctx, d.value), externalJobsPending);
        (s2, [d.value] + ds)
  }

  /** KisStrokesQueue::sizeMetric */
  function SizeMetric(q: seq<Stroke>): int
  {
    if |q| == 0 then 0
    else (if |q[0].jobs| > 1 then |q[0].jobs| else 1) * |q|
  }

  /** KisStrokesQueue::hasOpenedStrokes */
  predicate HasOpenedStrokes(s: QueueState)
  {
    s.openedStrokesCounter != 0
  }
}
