/** KisStrokesQueue (libs/image/kis_strokes_queue.cpp) as an object whose
    fields are those of KisStrokesQueue::Private.  Every method is proved to
    leave the object in the state the matching function of StrokesModel
    computes from the old one, so what StrokesProperties proves about those
    functions holds of the object. */
module StrokesQueueImpl {
  import opened Wrappers
  import opened StrokesModel
  import StrokesProperties

  class StrokesQueue {
    var strokes: seq<Stroke>
    var openedStrokesCounter: int
    var needsExclusiveAccess: bool
    var wrapAroundModeSupported: bool
    var lodNNeedsSynchronization: bool
    var desiredLevelOfDetail: int
    var nextDesiredLevelOfDetail: int
    var lod0ToNFactory: Option<SyncFactory>
    var suspendFactory: Strategy
    var resumeFactory: Strategy
    var nextId: nat

    /** The object's state as a value of the model. */
    function State(): QueueState
      reads this
    {
      QueueState(strokes, openedStrokesCounter, needsExclusiveAccess, wrapAroundModeSupported,
                 lodNNeedsSynchronization, desiredLevelOfDetail, nextDesiredLevelOfDetail,
                 lod0ToNFactory, suspendFactory, resumeFactory, nextId)
    }

    /** The suspend and resume factories are the strategies their calls
        produce. */
    constructor(suspendFactory: Strategy, resumeFactory: Strategy)
      ensures State() == InitialState(suspendFactory, resumeFactory)
    {
      strokes := [];
      openedStrokesCounter := 0;
      needsExclusiveAccess := false;
      wrapAroundModeSupported := false;
      lodNNeedsSynchronization := true;
      desiredLevelOfDetail := 0;
      nextDesiredLevelOfDetail := 0;
      lod0ToNFactory := None;
      this.suspendFactory := suspendFactory;
      this.resumeFactory := resumeFactory;
      nextId := 0;
    }

    /** The destructor cancels every queued stroke. */
    method Destroy()
      modifies this
      ensures State() == old(State()).(strokes := CancelAll(old(strokes)))
    {
      var i := 0;
      while i < |strokes|
        invariant 0 <= i <= |strokes| == |old(strokes)|
        invariant forall k | 0 <= k < i :: strokes[k] == CancelOne(old(strokes)[k])
        invariant forall k | i <= k < |strokes| :: strokes[k] == old(strokes)[k]
        invariant State() == old(State()).(strokes := strokes)
      {
        strokes := strokes[i := CancelOne(strokes[i])];
        i := i + 1;
      }
    }

    method SetLod0ToNStrokeStrategyFactory(factory: Option<SyncFactory>)
      modifies this
      ensures State() == old(State()).(lod0ToNFactory := factory)
    {
      lod0ToNFactory := factory;
    }

    method SetSuspendUpdatesStrokeStrategyFactory(factory: Strategy)
      modifies this
      ensures State() == old(State()).(suspendFactory := factory)
    {
      suspendFactory := factory;
    }

    method SetResumeUpdatesStrokeStrategyFactory(factory: Strategy)
      modifies this
      ensures State() == old(State()).(resumeFactory := factory)
    {
      resumeFactory := factory;
    }

    // -------------------------------------------------------------------
    // Scans over the queue (const members of Private)
    // -------------------------------------------------------------------

    /** Private::hasUnfinishedStrokes */
    method HasUnfinishedStrokes() returns (b: bool)
      ensures b <==> exists i | 0 <= i < |strokes| :: !strokes[i].ended
    {
      var i := 0;
      while i < |strokes|
        invariant 0 <= i <= |strokes|
        invariant forall k | 0 <= k < i :: strokes[k].ended
      {
        if !strokes[i].ended {
          return true;
        }
        i := i + 1;
      }
      return false;
    }

    /** Private::canUseLodN */
    method CanUseLodN() returns (b: bool)
      ensures b <==> forall i | 0 <= i < |strokes| :: strokes[i].kind != Legacy
    {
      var i := 0;
      while i < |strokes|
        invariant 0 <= i <= |strokes|
        invariant forall k | 0 <= k < i :: strokes[k].kind != Legacy
      {
        if strokes[i].kind == Legacy {
          return false;
        }
        i := i + 1;
      }
      return true;
    }

    /** Private::shouldWrapInSuspendUpdatesStroke */
    method ShouldWrapInSuspendUpdatesStroke() returns (b: bool)
      ensures b <==> forall i | 0 <= i < |strokes| :: strokes[i].cancelled || strokes[i].kind != Resume
    {
      var i := 0;
      while i < |strokes|
        invariant 0 <= i <= |strokes|
        invariant forall k | 0 <= k < i :: strokes[k].cancelled || strokes[k].kind != Resume
      {
        if !strokes[i].cancelled && strokes[i].kind == Resume {
          return false;
        }
        i := i + 1;
      }
      return true;
    }

    /** Private::findNewLod0Pos: the position of the first non-cancelled
        Resume stroke, or the end of the queue. */
    method FindNewLod0Pos() returns (pos: nat)
      ensures pos <= |strokes|
      ensures forall k | 0 <= k < pos :: strokes[k].cancelled || strokes[k].kind != Resume
      ensures pos < |strokes| ==> !strokes[pos].cancelled && strokes[pos].kind == Resume
      ensures pos == StrokesModel.FindNewLod0Pos(strokes)
    {
      pos := 0;
      while pos < |strokes|
        invariant pos <= |strokes|
        invariant forall k | 0 <= k < pos :: !IsLiveResume(strokes[k])
      {
        if !strokes[pos].cancelled && strokes[pos].kind == Resume {
          break;
        }
        pos := pos + 1;
      }
      FirstIndexUnique(strokes, IsLiveResume, pos);
    }

    /** The position of the stroke a handle refers to (KisStrokeId::toStrongRef),
        or the end of the queue when the handle no longer resolves. */
    method Lookup(id: nat) returns (i: nat)
      ensures i <= |strokes|
      ensures forall k | 0 <= k < i :: strokes[k].id != id
      ensures i < |strokes| ==> strokes[i].id == id
      ensures i == IndexOf(strokes, id)
    {
      i := 0;
      while i < |strokes| && strokes[i].id != id
        invariant i <= |strokes|
        invariant forall k | 0 <= k < i :: strokes[k].id != id
      {
        i := i + 1;
      }
      FirstIndexUnique(strokes, (s: Stroke) => s.id == id, i);
    }

    // -------------------------------------------------------------------
    // Private's updating members
    // -------------------------------------------------------------------

    /** Private::findNewLodNPos: the position of the first non-cancelled
        Lod0, Suspend or Resume stroke, or the end; a head at that position
        that supports suspension is asked to suspend for `lodN`. */
    method FindNewLodNPos(lodN: nat) returns (pos: nat)
      modifies this
      ensures pos == StrokesModel.FindNewLodNPos(old(strokes))
      ensures State() == old(State()).(strokes := SuspendHeadFor(old(strokes), pos, lodN))
    {
      pos := 0;
      while pos < |strokes|
        invariant pos <= |strokes|
        invariant forall k | 0 <= k < pos :: !IsLodNAnchor(strokes[k])
        invariant State() == old(State())
      {
        var st := strokes[pos];
        if !st.cancelled && (st.kind == Lod0 || st.kind == Suspend || st.kind == Resume) {
          if pos == 0 && st.strategy.supportsSuspension {
            strokes := strokes[0 := SuspendOne(st, lodN)];
          }
          FirstIndexUnique(old(strokes), IsLodNAnchor, pos);
          return;
        }
        pos := pos + 1;
      }
      FirstIndexUnique(old(strokes), IsLodNAnchor, pos);
    }

    /** Private::startLod0ToNStroke */
    method StartLod0ToNStroke(levelOfDetail: int, forgettable: bool)
      modifies this
      ensures State() == StrokesModel.StartLod0ToNStroke(old(State()), levelOfDetail, forgettable)
    {
      if levelOfDetail == 0 {
        return;
      }
      if lod0ToNFactory.None? {
        return;
      }
      var pair := if forgettable then lod0ToNFactory.value.forgettable else lod0ToNFactory.value.regular;
      var sync := NewStroke(nextId, LodN, levelOfDetail, pair.strategy);
      nextId := nextId + 1;
      var n := |strokes|;
      strokes := strokes + [sync];
      for j := 0 to |pair.jobs|
        invariant |strokes| == n + 1
        invariant strokes[..n] == old(strokes)
        invariant strokes[n] == sync.(jobs := pair.jobs[..j])
        invariant State() == old(State()).(strokes := strokes, nextId := old(nextId) + 1)
      {
        strokes := strokes[n := AddOneJob(strokes[n], pair.jobs[j])];
        assert pair.jobs[..j + 1] == pair.jobs[..j] + [pair.jobs[j]];
      }
      assert pair.jobs[..|pair.jobs|] == pair.jobs;
      strokes := strokes[n := EndOne(strokes[n])];
      assert strokes == old(strokes) + [sync.(jobs := pair.jobs, ended := true)];
      lodNNeedsSynchronization := false;
    }

    /** Private::cancelForgettableStrokes */
    method CancelForgettableStrokes()
      modifies this
      ensures State() == old(State()).(strokes := StrokesModel.CancelForgettableStrokes(old(strokes)))
    {
      if |strokes| == 0 {
        return;
      }
      var unfinished := HasUnfinishedStrokes();
      if unfinished {
        return;
      }
      var i := 0;
      while i < |strokes|
        invariant 0 <= i <= |strokes| == |old(strokes)|
        invariant forall k | 0 <= k < i ::
          strokes[k] == (if old(strokes)[k].strategy.canForget then CancelOne(old(strokes)[k]) else old(strokes)[k])
        invariant forall k | i <= k < |strokes| :: strokes[k] == old(strokes)[k]
        invariant State() == old(State()).(strokes := strokes)
      {
        if strokes[i].strategy.canForget {
          strokes := strokes[i := CancelOne(strokes[i])];
        }
        i := i + 1;
      }
      assert strokes == StrokesModel.CancelForgettableStrokes(old(strokes));
    }

    /** Private::switchDesiredLevelOfDetail */
    method SwitchDesiredLevelOfDetail(forced: bool)
      modifies this
      ensures State() == StrokesModel.SwitchDesiredLevelOfDetail(old(State()), forced)
    {
      if forced || nextDesiredLevelOfDetail != desiredLevelOfDetail {
        var i := 0;
        while i < |strokes|
          invariant 0 <= i <= |strokes|
          invariant forall k | 0 <= k < i :: strokes[k].kind == Legacy
        {
          if strokes[i].kind != Legacy {
            return;
          }
          i := i + 1;
        }
        var forgettable := forced && !lodNNeedsSynchronization
                           && desiredLevelOfDetail == nextDesiredLevelOfDetail;
        desiredLevelOfDetail := nextDesiredLevelOfDetail;
        lodNNeedsSynchronization := lodNNeedsSynchronization || !forgettable;
        if desiredLevelOfDetail != 0 {
          StartLod0ToNStroke(desiredLevelOfDetail, forgettable);
        }
      }
    }

    // -------------------------------------------------------------------
    // Public members
    // -------------------------------------------------------------------

    /** KisStrokesQueue::startStroke */
    method StartStroke(strategy: Strategy, lodClone: Option<Strategy>) returns (id: nat)
      modifies this
      ensures (State(), id) == StrokesModel.StartStroke(old(State()), strategy, lodClone)
    {
      CancelForgettableStrokes();
      var canUseLodN := CanUseLodN();
      if desiredLevelOfDetail != 0 && canUseLodN && lodClone.Some? {
        if lodNNeedsSynchronization {
          StartLod0ToNStroke(desiredLevelOfDetail, false);
        }
        id := AdmitPair(strategy, lodClone.value);
      } else {
        id := AdmitLegacy(strategy);
      }
    }

    /** The buddy-pair branch of startStroke: the LodN buddy, then the Lod0
        stroke. */
    method AdmitPair(strategy: Strategy, lodClone: Strategy) returns (id: nat)
      modifies this
      ensures (State(), id) == StrokesModel.AdmitPair(old(State()), strategy, lodClone)
    {
      var buddy := NewStroke(nextId, LodN, desiredLevelOfDetail, lodClone);
      var lodNPos := FindNewLodNPos(buddy.id);
      strokes := InsertAt(strokes, lodNPos, buddy);
      assert State() == old(State()).(strokes := WithLodNBuddy(old(State()), lodClone));
      id := PlaceLod0(strategy);
    }

    /** The Lod0 stroke of the pair, with a Suspend/Resume bracket when no
        Resume is queued. */
    method PlaceLod0(strategy: Strategy) returns (id: nat)
      modifies this
      ensures (State(), id) == StrokesModel.PlaceLod0(old(State()), strategy)
    {
      var wrap := ShouldWrapInSuspendUpdatesStroke();
      if wrap {
        id := BracketLod0(strategy);
      } else {
        var base := nextId;
        var stroke := NewStroke(base + 1, Lod0, 0, strategy).(buddy := Some(base));
        var pos := FindNewLod0Pos();
        strokes := InsertAt(strokes, pos, stroke);
        nextId := base + 2;
        openedStrokesCounter := openedStrokesCounter + 1;
        id := stroke.id;
      }
    }

    /** The three inserts at findNewLod0Pos: the Resume stroke, then the
        Lod0 stroke before it, then the Suspend stroke before that; the
        Suspend and Resume strokes are ended as soon as they are queued. */
    method BracketLod0(strategy: Strategy) returns (id: nat)
      requires StrokesModel.ShouldWrapInSuspendUpdatesStroke(strokes)
      modifies this
      ensures (State(), id) == StrokesModel.PlaceLod0(old(State()), strategy)
    {
      var base := nextId;
      var stroke := NewStroke(base + 1, Lod0, 0, strategy).(buddy := Some(base));
      var suspend := NewStroke(base + 2, Suspend, 0, suspendFactory);
      var resume := NewStroke(base + 3, Resume, 0, resumeFactory);
      var it := FindNewLod0Pos();
      var q := strokes;
      var t1 := InsertAt(q, it, resume);
      var t2 := t1[it := EndOne(t1[it])];
      var t3 := InsertAt(t2, it, stroke);
      var t4 := InsertAt(t3, it, suspend);
      var t := t4[it := EndOne(t4[it])];
      BracketInserts(q, it, suspend, stroke, resume, t1, t2, t3, t4, t);
      strokes := t;
      nextId := base + 4;
      openedStrokesCounter := openedStrokesCounter + 1;
      id := stroke.id;
      assert StrokesModel.PlaceLod0(old(State()), strategy)
             == (old(State()).(strokes := strokes, nextId := base + 4,
                               openedStrokesCounter := old(openedStrokesCounter) + 1), id);
    }

    /** The Legacy branch of startStroke. */
    method AdmitLegacy(strategy: Strategy) returns (id: nat)
      modifies this
      ensures (State(), id) == StrokesModel.AdmitLegacy(old(State()), strategy)
    {
      var stroke := NewStroke(nextId, Legacy, 0, strategy);
      strokes := strokes + [stroke];
      nextId := nextId + 1;
      openedStrokesCounter := openedStrokesCounter + 1;
      lodNNeedsSynchronization := true;
      id := stroke.id;
    }

    /** KisStrokesQueue::addJob.  `lodClone` is what the job data's
        createLodClone returns for the buddy's LOD. */
    method AddJob(id: nat, job: Job, lodClone: Option<Job>)
      requires Resolves(strokes, id)
      modifies this
      ensures State() == StrokesModel.AddJob(old(State()), id, job, lodClone)
    {
      var i := Lookup(id);
      var stroke := strokes[i];
      if stroke.buddy.Some? {
        if lodClone.None? {
          return;
        }
        var j := Lookup(stroke.buddy.value);
        if j < |strokes| {
          strokes := strokes[j := AddOneJob(strokes[j], lodClone.value)];
        }
      }
      strokes := strokes[i := AddOneJob(strokes[i], job)];
    }

    /** KisStrokesQueue::endStroke */
    method EndStroke(id: nat)
      requires Resolves(strokes, id)
      modifies this
      ensures State() == StrokesModel.EndStroke(old(State()), id)
    {
      var i := Lookup(id);
      var stroke := strokes[i];
      strokes := strokes[i := EndOne(stroke)];
      openedStrokesCounter := openedStrokesCounter - 1;
      if stroke.buddy.Some? {
        var j := Lookup(stroke.buddy.value);
        if j < |strokes| {
          strokes := strokes[j := EndOne(strokes[j])];
        }
      }
    }

    /** KisStrokesQueue::cancelStroke: whether the handle still resolved. */
    method CancelStroke(id: nat) returns (resolved: bool)
      modifies this
      ensures (State(), resolved) == StrokesModel.CancelStroke(old(State()), id)
    {
      var i := Lookup(id);
      if i == |strokes| {
        return false;
      }
      var stroke := strokes[i];
      strokes := strokes[i := CancelOne(stroke)];
      openedStrokesCounter := openedStrokesCounter - 1;
      if stroke.buddy.Some? {
        var j := Lookup(stroke.buddy.value);
        if j < |strokes| {
          strokes := strokes[j := CancelOne(strokes[j])];
        }
      }
      return true;
    }

    /** KisStrokesQueue::tryCancelCurrentStrokeAsync */
    method TryCancelCurrentStrokeAsync() returns (anythingCanceled: bool)
      modifies this
      ensures (State(), anythingCanceled) == StrokesModel.TryCancelCurrentStrokeAsync(old(State()))
    {
      anythingCanceled := false;
      if |strokes| == 0 {
        return;
      }
      var unfinished := HasUnfinishedStrokes();
      if unfinished {
        return;
      }
      anythingCanceled := true;
      var i := 0;
      while i < |strokes|
        invariant 0 <= i <= |strokes| == |old(strokes)|
        invariant forall k | 0 <= k < i :: strokes[k] == CancelOne(old(strokes)[k])
        invariant forall k | i <= k < |strokes| :: strokes[k] == old(strokes)[k]
        invariant lodNNeedsSynchronization
                  == (old(lodNNeedsSynchronization) || exists k | 0 <= k < i :: old(strokes)[k].kind == Lod0)
        invariant State() == old(State()).(strokes := strokes, lodNNeedsSynchronization := lodNNeedsSynchronization)
      {
        var kind := strokes[i].kind;
        strokes := strokes[i := CancelOne(strokes[i])];
        if kind == Lod0 {
          lodNNeedsSynchronization := true;
        }
        i := i + 1;
      }
      assert strokes == CancelAll(old(strokes));
    }

    /** KisStrokesQueue::setDesiredLevelOfDetail */
    method SetDesiredLevelOfDetail(lod: int)
      modifies this
      ensures State() == StrokesModel.SetDesiredLevelOfDetail(old(State()), lod)
    {
      if lod == nextDesiredLevelOfDetail {
        return;
      }
      nextDesiredLevelOfDetail := lod;
      SwitchDesiredLevelOfDetail(false);
    }

    /** KisStrokesQueue::explicitRegenerateLevelOfDetail */
    method ExplicitRegenerateLevelOfDetail()
      modifies this
      ensures State() == StrokesModel.ExplicitRegenerateLevelOfDetail(old(State()))
    {
      SwitchDesiredLevelOfDetail(true);
    }

    /** KisStrokesQueue::notifyUFOChangedImage */
    method NotifyUFOChangedImage()
      modifies this
      ensures State() == StrokesModel.NotifyUFOChangedImage(old(State()))
    {
      lodNNeedsSynchronization := true;
    }

    // -------------------------------------------------------------------
    // Dispatch
    // -------------------------------------------------------------------

    /** KisStrokesQueue::checkStrokeState, recursive as in the source. */
    method CheckStrokeState(hasStrokeJobsRunning: bool, runningLevelOfDetail: int) returns (result: bool)
      requires |strokes| > 0
      modifies this
      ensures (State(), result) == StrokesModel.CheckStrokeState(old(State()), hasStrokeJobsRunning, runningLevelOfDetail)
      decreases |strokes| + PendingSwitch(State())
    {
      var stroke := strokes[0];
      result := false;
      var hasLodCompatibility := runningLevelOfDetail < 0 || stroke.lod == runningLevelOfDetail;
      var hasJobs := |stroke.jobs| > 0;
      if !stroke.initialized && hasJobs && hasLodCompatibility {
        needsExclusiveAccess := stroke.strategy.exclusive;
        wrapAroundModeSupported := stroke.strategy.wrapAround;
        result := true;
      } else if hasJobs && hasLodCompatibility {
        result := true;
      } else if stroke.ended && !hasJobs && !hasStrokeJobsRunning {
        strokes := strokes[1..];
        needsExclusiveAccess := false;
        wrapAroundModeSupported := false;
        ghost var d := State();
        SwitchDesiredLevelOfDetail(false);
        assert |strokes| + PendingSwitch(State()) <= |d.strokes| + PendingSwitch(d);
        if |strokes| > 0 {
          result := CheckStrokeState(false, runningLevelOfDetail);
        }
      }
    }

    /** KisStrokesQueue::processOneJob: the job handed to the updater
        context, given the context's snapshot of running merge and stroke
        jobs and its current LOD. */
    method ProcessOneJob(numMergeJobs: nat, numStrokeJobs: nat, levelOfDetail: int, externalJobsPending: bool)
      returns (dispatched: Option<Dispatched>)
      modifies this
      ensures (State(), dispatched)
              == StrokesModel.ProcessOneJob(old(State()), numMergeJobs, numStrokeJobs, levelOfDetail, externalJobsPending)
    {
      if |strokes| == 0 {
        return None;
      }
      var ok := CheckStrokeState(numStrokeJobs != 0, levelOfDetail);
      if ok && ExclusiveAllows(strokes[0], numMergeJobs) && SequentialAllows(strokes[0], numStrokeJobs)
         && BarrierAllows(strokes[0], numMergeJobs, numStrokeJobs, externalJobsPending) {
        var head := strokes[0];
        strokes := strokes[0 := PopOneJob(head)];
        return Some(Dispatched(head.jobs[0], head.lod));
      }
      return None;
    }

    /** KisStrokesQueue::processQueue: the jobs handed out, in order, while a
        thread is spare and a job is admissible. */
    method ProcessQueue(context: UpdaterContext, externalJobsPending: bool) returns (jobs: seq<Dispatched>)
      modifies this
      ensures (State(), jobs) == StrokesModel.ProcessQueue(old(State()), context, externalJobsPending)
    {
      jobs := [];
      var ctx := context;
      assert [] + StrokesModel.ProcessQueue(State(), ctx, externalJobsPending).1
             == StrokesModel.ProcessQueue(State(), ctx, externalJobsPending).1;
      while ctx.spareThreads > 0
        invariant StrokesModel.ProcessQueue(old(State()), context, externalJobsPending)
                  == (StrokesModel.ProcessQueue(State(), ctx, externalJobsPending).0,
                      jobs + StrokesModel.ProcessQueue(State(), ctx, externalJobsPending).1)
        decreases ctx.spareThreads
      {
        ghost var before := State();
        var d := ProcessOneJob(ctx.mergeJobs, ctx.strokeJobs, ctx.levelOfDetail, externalJobsPending);
        StrokesProperties.ProcessQueueLoopStep(StrokesModel.ProcessQueue(old(State()), context, externalJobsPending),
                                               jobs, before, ctx, externalJobsPending, State(), d);
        if d.None? {
          return;
        }
        ctx := AddStrokeJob(ctx, d.value);
        jobs := jobs + [d.value];
      }
      assert jobs + [] == jobs;
    }

    /** KisStrokesQueue::sizeMetric */
    method SizeMetric() returns (m: int)
      ensures m == StrokesModel.SizeMetric(strokes)
      ensures m == 0 <==> |strokes| == 0
    {
      if |strokes| == 0 {
        return 0;
      }
      var n := |strokes[0].jobs|;
      m := (if n > 1 then n else 1) * |strokes|;
    }

    /** KisStrokesQueue::hasOpenedStrokes */
    function HasOpenedStrokes(): (b: bool)
      reads this
      ensures b <==> openedStrokesCounter != 0
    {
      openedStrokesCounter != 0
    }

    /** KisStrokesQueue::isEmpty */
    function IsEmpty(): (b: bool)
      reads this
      ensures b <==> |strokes| == 0
    {
      |strokes| == 0
    }
  }
}
