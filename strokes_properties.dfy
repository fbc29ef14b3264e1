/** What the stroke scheduling queue promises, proved about the functions of
    StrokesModel. */
module StrokesProperties {
  import opened Wrappers
  import opened StrokesModel

  // ---------------------------------------------------------------------
  // Stroke identities
  // ---------------------------------------------------------------------

  /** Every queued stroke, and every buddy it names, was allocated below
      `nextId`, and no stroke is its own buddy. */
  ghost predicate IdsBelow(q: seq<Stroke>, nextId: nat)
  {
    forall i | 0 <= i < |q| :: StrokeIdsBelow(q[i], nextId)
  }

  ghost predicate StrokeIdsBelow(st: Stroke, nextId: nat)
  {
    && st.id < nextId
    && (st.buddy.Some? ==> st.buddy.value < nextId && st.buddy.value != st.id)
  }

  ghost predicate Allocated(s: QueueState)
  {
    IdsBelow(s.strokes, s.nextId)
  }

  lemma {:induction false} IdsBelowGrow(q: seq<Stroke>, n: nat, m: nat)
    requires IdsBelow(q, n) && n <= m
    ensures IdsBelow(q, m)
  {
  }

  lemma {:induction false} CancelForgettableStrokesKeeps(q: seq<Stroke>)
    ensures |CancelForgettableStrokes(q)| == |q|
    ensures forall i | 0 <= i < |q| ::
      var r := CancelForgettableStrokes(q)[i];
      && r.id == q[i].id && r.kind == q[i].kind && r.lod == q[i].lod
      && r.buddy == q[i].buddy && r.strategy == q[i].strategy
      && (q[i].cancelled ==> r.cancelled)
  {
  }

  lemma {:induction false} InitialStateAllocated(suspendFactory: Strategy, resumeFactory: Strategy)
    ensures Allocated(InitialState(suspendFactory, resumeFactory))
    ensures !HasOpenedStrokes(InitialState(suspendFactory, resumeFactory))
    ensures InitialState(suspendFactory, resumeFactory).lodNNeedsSynchronization
  {
  }

  // ---------------------------------------------------------------------
  // Admission (startStroke)
  // ---------------------------------------------------------------------

  /** Cancelling forgettable strokes never changes the kinds in the queue, so
      it does not change whether a buddy pair can be created. */
  lemma {:induction false} CanUseLodNAfterCancelForgettable(q: seq<Stroke>)
    ensures CanUseLodN(CancelForgettableStrokes(q)) == CanUseLodN(q)
  {
    CancelForgettableStrokesKeeps(q);
    var r := CancelForgettableStrokes(q);
    if CanUseLodN(q) {
      forall i | 0 <= i < |r| ensures r[i].kind != Legacy {
        assert r[i].kind == q[i].kind;
      }
    } else {
      var i :| 0 <= i < |q| && q[i].kind == Legacy;
      assert r[i].kind == Legacy;
    }
  }

  /** With a Legacy stroke queued, no clone, or desired LOD 0, the stroke is
      admitted as Legacy at the tail, without a buddy, and the LOD cache is
      marked stale. */
  lemma {:induction false} StartStrokeAdmitsLegacy(s: QueueState, strategy: Strategy, lodClone: Option<Strategy>)
    requires !CanUseLodN(s.strokes) || lodClone.None? || s.desiredLevelOfDetail == 0
    ensures var (r, id) := StartStroke(s, strategy, lodClone);
      && id == s.nextId
      && r.strokes == CancelForgettableStrokes(s.strokes) + [NewStroke(id, Legacy, 0, strategy)]
      && r.strokes[|r.strokes| - 1].buddy.None?
      && r.lodNNeedsSynchronization
      && r.openedStrokesCounter == s.openedStrokesCounter + 1
      && r.desiredLevelOfDetail == s.desiredLevelOfDetail
  {
    CanUseLodNAfterCancelForgettable(s.strokes);
  }

  /** Otherwise a buddy pair is admitted into the queue PairPrelude(s)
      reached, at the same desired LOD and with the same factories. */
  lemma {:induction false} StartStrokeAdmitsPair(s: QueueState, strategy: Strategy, lodClone: Option<Strategy>)
    requires CanUseLodN(s.strokes) && lodClone.Some? && s.desiredLevelOfDetail != 0
    ensures StartStroke(s, strategy, lodClone) == AdmitPair(PairPrelude(s), strategy, lodClone.value)
    ensures PairPrelude(s).desiredLevelOfDetail == s.desiredLevelOfDetail
    ensures PairPrelude(s).suspendFactory == s.suspendFactory
    ensures PairPrelude(s).resumeFactory == s.resumeFactory
  {
    CanUseLodNAfterCancelForgettable(s.strokes);
  }

  /** Inserting one stroke adds a non-cancelled Resume stroke only if it is one. */
  lemma {:induction false} InsertKeepsNoLiveResume(q: seq<Stroke>, i: nat, x: Stroke)
    requires i <= |q|
    ensures ShouldWrapInSuspendUpdatesStroke(InsertAt(q, i, x))
            == (ShouldWrapInSuspendUpdatesStroke(q) && !IsLiveResume(x))
  {
    var r := InsertAt(q, i, x);
    if ShouldWrapInSuspendUpdatesStroke(q) && !IsLiveResume(x) {
      forall k | 0 <= k < |r| ensures !IsLiveResume(r[k]) {
        if k < i {
          assert r[k] == r[..i][k];
        } else if k > i {
          assert r[k] == r[i + 1..][k - i - 1];
        }
      }
    } else if !ShouldWrapInSuspendUpdatesStroke(q) {
      var k :| 0 <= k < |q| && IsLiveResume(q[k]);
      if k < i {
        assert r[k] == r[..i][k];
      } else {
        assert r[k + 1] == r[i + 1..][k - i];
      }
    }
  }

  /** The LodN buddy goes immediately before the first non-cancelled
      Lod0/Suspend/Resume stroke, or to the tail; only a head that is that
      insertion point and supports suspension is asked to suspend; a Lod0
      stroke goes in strictly after the buddy. */
  lemma {:induction false} LodNBuddyPlacement(s: QueueState, lodClone: Strategy)
    ensures var q0 := s.strokes;
      var p := FindNewLodNPos(q0);
      var q := WithLodNBuddy(s, lodClone);
      var lodN := NewStroke(s.nextId, LodN, s.desiredLevelOfDetail, lodClone);
      var suspends := p == 0 && |q0| > 0 && q0[0].strategy.supportsSuspension;
      && p <= |q0| && |q| == |q0| + 1
      && q[p] == lodN
      && (forall k | 0 <= k < p :: !IsLodNAnchor(q0[k]) && q[k] == q0[k])
      && (p < |q0| ==> IsLodNAnchor(q0[p]))
      && (suspends ==> q[1..] == [SuspendOne(q0[0], lodN.id)] + q0[1..])
      && (!suspends ==> q[p + 1..] == q0[p..])
      && p < FindNewLod0Pos(q)
      && ShouldWrapInSuspendUpdatesStroke(q) == ShouldWrapInSuspendUpdatesStroke(q0)
  {
    var q0 := s.strokes;
    var p := FindNewLodNPos(q0);
    var lodN := NewStroke(s.nextId, LodN, s.desiredLevelOfDetail, lodClone);
    var q1 := SuspendHeadFor(q0, p, lodN.id);
    var q := WithLodNBuddy(s, lodClone);
    assert forall k | 0 <= k < p :: q[k] == q0[k] by {
      forall k | 0 <= k < p ensures q[k] == q0[k] {
        assert q[k] == q[..p][k] == q1[..p][k];
      }
    }
    assert forall k | 0 <= k < p :: !IsLiveResume(q[k]);
    assert ShouldWrapInSuspendUpdatesStroke(q1) == ShouldWrapInSuspendUpdatesStroke(q0) by {
      assert forall k | 0 <= k < |q1| :: IsLiveResume(q1[k]) == IsLiveResume(q0[k]);
    }
    InsertKeepsNoLiveResume(q1, p, lodN);
  }

  /** With no non-cancelled Resume stroke queued, the new Lod0 stroke is
      bracketed at the tail by a pre-ended Suspend stroke before it and a
      pre-ended Resume stroke after it. */
  lemma {:induction false} AdmitPairBracketsLod0(s2: QueueState, strategy: Strategy, lodClone: Strategy)
    requires ShouldWrapInSuspendUpdatesStroke(s2.strokes)
    ensures var (r, id) := AdmitPair(s2, strategy, lodClone);
      var n := |r.strokes|;
      && id == s2.nextId + 1
      && n == |s2.strokes| + 4
      && r.strokes[..n - 3] == WithLodNBuddy(s2, lodClone)
      && r.strokes[n - 3] == NewStroke(s2.nextId + 2, Suspend, 0, s2.suspendFactory).(ended := true)
      && r.strokes[n - 2] == NewStroke(id, Lod0, 0, strategy).(buddy := Some(s2.nextId))
      && r.strokes[n - 1] == NewStroke(s2.nextId + 3, Resume, 0, s2.resumeFactory).(ended := true)
      && r.openedStrokesCounter == s2.openedStrokesCounter + 1
      && r.nextId == s2.nextId + 4
  {
    var q := WithLodNBuddy(s2, lodClone);
    LodNBuddyPlacement(s2, lodClone);
    assert FindNewLod0Pos(q) == |q|;
    assert q[|q|..] == [];
  }

  lemma {:induction false} StartStrokeBracketsLod0(s: QueueState, strategy: Strategy, lodClone: Option<Strategy>)
    requires CanUseLodN(s.strokes) && lodClone.Some? && s.desiredLevelOfDetail != 0
    requires ShouldWrapInSuspendUpdatesStroke(PairPrelude(s).strokes)
    ensures var s2 := PairPrelude(s);
      var (r, id) := StartStroke(s, strategy, lodClone);
      var n := |r.strokes|;
      && n == |s2.strokes| + 4
      && r.strokes[..n - 3] == WithLodNBuddy(s2, lodClone.value)
      && r.strokes[n - 3] == NewStroke(s2.nextId + 2, Suspend, 0, s.suspendFactory).(ended := true)
      && r.strokes[n - 2] == NewStroke(id, Lod0, 0, strategy).(buddy := Some(s2.nextId))
      && r.strokes[n - 1] == NewStroke(s2.nextId + 3, Resume, 0, s.resumeFactory).(ended := true)
  {
    StartStrokeAdmitsPair(s, strategy, lodClone);
    AdmitPairBracketsLod0(PairPrelude(s), strategy, lodClone.value);
  }

  /** With a non-cancelled Resume stroke queued, the new Lod0 stroke goes
      immediately before the first one, after its LodN buddy. */
  lemma {:induction false} AdmitPairInsertsLod0BeforeResume(s2: QueueState, strategy: Strategy, lodClone: Strategy)
    requires !ShouldWrapInSuspendUpdatesStroke(s2.strokes)
    ensures var q := WithLodNBuddy(s2, lodClone);
      var p := FindNewLod0Pos(q);
      var (r, id) := AdmitPair(s2, strategy, lodClone);
      && id == s2.nextId + 1
      && FindNewLodNPos(s2.strokes) < p < |q|
      && (forall k | 0 <= k < p :: !IsLiveResume(q[k]))
      && r.strokes == InsertAt(q, p, NewStroke(id, Lod0, 0, strategy).(buddy := Some(s2.nextId)))
      && IsLiveResume(r.strokes[p + 1])
      && r.openedStrokesCounter == s2.openedStrokesCounter + 1
      && r.nextId == s2.nextId + 2
  {
    var q := WithLodNBuddy(s2, lodClone);
    LodNBuddyPlacement(s2, lodClone);
    var p := FindNewLod0Pos(q);
    var r := AdmitPair(s2, strategy, lodClone).0;
    assert r.strokes[p + 1] == r.strokes[p + 1..][0] == q[p..][0];
  }

  lemma {:induction false} StartStrokeInsertsLod0BeforeResume(s: QueueState, strategy: Strategy, lodClone: Option<Strategy>)
    requires CanUseLodN(s.strokes) && lodClone.Some? && s.desiredLevelOfDetail != 0
    requires !ShouldWrapInSuspendUpdatesStroke(PairPrelude(s).strokes)
    ensures var s2 := PairPrelude(s);
      var q := WithLodNBuddy(s2, lodClone.value);
      var p := FindNewLod0Pos(q);
      var (r, id) := StartStroke(s, strategy, lodClone);
      && FindNewLodNPos(s2.strokes) < p < |q|
      && r.strokes == InsertAt(q, p, NewStroke(id, Lod0, 0, strategy).(buddy := Some(s2.nextId)))
      && IsLiveResume(r.strokes[p + 1])
  {
    StartStrokeAdmitsPair(s, strategy, lodClone);
    AdmitPairInsertsLod0BeforeResume(PairPrelude(s), strategy, lodClone.value);
  }

  /** A stroke whose id is above every id in front of it is the one its id resolves to. */
  lemma {:induction false} InsertedFreshStroke(a: seq<Stroke>, b: seq<Stroke>, x: Stroke, c: seq<Stroke>)
    requires IdsBelow(a, x.id)
    requires forall k | 0 <= k < |b| :: b[k].id != x.id
    ensures Resolves(a + b + [x] + c, x.id)
    ensures IndexOf(a + b + [x] + c, x.id) == |a| + |b|
  {
    var t := a + b + [x] + c;
    var i := |a| + |b|;
    assert t[i] == x;
    forall k | 0 <= k < i ensures t[k].id != x.id {
      if k < |a| {
        assert t[k] == a[k];
      } else {
        assert t[k] == b[k - |a|];
      }
    }
    FirstIndexUnique(t, (st: Stroke) => st.id == x.id, i);
  }

  lemma {:induction false} IdsBelowConcat(a: seq<Stroke>, b: seq<Stroke>, n: nat)
    requires IdsBelow(a, n) && IdsBelow(b, n)
    ensures IdsBelow(a + b, n)
  {
    var t := a + b;
    forall k | 0 <= k < |t| ensures StrokeIdsBelow(t[k], n) {
      if k < |a| {
        assert t[k] == a[k];
      } else {
        assert t[k] == b[k - |a|];
      }
    }
  }

  lemma {:induction false} IdsBelowSplit(q: seq<Stroke>, p: nat, n: nat)
    requires IdsBelow(q, n) && p <= |q|
    ensures IdsBelow(q[..p], n) && IdsBelow(q[p..], n)
  {
    assert forall k | 0 <= k < p :: q[..p][k] == q[k];
    assert forall k | 0 <= k < |q| - p :: q[p..][k] == q[p + k];
  }

  lemma {:induction false} SyncStrokeAllocated(s: QueueState, levelOfDetail: int, forgettable: bool)
    requires IdsBelow(s.strokes, s.nextId)
    ensures var r := StartLod0ToNStroke(s, levelOfDetail, forgettable);
      IdsBelow(r.strokes, r.nextId) && s.nextId <= r.nextId
  {
    var r := StartLod0ToNStroke(s, levelOfDetail, forgettable);
    if r != s {
      IdsBelowGrow(s.strokes, s.nextId, r.nextId);
      IdsBelowConcat(s.strokes, [r.strokes[|s.strokes|]], r.nextId);
      assert r.strokes == s.strokes + [r.strokes[|s.strokes|]];
    }
  }

  lemma {:induction false} PairPreludeAllocated(s: QueueState)
    requires Allocated(s)
    ensures Allocated(PairPrelude(s)) && s.nextId <= PairPrelude(s).nextId
  {
    CancelForgettableStrokesKeeps(s.strokes);
    var s1 := s.(strokes := CancelForgettableStrokes(s.strokes));
    assert IdsBelow(s1.strokes, s1.nextId);
    if s1.lodNNeedsSynchronization {
      SyncStrokeAllocated(s1, s1.desiredLevelOfDetail, false);
    }
  }

  lemma {:induction false} BuddyAllocated(s: QueueState, lodClone: Strategy)
    requires IdsBelow(s.strokes, s.nextId)
    ensures IdsBelow(WithLodNBuddy(s, lodClone), s.nextId + 1)
  {
    var q0 := s.strokes;
    var p := FindNewLodNPos(q0);
    var lodN := NewStroke(s.nextId, LodN, s.desiredLevelOfDetail, lodClone);
    var q1 := SuspendHeadFor(q0, p, lodN.id);
    SuspendHeadAllocated(q0, p, lodN.id, s.nextId);
    assert WithLodNBuddy(s, lodClone) == q1[..p] + [lodN] + q1[p..];
    IdsBelowGrow(q1, s.nextId, s.nextId + 1);
    IdsBelowSplit(q1, p, s.nextId + 1);
    IdsBelowConcat(q1[..p], [lodN], s.nextId + 1);
    IdsBelowConcat(q1[..p] + [lodN], q1[p..], s.nextId + 1);
  }

  lemma {:induction false} SuspendHeadAllocated(q: seq<Stroke>, pos: nat, lodN: nat, n: nat)
    requires IdsBelow(q, n)
    ensures IdsBelow(SuspendHeadFor(q, pos, lodN), n)
  {
    var r := SuspendHeadFor(q, pos, lodN);
    forall k | 0 <= k < |r| ensures StrokeIdsBelow(r[k], n) {
      assert r[k].id == q[k].id && r[k].buddy == q[k].buddy;
    }
  }

  /** The handle of the Lod0 stroke AdmitPair creates resolves to it. */
  lemma {:induction false} AdmitPairHandleResolves(s2: QueueState, strategy: Strategy, lodClone: Strategy)
    requires Allocated(s2)
    ensures var (r, id) := AdmitPair(s2, strategy, lodClone);
      && Allocated(r)
      && Resolves(r.strokes, id)
      && r.strokes[IndexOf(r.strokes, id)] == NewStroke(id, Lod0, 0, strategy).(buddy := Some(s2.nextId))
  {
    BuddyAllocated(s2, lodClone);
    PlaceLod0HandleResolves(s2.(strokes := WithLodNBuddy(s2, lodClone)), strategy);
  }

  lemma {:induction false} PlaceLod0HandleResolves(s: QueueState, strategy: Strategy)
    requires IdsBelow(s.strokes, s.nextId + 1)
    ensures var (r, id) := PlaceLod0(s, strategy);
      && Allocated(r)
      && Resolves(r.strokes, id)
      && r.strokes[IndexOf(r.strokes, id)] == NewStroke(id, Lod0, 0, strategy).(buddy := Some(s.nextId))
  {
    if ShouldWrapInSuspendUpdatesStroke(s.strokes) {
      BracketedLod0Resolves(s, strategy);
    } else {
      InsertedLod0Resolves(s, strategy);
    }
  }

  /** PlaceLod0HandleResolves when the Lod0 stroke is bracketed. */
  lemma {:induction false} BracketedLod0Resolves(s: QueueState, strategy: Strategy)
    requires IdsBelow(s.strokes, s.nextId + 1)
    requires ShouldWrapInSuspendUpdatesStroke(s.strokes)
    ensures var (r, id) := PlaceLod0(s, strategy);
      && Allocated(r)
      && Resolves(r.strokes, id)
      && r.strokes[IndexOf(r.strokes, id)] == NewStroke(id, Lod0, 0, strategy).(buddy := Some(s.nextId))
  {
    var lod0 := NewStroke(s.nextId + 1, Lod0, 0, strategy).(buddy := Some(s.nextId));
    var q := s.strokes;
    var p := FindNewLod0Pos(q);
    var suspend := NewStroke(s.nextId + 2, Suspend, 0, s.suspendFactory).(ended := true);
    var resume := NewStroke(s.nextId + 3, Resume, 0, s.resumeFactory).(ended := true);
    var t := q[..p] + [suspend, lod0, resume] + q[p..];
    BracketAllocated(q, p, s.nextId, suspend, lod0, resume);
    assert PlaceLod0(s, strategy)
      == (s.(strokes := t, nextId := s.nextId + 4, openedStrokesCounter := s.openedStrokesCounter + 1), s.nextId + 1);
  }

  /** PlaceLod0HandleResolves when the Lod0 stroke goes before a Resume stroke. */
  lemma {:induction false} InsertedLod0Resolves(s: QueueState, strategy: Strategy)
    requires IdsBelow(s.strokes, s.nextId + 1)
    requires !ShouldWrapInSuspendUpdatesStroke(s.strokes)
    ensures var (r, id) := PlaceLod0(s, strategy);
      && Allocated(r)
      && Resolves(r.strokes, id)
      && r.strokes[IndexOf(r.strokes, id)] == NewStroke(id, Lod0, 0, strategy).(buddy := Some(s.nextId))
  {
    var lod0 := NewStroke(s.nextId + 1, Lod0, 0, strategy).(buddy := Some(s.nextId));
    var q := s.strokes;
    var p := FindNewLod0Pos(q);
    var t := q[..p] + [lod0] + q[p..];
    assert InsertAt(q, p, lod0) == t;
    Lod0Allocated(q, p, s.nextId, lod0);
    assert PlaceLod0(s, strategy)
      == (s.(strokes := t, nextId := s.nextId + 2, openedStrokesCounter := s.openedStrokesCounter + 1), s.nextId + 1);
  }

  lemma {:induction false} BracketAllocated(q: seq<Stroke>, p: nat, n: nat, suspend: Stroke, lod0: Stroke, resume: Stroke)
    requires IdsBelow(q, n + 1) && p <= |q|
    requires lod0.id == n + 1 && lod0.buddy == Some(n) && suspend.id == n + 2 && resume.id == n + 3
    requires suspend.buddy.None? && resume.buddy.None?
    ensures IdsBelow(q[..p] + [suspend, lod0, resume] + q[p..], n + 4)
    ensures Resolves(q[..p] + [suspend, lod0, resume] + q[p..], n + 1)
    ensures IndexOf(q[..p] + [suspend, lod0, resume] + q[p..], n + 1) == p + 1
    ensures (q[..p] + [suspend, lod0, resume] + q[p..])[p + 1] == lod0
  {
    IdsBelowSplit(q, p, n + 1);
    IdsBelowGrow(q[..p], n + 1, n + 4);
    IdsBelowGrow(q[p..], n + 1, n + 4);
    var t := q[..p] + [suspend, lod0, resume] + q[p..];
    assert t == q[..p] + [suspend] + [lod0] + ([resume] + q[p..]);
    IdsBelowConcat([resume], q[p..], n + 4);
    IdsBelowConcat(q[..p], [suspend], n + 4);
    IdsBelowConcat(q[..p] + [suspend], [lod0], n + 4);
    IdsBelowConcat(q[..p] + [suspend] + [lod0], [resume] + q[p..], n + 4);
    InsertedFreshStroke(q[..p], [suspend], lod0, [resume] + q[p..]);
  }

  lemma {:induction false} Lod0Allocated(q: seq<Stroke>, p: nat, n: nat, lod0: Stroke)
    requires IdsBelow(q, n + 1) && p <= |q|
    requires lod0.id == n + 1 && lod0.buddy == Some(n)
    ensures IdsBelow(q[..p] + [lod0] + q[p..], n + 2)
    ensures Resolves(q[..p] + [lod0] + q[p..], n + 1)
    ensures IndexOf(q[..p] + [lod0] + q[p..], n + 1) == p
    ensures (q[..p] + [lod0] + q[p..])[p] == lod0
  {
    IdsBelowSplit(q, p, n + 1);
    IdsBelowGrow(q[..p], n + 1, n + 2);
    IdsBelowGrow(q[p..], n + 1, n + 2);
    IdsBelowConcat(q[..p], [lod0], n + 2);
    IdsBelowConcat(q[..p] + [lod0], q[p..], n + 2);
    assert q[..p] + [lod0] + q[p..] == q[..p] + [] + [lod0] + q[p..];
    InsertedFreshStroke(q[..p], [], lod0, q[p..]);
  }

  /** The handle of the Legacy stroke AdmitLegacy creates resolves to it. */
  lemma {:induction false} AdmitLegacyHandleResolves(s1: QueueState, strategy: Strategy)
    requires Allocated(s1)
    ensures var (r, id) := AdmitLegacy(s1, strategy);
      && Allocated(r)
      && Resolves(r.strokes, id)
      && r.strokes[IndexOf(r.strokes, id)] == NewStroke(id, Legacy, 0, strategy)
  {
    var (r, id) := AdmitLegacy(s1, strategy);
    var legacy := NewStroke(s1.nextId, Legacy, 0, strategy);
    IdsBelowGrow(s1.strokes, s1.nextId, r.nextId);
    IdsBelowConcat(s1.strokes, [legacy], r.nextId);
    InsertedFreshStroke(s1.strokes, [], legacy, []);
    assert r.strokes == s1.strokes + [] + [legacy] + [];
  }

  /** The handle startStroke returns resolves to the stroke it created: a
      Lod0 stroke when a pair was made, a Legacy one otherwise, open and
      without jobs; every id stays allocated. */
  lemma {:induction false} StartStrokeHandleResolves(s: QueueState, strategy: Strategy, lodClone: Option<Strategy>)
    requires Allocated(s)
    ensures var (r, id) := StartStroke(s, strategy, lodClone);
      && Allocated(r)
      && Resolves(r.strokes, id)
      && var st := r.strokes[IndexOf(r.strokes, id)];
         && !st.ended && st.strategy == strategy && st.jobs == []
         && st.kind == (if CanUseLodN(s.strokes) && lodClone.Some? && s.desiredLevelOfDetail != 0 then Lod0 else Legacy)
  {
    CanUseLodNAfterCancelForgettable(s.strokes);
    if CanUseLodN(s.strokes) && lodClone.Some? && s.desiredLevelOfDetail != 0 {
      PairPreludeAllocated(s);
      AdmitPairHandleResolves(PairPrelude(s), strategy, lodClone.value);
    } else {
      CancelForgettableStrokesKeeps(s.strokes);
      var s1 := s.(strokes := CancelForgettableStrokes(s.strokes));
      assert Allocated(s1);
      AdmitLegacyHandleResolves(s1, strategy);
    }
  }

  // ---------------------------------------------------------------------
  // Routing jobs, ending and cancelling
  // ---------------------------------------------------------------------

  /** addJob on a stroke with a buddy puts the LOD clone on the buddy and the
      original on the stroke; nothing else changes. */
  lemma {:induction false} AddJobRoutesCloneToBuddy(s: QueueState, id: nat, job: Job, clone: Job)
    requires Allocated(s) && Resolves(s.strokes, id)
    requires s.strokes[IndexOf(s.strokes, id)].buddy.Some?
    ensures var i := IndexOf(s.strokes, id);
      var b := s.strokes[i].buddy.value;
      var r := AddJob(s, id, job, Some(clone));
      && |r.strokes| == |s.strokes|
      && r.strokes[i] == AddOneJob(s.strokes[i], job)
      && (Resolves(s.strokes, b) ==>
            var j := IndexOf(s.strokes, b);
            j != i && r.strokes[j] == AddOneJob(s.strokes[j], clone)
            && (forall k | 0 <= k < |s.strokes| && k != i && k != j :: r.strokes[k] == s.strokes[k]))
      && (!Resolves(s.strokes, b) ==>
            forall k | 0 <= k < |s.strokes| && k != i :: r.strokes[k] == s.strokes[k])
      && r.(strokes := s.strokes) == s
  {
  }

  /** Without a clone for the buddy, addJob adds nothing at all. */
  lemma {:induction false} AddJobWithoutCloneAddsNothing(s: QueueState, id: nat, job: Job)
    requires Resolves(s.strokes, id)
    requires s.strokes[IndexOf(s.strokes, id)].buddy.Some?
    ensures AddJob(s, id, job, None) == s
  {
  }

  /** addJob on a stroke without a buddy appends to that stroke only. */
  lemma {:induction false} AddJobWithoutBuddy(s: QueueState, id: nat, job: Job, lodClone: Option<Job>)
    requires Resolves(s.strokes, id)
    requires s.strokes[IndexOf(s.strokes, id)].buddy.None?
    ensures var i := IndexOf(s.strokes, id);
      AddJob(s, id, job, lodClone) == s.(strokes := s.strokes[i := AddOneJob(s.strokes[i], job)])
  {
  }

  /** What UpdateById changes: the stroke the id resolves to, and only it. */
  lemma {:induction false} UpdateByIdEffect(q: seq<Stroke>, id: nat, f: Stroke -> Stroke)
    ensures var r := UpdateById(q, id, f);
      && |r| == |q|
      && (Resolves(q, id) ==> r[IndexOf(q, id)] == f(q[IndexOf(q, id)]))
      && (forall k | 0 <= k < |q| && k != IndexOf(q, id) :: UpdateById(q, id, f)[k] == q[k])
  {
  }

  /** Replacing a stroke by one with the same id and buddy keeps every id allocated. */
  lemma {:induction false} ReplaceKeepsIdsBelow(q: seq<Stroke>, i: nat, x: Stroke, n: nat)
    requires IdsBelow(q, n) && i < |q| && x.id == q[i].id && x.buddy == q[i].buddy
    ensures IdsBelow(q[i := x], n)
  {
    assert StrokeIdsBelow(q[i], n);
    var t := q[i := x];
    forall k | 0 <= k < |t| ensures StrokeIdsBelow(t[k], n) {
      if k != i {
        assert t[k] == q[k];
      }
    }
  }

  /** endStroke ends the stroke and its buddy, nothing else, and closes one
      opened stroke. */
  lemma {:induction false} EndStrokeEndsBuddy(s: QueueState, id: nat)
    requires Resolves(s.strokes, id)
    ensures var i := IndexOf(s.strokes, id);
      var st := s.strokes[i];
      var j := if st.buddy.Some? then IndexOf(s.strokes, st.buddy.value) else i;
      var r := EndStroke(s, id);
      && |r.strokes| == |s.strokes|
      && r.strokes[i] == EndOne(st)
      && (j < |s.strokes| ==> r.strokes[j] == EndOne(s.strokes[j]))
      && (forall k | 0 <= k < |s.strokes| && k != i && k != j :: r.strokes[k] == s.strokes[k])
      && r.openedStrokesCounter == s.openedStrokesCounter - 1
      && r.(strokes := s.strokes, openedStrokesCounter := s.openedStrokesCounter) == s
  {
    var i := IndexOf(s.strokes, id);
    var st := s.strokes[i];
    var q := s.strokes[i := EndOne(st)];
    if st.buddy.Some? {
      UpdateByIdSameIndex(s.strokes, i, EndOne(st), st.buddy.value);
      UpdateByIdEffect(q, st.buddy.value, EndOne);
    }
  }

  lemma {:induction false} EndStrokeKeepsAllocated(s: QueueState, id: nat)
    requires Allocated(s) && Resolves(s.strokes, id)
    ensures Allocated(EndStroke(s, id))
  {
    var i := IndexOf(s.strokes, id);
    var st := s.strokes[i];
    var q := s.strokes[i := EndOne(st)];
    ReplaceKeepsIdsBelow(s.strokes, i, EndOne(st), s.nextId);
    if st.buddy.Some? && Resolves(q, st.buddy.value) {
      var j := IndexOf(q, st.buddy.value);
      ReplaceKeepsIdsBelow(q, j, EndOne(q[j]), s.nextId);
    }
  }

  /** Replacing one stroke by another with the same id does not move any id. */
  lemma {:induction false} UpdateByIdSameIndex(q: seq<Stroke>, i: nat, x: Stroke, id: nat)
    requires i < |q| && x.id == q[i].id
    ensures IndexOf(q[i := x], id) == IndexOf(q, id)
  {
    var q' := q[i := x];
    var j := IndexOf(q, id);
    assert forall k | 0 <= k < |q| :: q'[k].id == q[k].id;
    FirstIndexUnique(q', (st: Stroke) => st.id == id, j);
  }

  /** cancelStroke cancels the stroke and its buddy, closes one opened
      stroke and reports true; a handle that no longer resolves changes
      nothing and reports false. */
  lemma {:induction false} CancelStrokeCancelsBuddy(s: QueueState, id: nat)
    ensures var (r, resolved) := CancelStroke(s, id);
      && resolved == Resolves(s.strokes, id)
      && (!resolved ==> r == s)
      && (resolved ==>
            var i := IndexOf(s.strokes, id);
            var st := s.strokes[i];
            var j := if st.buddy.Some? then IndexOf(s.strokes, st.buddy.value) else i;
            && |r.strokes| == |s.strokes|
            && r.strokes[i] == CancelOne(st)
            && (j < |s.strokes| ==> r.strokes[j] == CancelOne(s.strokes[j]))
            && (forall k | 0 <= k < |s.strokes| && k != i && k != j :: r.strokes[k] == s.strokes[k])
            && r.openedStrokesCounter == s.openedStrokesCounter - 1
            && r.(strokes := s.strokes, openedStrokesCounter := s.openedStrokesCounter) == s)
  {
    if Resolves(s.strokes, id) {
      var i := IndexOf(s.strokes, id);
      var st := s.strokes[i];
      var q := s.strokes[i := CancelOne(st)];
      if st.buddy.Some? {
        UpdateByIdSameIndex(s.strokes, i, CancelOne(st), st.buddy.value);
        UpdateByIdEffect(q, st.buddy.value, CancelOne);
      }
    }
  }

  /** Opening a stroke and then ending it leaves hasOpenedStrokes as it was. */
  lemma {:induction false} StartThenEndBalances(s: QueueState, strategy: Strategy, lodClone: Option<Strategy>)
    requires Allocated(s)
    ensures var (r, id) := StartStroke(s, strategy, lodClone);
      && Resolves(r.strokes, id)
      && EndStroke(r, id).openedStrokesCounter == s.openedStrokesCounter
      && HasOpenedStrokes(EndStroke(r, id)) == HasOpenedStrokes(s)
  {
    StartStrokeHandleResolves(s, strategy, lodClone);
    var (r, id) := StartStroke(s, strategy, lodClone);
    assert r.openedStrokesCounter == s.openedStrokesCounter + 1 by {
      CanUseLodNAfterCancelForgettable(s.strokes);
    }
  }

  /** tryCancelCurrentStrokeAsync acts exactly when the queue is non-empty and
      every stroke in it has ended; it then cancels every stroke, marks the
      LOD cache stale if any of them is a Lod0 stroke, and leaves the opened
      counter alone. */
  lemma {:induction false} TryCancelCancelsOnlyEndedQueues(s: QueueState)
    ensures var (r, done) := TryCancelCurrentStrokeAsync(s);
      && done == (|s.strokes| > 0 && forall i | 0 <= i < |s.strokes| :: s.strokes[i].ended)
      && (!done ==> r == s)
      && (done ==>
            && |r.strokes| == |s.strokes|
            && (forall i | 0 <= i < |r.strokes| ::
                  r.strokes[i].cancelled && r.strokes[i].ended && r.strokes[i].jobs == []
                  && r.strokes[i].id == s.strokes[i].id && r.strokes[i].kind == s.strokes[i].kind)
            && r.lodNNeedsSynchronization == (s.lodNNeedsSynchronization || ContainsLod0(s.strokes))
            && r.openedStrokesCounter == s.openedStrokesCounter)
  {
  }

  // ---------------------------------------------------------------------
  // Level of detail
  // ---------------------------------------------------------------------

  /** setDesiredLevelOfDetail(n) with n already requested does nothing, so
      calling it twice with the same n is the same as calling it once. */
  lemma {:induction false} SetDesiredLevelOfDetailIdempotent(s: QueueState, n: int)
    ensures n == s.nextDesiredLevelOfDetail ==> SetDesiredLevelOfDetail(s, n) == s
    ensures SetDesiredLevelOfDetail(SetDesiredLevelOfDetail(s, n), n) == SetDesiredLevelOfDetail(s, n)
  {
    var r := SetDesiredLevelOfDetail(s, n);
    if n != s.nextDesiredLevelOfDetail {
      SwitchKeepsRequest(s.(nextDesiredLevelOfDetail := n), false);
    }
  }

  lemma {:induction false} SwitchKeepsRequest(s: QueueState, forced: bool)
    ensures SwitchDesiredLevelOfDetail(s, forced).nextDesiredLevelOfDetail == s.nextDesiredLevelOfDetail
  {
  }

  /** A LOD switch is deferred while any non-Legacy stroke is queued. */
  lemma {:induction false} SwitchDeferredWhileLodStrokesQueued(s: QueueState, forced: bool)
    requires !OnlyLegacyStrokes(s.strokes)
    ensures SwitchDesiredLevelOfDetail(s, forced) == s
  {
  }

  /** An applied switch to a non-zero LOD appends one ended LodN sync stroke
      carrying the factory's jobs and clears the staleness flag; a switch to
      LOD 0 adds no stroke and leaves the cache marked stale. */
  lemma {:induction false} SwitchStartsSyncStroke(s: QueueState, forced: bool)
    requires forced || s.nextDesiredLevelOfDetail != s.desiredLevelOfDetail
    requires OnlyLegacyStrokes(s.strokes)
    ensures var r := SwitchDesiredLevelOfDetail(s, forced);
      var forgettable := forced && !s.lodNNeedsSynchronization
                         && s.desiredLevelOfDetail == s.nextDesiredLevelOfDetail;
      && r.desiredLevelOfDetail == s.nextDesiredLevelOfDetail
      && (s.nextDesiredLevelOfDetail == 0 ==>
            r.strokes == s.strokes && r.lodNNeedsSynchronization == (s.lodNNeedsSynchronization || !forgettable))
      && (s.nextDesiredLevelOfDetail != 0 && s.lod0ToNFactory.Some? ==>
            var pair := if forgettable then s.lod0ToNFactory.value.forgettable else s.lod0ToNFactory.value.regular;
            && r.strokes == s.strokes + [NewStroke(s.nextId, LodN, s.nextDesiredLevelOfDetail, pair.strategy)
                                           .(jobs := pair.jobs, ended := true)]
            && !r.lodNNeedsSynchronization)
      && (s.lod0ToNFactory.None? ==> r.strokes == s.strokes)
  {
  }

  /** Without a sync factory, no LOD operation ever queues a stroke. */
  lemma {:induction false} NoFactoryNoSyncStroke(s: QueueState, levelOfDetail: int, forgettable: bool)
    requires s.lod0ToNFactory.None?
    ensures StartLod0ToNStroke(s, levelOfDetail, forgettable) == s
  {
  }

  // ---------------------------------------------------------------------
  // Dispatch
  // ---------------------------------------------------------------------

  /** The head is removed only if it has ended, has no jobs and no stroke
      job is running. */
  predicate HeadRemovable(q: seq<Stroke>, hasStrokeJobsRunning: bool)
  {
    |q| > 0 && q[0].ended && |q[0].jobs| == 0 && !hasStrokeJobsRunning
  }

  /** Strokes removed from the front by checkStrokeState were all finished. */
  ghost predicate RemovedFinished(q: seq<Stroke>, k: nat, hasStrokeJobsRunning: bool)
  {
    && k <= |q|
    && (k > 0 ==> !hasStrokeJobsRunning)
    && (forall i | 0 <= i < k :: q[i].ended && |q[i].jobs| == 0)
  }

  /** `r` is `prefix` followed by ended LodN sync strokes only. */
  ghost predicate SyncStrokesAppended(prefix: seq<Stroke>, r: seq<Stroke>)
  {
    && |prefix| <= |r|
    && r[..|prefix|] == prefix
    && (forall i | |prefix| <= i < |r| :: r[i].kind == LodN && r[i].ended)
  }

  lemma {:induction false} SwitchAppendsSyncStrokes(s: QueueState, forced: bool)
    ensures SyncStrokesAppended(s.strokes, SwitchDesiredLevelOfDetail(s, forced).strokes)
    ensures |SwitchDesiredLevelOfDetail(s, forced).strokes| <= |s.strokes| + 1
  {
    var r := SwitchDesiredLevelOfDetail(s, forced);
    assert r.strokes == s.strokes || r.strokes[..|s.strokes|] == s.strokes;
  }

  /** One dequeue step of checkStrokeState, on sequences: the finished head
      is dropped, sync strokes are appended, and the rest of the check drops
      and appends according to `k'`. */
  lemma {:induction false} DropStep(q: seq<Stroke>, s1: seq<Stroke>, r: seq<Stroke>, k': nat, running: bool)
    requires |q| > 0 && q[0].ended && |q[0].jobs| == 0 && !running
    requires SyncStrokesAppended(q[1..], s1) && |s1| <= |q|
    requires RemovedFinished(s1, k', false) && SyncStrokesAppended(s1[k'..], r)
    ensures exists k: nat :: RemovedFinished(q, k, running) && SyncStrokesAppended(q[k..], r)
  {
    assert s1[..|q| - 1] == q[1..];
    if k' < |q| {
      var k := k' + 1;
      forall i | 0 <= i < k ensures q[i].ended && |q[i].jobs| == 0 {
        if i > 0 {
          assert q[i] == s1[i - 1];
        }
      }
      assert RemovedFinished(q, k, running);
      var mid := s1[k'..];
      assert mid == q[k..] + s1[|q| - 1..];
      assert r[..|q[k..]|] == mid[..|q[k..]|] == q[k..];
      forall i | |q[k..]| <= i < |r| ensures r[i].kind == LodN && r[i].ended {
        if i < |mid| {
          assert r[i] == mid[i] == s1[k' + i];
        }
      }
      assert SyncStrokesAppended(q[k..], r);
    } else {
      forall i | 0 <= i < |q| ensures q[i].ended && |q[i].jobs| == 0 {
        if i > 0 {
          assert q[i] == s1[i - 1];
        }
      }
      assert RemovedFinished(q, |q|, running);
      assert q[|q|..] == [];
      assert SyncStrokesAppended(q[|q|..], r);
    }
  }

  /** checkStrokeState only ever drops finished strokes from the front (the
      first one only while no stroke job runs) and only ever appends LOD
      sync strokes; no queued job is lost. */
  lemma {:induction false} CheckStrokeStateDropsOnlyFinished(s: QueueState, running: bool, lod: int)
    requires |s.strokes| > 0
    ensures exists k: nat :: RemovedFinished(s.strokes, k, running)
                             && SyncStrokesAppended(s.strokes[k..], CheckStrokeState(s, running, lod).0.strokes)
    decreases |s.strokes| + PendingSwitch(s)
  {
    var q := s.strokes;
    var head := q[0];
    var r := CheckStrokeState(s, running, lod).0;
    if !(|head.jobs| > 0 && LevelOfDetailCompatible(head, lod)) && head.ended && |head.jobs| == 0 && !running {
      var d := s.(strokes := q[1..], needsExclusiveAccess := false, wrapAroundModeSupported := false);
      var s1 := SwitchDesiredLevelOfDetail(d, false);
      SwitchAppendsSyncStrokes(d, false);
      if |s1.strokes| > 0 {
        assert r == CheckStrokeState(s1, false, lod).0;
        CheckStrokeStateDropsOnlyFinished(s1, false, lod);
        var k': nat :| RemovedFinished(s1.strokes, k', false) && SyncStrokesAppended(s1.strokes[k'..], r.strokes);
        DropStep(q, s1.strokes, r.strokes, k', running);
      } else {
        assert RemovedFinished(q, |q|, running);
        assert q[|q|..] == [];
      }
    } else {
      assert RemovedFinished(q, 0, running);
      assert q[0..] == q;
    }
  }

  /** The exclusive-access and wrap-around flags: latched from an
      uninitialised head that is about to start, reset to false once a
      finished head has been removed, and unchanged otherwise. */
  lemma {:induction false} CheckStrokeStateFlags(s: QueueState, running: bool, lod: int)
    requires |s.strokes| > 0
    ensures var (r, ok) := CheckStrokeState(s, running, lod);
      var latched := ok && !r.strokes[0].initialized;
      && (latched ==> r.needsExclusiveAccess == r.strokes[0].strategy.exclusive
                      && r.wrapAroundModeSupported == r.strokes[0].strategy.wrapAround)
      && (!latched && HeadRemovable(s.strokes, running) ==>
            !r.needsExclusiveAccess && !r.wrapAroundModeSupported)
      && (!latched && !HeadRemovable(s.strokes, running) ==> r == s)
      && (!HeadRemovable(s.strokes, running) ==> r.strokes == s.strokes)
    decreases |s.strokes| + PendingSwitch(s)
  {
    var q := s.strokes;
    var head := q[0];
    if !(|head.jobs| > 0 && LevelOfDetailCompatible(head, lod)) && head.ended && |head.jobs| == 0 && !running {
      var d := s.(strokes := q[1..], needsExclusiveAccess := false, wrapAroundModeSupported := false);
      var s1 := SwitchDesiredLevelOfDetail(d, false);
      if |s1.strokes| > 0 {
        CheckStrokeStateFlags(s1, false, lod);
      }
    }
  }

  /** processOneJob hands out exactly the head's next job, and only when the
      head's LOD is compatible with the running one, an exclusive head sees
      no merge job running, a sequential head sees no stroke job running, and
      a barrier job sees neither running nor any external work pending.
      Otherwise no job leaves the queue. */
  lemma {:induction false} ProcessOneJobPopsOnlyAdmissible(s: QueueState, numMergeJobs: nat, numStrokeJobs: nat,
                                                            lod: int, externalJobsPending: bool)
    requires |s.strokes| > 0
    ensures var (s1, _) := CheckStrokeState(s, numStrokeJobs != 0, lod);
      var (r, d) := ProcessOneJob(s, numMergeJobs, numStrokeJobs, lod, externalJobsPending);
      && (d.Some? <==>
            && |s1.strokes| > 0 && |s1.strokes[0].jobs| > 0
            && (lod < 0 || s1.strokes[0].lod == lod)
            && (s1.strokes[0].strategy.exclusive ==> numMergeJobs == 0)
            && (s1.strokes[0].prevJobSequential || NextJobSequential(s1.strokes[0]) ==> numStrokeJobs == 0)
            && (NextJobBarrier(s1.strokes[0]) ==> numMergeJobs == 0 && numStrokeJobs == 0 && !externalJobsPending))
      && (d.Some? ==>
            && d.value == Dispatched(s1.strokes[0].jobs[0], s1.strokes[0].lod)
            && |r.strokes| == |s1.strokes|
            && r.strokes[0].jobs == s1.strokes[0].jobs[1..]
            && r.strokes[0].initialized
            && r.strokes[1..] == s1.strokes[1..]
            && r.(strokes := s1.strokes) == s1)
      && (d.None? ==> r == s1)
  {
  }

  /** On an empty queue processOneJob does nothing. */
  lemma {:induction false} ProcessOneJobOnEmptyQueue(s: QueueState, numMergeJobs: nat, numStrokeJobs: nat,
                                                      lod: int, externalJobsPending: bool)
    requires |s.strokes| == 0
    ensures ProcessOneJob(s, numMergeJobs, numStrokeJobs, lod, externalJobsPending) == (s, None)
  {
  }

  /** processQueue dispatches at most one job per spare thread, and never
      mixes levels of detail: once a LOD runs, every further job has it. */
  lemma {:induction false} ProcessQueueKeepsOneLevelOfDetail(s: QueueState, ctx: UpdaterContext, externalJobsPending: bool)
    ensures var (_, ds) := ProcessQueue(s, ctx, externalJobsPending);
      && |ds| <= ctx.spareThreads
      && (ctx.levelOfDetail >= 0 ==> forall i | 0 <= i < |ds| :: ds[i].lod == ctx.levelOfDetail)
      && (forall i | 0 < i < |ds| :: ds[i - 1].lod >= 0 ==> ds[i].lod == ds[i - 1].lod)
    decreases ctx.spareThreads
  {
    if ctx.spareThreads > 0 {
      var (s1, d) := ProcessOneJob(s, ctx.mergeJobs, ctx.strokeJobs, ctx.levelOfDetail, externalJobsPending);
      if d.Some? {
        var ctx' := AddStrokeJob(ctx, d.value);
        ProcessQueueKeepsOneLevelOfDetail(s1, ctx', externalJobsPending);
        var (s2, ds') := ProcessQueue(s1, ctx', externalJobsPending);
        var ds := [d.value] + ds';
        assert ProcessQueue(s, ctx, externalJobsPending).1 == ds;
        assert ctx.levelOfDetail >= 0 ==> d.value.lod == ctx.levelOfDetail;
        assert ctx'.levelOfDetail == d.value.lod;
        forall i | 0 < i < |ds| ensures ds[i - 1].lod >= 0 ==> ds[i].lod == ds[i - 1].lod {
          if i > 1 {
            assert ds[i] == ds'[i - 1] && ds[i - 1] == ds'[i - 2];
          }
        }
      }
    }
  }

  /** One round of processQueue's loop. */
  lemma {:induction false} ProcessQueueStep(s: QueueState, ctx: UpdaterContext, externalJobsPending: bool,
                                            s1: QueueState, d: Option<Dispatched>)
    requires ctx.spareThreads > 0
    requires (s1, d) == ProcessOneJob(s, ctx.mergeJobs, ctx.strokeJobs, ctx.levelOfDetail, externalJobsPending)
    ensures d.None? ==> ProcessQueue(s, ctx, externalJobsPending) == (s1, [])
    ensures d.Some? ==>
      var rest := ProcessQueue(s1, AddStrokeJob(ctx, d.value), externalJobsPending);
      ProcessQueue(s, ctx, externalJobsPending) == (rest.0, [d.value] + rest.1)
  {
  }

  /** processQueue's loop invariant survives one round: with no job the
      run is over, with a job the job joins the handed-out ones. */
  lemma ProcessQueueLoopStep(total: (QueueState, seq<Dispatched>), jobs: seq<Dispatched>, s: QueueState,
                             ctx: UpdaterContext, externalJobsPending: bool, s1: QueueState, d: Option<Dispatched>)
    requires ctx.spareThreads > 0
    requires total == (ProcessQueue(s, ctx, externalJobsPending).0, jobs + ProcessQueue(s, ctx, externalJobsPending).1)
    requires (s1, d) == ProcessOneJob(s, ctx.mergeJobs, ctx.strokeJobs, ctx.levelOfDetail, externalJobsPending)
    ensures d.None? ==> total == (s1, jobs)
    ensures d.Some? ==>
      var ctx' := AddStrokeJob(ctx, d.value);
      total == (ProcessQueue(s1, ctx', externalJobsPending).0,
                (jobs + [d.value]) + ProcessQueue(s1, ctx', externalJobsPending).1)
  {
    ProcessQueueStep(s, ctx, externalJobsPending, s1, d);
    if d.None? {
      assert jobs + [] == jobs;
    } else {
      var rest := ProcessQueue(s1, AddStrokeJob(ctx, d.value), externalJobsPending);
      assert jobs + ([d.value] + rest.1) == (jobs + [d.value]) + rest.1;
    }
  }

  /** sizeMetric is zero exactly for the empty queue and is otherwise at
      least the number of queued strokes. */
  lemma {:induction false} SizeMetricBounds(q: seq<Stroke>)
    ensures SizeMetric(q) == 0 <==> |q| == 0
    ensures |q| > 0 ==> SizeMetric(q) >= |q| && SizeMetric(q) >= |q[0].jobs|
  {
    if |q| > 0 {
      var m := if |q[0].jobs| > 1 then |q[0].jobs| else 1;
      assert SizeMetric(q) == m * |q|;
      assert m * |q| >= 1 * |q|;
      assert m * |q| >= m * 1;
    }
  }

  // ---------------------------------------------------------------------
  // The id invariant across every operation
  // ---------------------------------------------------------------------

  /** The queued strokes are distinct objects: no id is queued twice. */
  ghost predicate DistinctIds(q: seq<Stroke>)
  {
    forall i, j | 0 <= i < j < |q| :: q[i].id != q[j].id
  }

  /** The invariant every operation of the queue keeps: every id allocated,
      and every queued stroke a different object. */
  ghost predicate Valid(s: QueueState)
  {
    Allocated(s) && DistinctIds(s.strokes)
  }

  /** `r` holds, position by position, the same strokes as `q` as far as
      identity goes: the same ids and the same buddies. */
  ghost predicate SameIdentities(q: seq<Stroke>, r: seq<Stroke>)
  {
    |r| == |q| && forall k | 0 <= k < |q| :: r[k].id == q[k].id && r[k].buddy == q[k].buddy
  }

  lemma {:induction false} SameIdentitiesKeep(q: seq<Stroke>, r: seq<Stroke>, n: nat)
    requires IdsBelow(q, n) && DistinctIds(q) && SameIdentities(q, r)
    ensures IdsBelow(r, n) && DistinctIds(r)
  {
    forall k | 0 <= k < |r| ensures StrokeIdsBelow(r[k], n) {
      assert StrokeIdsBelow(q[k], n);
    }
  }

  /** Changing one stroke's fields other than its id and buddy keeps the
      identities. */
  lemma {:induction false} ReplaceSameIdentities(q: seq<Stroke>, i: nat, x: Stroke)
    requires i < |q| && x.id == q[i].id && x.buddy == q[i].buddy
    ensures SameIdentities(q, q[i := x])
  {
  }

  /** Fresh strokes (ids at or above `n`, all different) spliced into a
      queue whose ids are below `n` keep the ids distinct. */
  lemma {:induction false} DistinctSplice(q: seq<Stroke>, p: nat, mid: seq<Stroke>, n: nat)
    requires p <= |q| && IdsBelow(q, n) && DistinctIds(q) && DistinctIds(mid)
    requires forall k | 0 <= k < |mid| :: mid[k].id >= n
    ensures DistinctIds(q[..p] + mid + q[p..])
  {
    var t := q[..p] + mid + q[p..];
    var m := |mid|;
    forall i, j | 0 <= i < j < |t| ensures t[i].id != t[j].id {
      if i < p {
        assert t[i] == q[i] && StrokeIdsBelow(q[i], n);
      } else if i < p + m {
        assert t[i] == mid[i - p];
      } else {
        assert t[i] == q[i - m] && StrokeIdsBelow(q[i - m], n);
      }
      if j < p {
        assert t[j] == q[j] && StrokeIdsBelow(q[j], n);
      } else if j < p + m {
        assert t[j] == mid[j - p];
      } else {
        assert t[j] == q[j - m] && StrokeIdsBelow(q[j - m], n);
      }
    }
  }

  /** The constructor's empty queue is valid. */
  lemma {:induction false} InitialStateValid(suspendFactory: Strategy, resumeFactory: Strategy)
    ensures Valid(InitialState(suspendFactory, resumeFactory))
  {
    InitialStateAllocated(suspendFactory, resumeFactory);
  }

  /** startLod0ToNStroke appends a stroke with a fresh id. */
  lemma {:induction false} StartLod0ToNStrokeKeepsValid(s: QueueState, levelOfDetail: int, forgettable: bool)
    requires Valid(s)
    ensures Valid(StartLod0ToNStroke(s, levelOfDetail, forgettable))
    ensures s.nextId <= StartLod0ToNStroke(s, levelOfDetail, forgettable).nextId
  {
    var r := StartLod0ToNStroke(s, levelOfDetail, forgettable);
    SyncStrokeAllocated(s, levelOfDetail, forgettable);
    if r != s {
      var q := s.strokes;
      var sync := r.strokes[|q|];
      assert r.strokes == q[..|q|] + [sync] + q[|q|..];
      DistinctSplice(q, |q|, [sync], s.nextId);
    }
  }

  lemma {:induction false} CancelForgettableStrokesKeepsValid(s: QueueState)
    requires Valid(s)
    ensures Valid(s.(strokes := CancelForgettableStrokes(s.strokes)))
  {
    CancelForgettableStrokesKeeps(s.strokes);
    SameIdentitiesKeep(s.strokes, CancelForgettableStrokes(s.strokes), s.nextId);
  }

  lemma {:induction false} PairPreludeKeepsValid(s: QueueState)
    requires Valid(s)
    ensures Valid(PairPrelude(s))
  {
    CancelForgettableStrokesKeepsValid(s);
    var s1 := s.(strokes := CancelForgettableStrokes(s.strokes));
    if s1.lodNNeedsSynchronization {
      StartLod0ToNStrokeKeepsValid(s1, s1.desiredLevelOfDetail, false);
    }
  }

  /** The LodN buddy has a fresh id, and the suspend request on the head
      changes no identity. */
  lemma {:induction false} WithLodNBuddyDistinct(s: QueueState, lodClone: Strategy)
    requires Valid(s)
    ensures DistinctIds(WithLodNBuddy(s, lodClone))
  {
    var q0 := s.strokes;
    var p := FindNewLodNPos(q0);
    var lodN := NewStroke(s.nextId, LodN, s.desiredLevelOfDetail, lodClone);
    var q1 := SuspendHeadFor(q0, p, lodN.id);
    assert SameIdentities(q0, q1);
    SameIdentitiesKeep(q0, q1, s.nextId);
    DistinctSplice(q1, p, [lodN], s.nextId);
  }

  /** The Lod0 stroke and its bracket have fresh ids. */
  lemma {:induction false} PlaceLod0Distinct(s: QueueState, strategy: Strategy)
    requires IdsBelow(s.strokes, s.nextId + 1) && DistinctIds(s.strokes)
    ensures DistinctIds(PlaceLod0(s, strategy).0.strokes)
  {
    if ShouldWrapInSuspendUpdatesStroke(s.strokes) {
      BracketedLod0Distinct(s, strategy);
    } else {
      InsertedLod0Distinct(s, strategy);
    }
  }

  lemma {:induction false} BracketedLod0Distinct(s: QueueState, strategy: Strategy)
    requires IdsBelow(s.strokes, s.nextId + 1) && DistinctIds(s.strokes)
    requires ShouldWrapInSuspendUpdatesStroke(s.strokes)
    ensures DistinctIds(PlaceLod0(s, strategy).0.strokes)
  {
    var lod0 := NewStroke(s.nextId + 1, Lod0, 0, strategy).(buddy := Some(s.nextId));
    var q := s.strokes;
    var p := FindNewLod0Pos(q);
    var suspend := NewStroke(s.nextId + 2, Suspend, 0, s.suspendFactory).(ended := true);
    var resume := NewStroke(s.nextId + 3, Resume, 0, s.resumeFactory).(ended := true);
    var mid := [suspend, lod0, resume];
    assert PlaceLod0(s, strategy).0.strokes == q[..p] + mid + q[p..];
    DistinctSplice(q, p, mid, s.nextId + 1);
  }

  lemma {:induction false} InsertedLod0Distinct(s: QueueState, strategy: Strategy)
    requires IdsBelow(s.strokes, s.nextId + 1) && DistinctIds(s.strokes)
    requires !ShouldWrapInSuspendUpdatesStroke(s.strokes)
    ensures DistinctIds(PlaceLod0(s, strategy).0.strokes)
  {
    var lod0 := NewStroke(s.nextId + 1, Lod0, 0, strategy).(buddy := Some(s.nextId));
    var q := s.strokes;
    var p := FindNewLod0Pos(q);
    assert PlaceLod0(s, strategy).0.strokes == q[..p] + [lod0] + q[p..];
    DistinctSplice(q, p, [lod0], s.nextId + 1);
  }

  /** startStroke keeps the invariant. */
  lemma {:induction false} StartStrokeKeepsValid(s: QueueState, strategy: Strategy, lodClone: Option<Strategy>)
    requires Valid(s)
    ensures Valid(StartStroke(s, strategy, lodClone).0)
  {
    StartStrokeHandleResolves(s, strategy, lodClone);
    CanUseLodNAfterCancelForgettable(s.strokes);
    if UsesLodN(s.(strokes := CancelForgettableStrokes(s.strokes)), lodClone) {
      AdmitPairDistinct(s, strategy, lodClone.value);
    } else {
      AdmitLegacyDistinct(s, strategy);
    }
  }

  /** The LodN pair keeps the queued ids distinct. */
  lemma {:induction false} AdmitPairDistinct(s: QueueState, strategy: Strategy, lodClone: Strategy)
    requires Valid(s)
    ensures DistinctIds(AdmitPair(PairPrelude(s), strategy, lodClone).0.strokes)
  {
    var s2 := PairPrelude(s);
    PairPreludeKeepsValid(s);
    BuddyAllocated(s2, lodClone);
    WithLodNBuddyDistinct(s2, lodClone);
    PlaceLod0Distinct(s2.(strokes := WithLodNBuddy(s2, lodClone)), strategy);
  }

  /** A Legacy stroke queued last keeps the queued ids distinct. */
  lemma {:induction false} AdmitLegacyDistinct(s: QueueState, strategy: Strategy)
    requires Valid(s)
    ensures DistinctIds(AdmitLegacy(s.(strokes := CancelForgettableStrokes(s.strokes)), strategy).0.strokes)
  {
    CancelForgettableStrokesKeepsValid(s);
    var s1 := s.(strokes := CancelForgettableStrokes(s.strokes));
    var legacy := NewStroke(s1.nextId, Legacy, 0, strategy);
    assert AdmitLegacy(s1, strategy).0.strokes == s1.strokes[..|s1.strokes|] + [legacy] + s1.strokes[|s1.strokes|..];
    DistinctSplice(s1.strokes, |s1.strokes|, [legacy], s1.nextId);
  }

  /** Updating the stroke an id resolves to by a change that keeps ids and
      buddies keeps the identities. */
  lemma {:induction false} UpdateByIdSameIdentities(q: seq<Stroke>, id: nat, f: Stroke -> Stroke)
    requires forall x :: f(x).id == x.id && f(x).buddy == x.buddy
    ensures SameIdentities(q, UpdateById(q, id, f))
  {
    var i := IndexOf(q, id);
    if i < |q| {
      ReplaceSameIdentities(q, i, f(q[i]));
    }
  }

  /** addJob changes jobs only. */
  lemma {:induction false} AddJobKeepsValid(s: QueueState, id: nat, job: Job, lodClone: Option<Job>)
    requires Valid(s) && Resolves(s.strokes, id)
    ensures Valid(AddJob(s, id, job, lodClone))
  {
    var i := IndexOf(s.strokes, id);
    var stroke := s.strokes[i];
    if stroke.buddy.Some? && lodClone.Some? {
      var f := (b: Stroke) => AddOneJob(b, lodClone.value);
      var q := UpdateById(s.strokes, stroke.buddy.value, f);
      UpdateByIdSameIdentities(s.strokes, stroke.buddy.value, f);
      SameIdentitiesKeep(s.strokes, q, s.nextId);
      ReplaceSameIdentities(q, i, AddOneJob(q[i], job));
      SameIdentitiesKeep(q, q[i := AddOneJob(q[i], job)], s.nextId);
    } else if stroke.buddy.None? {
      ReplaceSameIdentities(s.strokes, i, AddOneJob(stroke, job));
      SameIdentitiesKeep(s.strokes, s.strokes[i := AddOneJob(stroke, job)], s.nextId);
    }
  }

  /** endStroke changes the ended flags only. */
  lemma {:induction false} EndStrokeKeepsValid(s: QueueState, id: nat)
    requires Valid(s) && Resolves(s.strokes, id)
    ensures Valid(EndStroke(s, id))
  {
    var i := IndexOf(s.strokes, id);
    var st := s.strokes[i];
    var q := s.strokes[i := EndOne(st)];
    ReplaceSameIdentities(s.strokes, i, EndOne(st));
    SameIdentitiesKeep(s.strokes, q, s.nextId);
    if st.buddy.Some? {
      UpdateByIdSameIdentities(q, st.buddy.value, EndOne);
      SameIdentitiesKeep(q, UpdateById(q, st.buddy.value, EndOne), s.nextId);
    }
  }

  /** cancelStroke changes the cancel state and the jobs only. */
  lemma {:induction false} CancelStrokeKeepsValid(s: QueueState, id: nat)
    requires Valid(s)
    ensures Valid(CancelStroke(s, id).0)
  {
    if Resolves(s.strokes, id) {
      var i := IndexOf(s.strokes, id);
      var st := s.strokes[i];
      var q := s.strokes[i := CancelOne(st)];
      ReplaceSameIdentities(s.strokes, i, CancelOne(st));
      SameIdentitiesKeep(s.strokes, q, s.nextId);
      if st.buddy.Some? {
        UpdateByIdSameIdentities(q, st.buddy.value, CancelOne);
        SameIdentitiesKeep(q, UpdateById(q, st.buddy.value, CancelOne), s.nextId);
      }
    }
  }

  lemma {:induction false} TryCancelCurrentStrokeAsyncKeepsValid(s: QueueState)
    requires Valid(s)
    ensures Valid(TryCancelCurrentStrokeAsync(s).0)
  {
    if |s.strokes| > 0 && !HasUnfinishedStrokes(s.strokes) {
      SameIdentitiesKeep(s.strokes, CancelAll(s.strokes), s.nextId);
    }
  }

  lemma {:induction false} SwitchDesiredLevelOfDetailKeepsValid(s: QueueState, forced: bool)
    requires Valid(s)
    ensures Valid(SwitchDesiredLevelOfDetail(s, forced))
    ensures s.nextId <= SwitchDesiredLevelOfDetail(s, forced).nextId
  {
    if (forced || s.nextDesiredLevelOfDetail != s.desiredLevelOfDetail) && OnlyLegacyStrokes(s.strokes) {
      var forgettable := forced && !s.lodNNeedsSynchronization
                         && s.desiredLevelOfDetail == s.nextDesiredLevelOfDetail;
      var s1 := s.(desiredLevelOfDetail := s.nextDesiredLevelOfDetail,
                   lodNNeedsSynchronization := s.lodNNeedsSynchronization || !forgettable);
      if s1.desiredLevelOfDetail != 0 {
        StartLod0ToNStrokeKeepsValid(s1, s1.desiredLevelOfDetail, forgettable);
      }
    }
  }

  lemma {:induction false} SetDesiredLevelOfDetailKeepsValid(s: QueueState, lod: int)
    requires Valid(s)
    ensures Valid(SetDesiredLevelOfDetail(s, lod))
  {
    if lod != s.nextDesiredLevelOfDetail {
      SwitchDesiredLevelOfDetailKeepsValid(s.(nextDesiredLevelOfDetail := lod), false);
    }
  }

  lemma {:induction false} ExplicitRegenerateLevelOfDetailKeepsValid(s: QueueState)
    requires Valid(s)
    ensures Valid(ExplicitRegenerateLevelOfDetail(s))
  {
    SwitchDesiredLevelOfDetailKeepsValid(s, true);
  }

  /** Dropping the head keeps the invariant. */
  lemma {:induction false} DropHeadKeepsValid(s: QueueState)
    requires Valid(s) && |s.strokes| > 0
    ensures Valid(s.(strokes := s.strokes[1..], needsExclusiveAccess := false, wrapAroundModeSupported := false))
  {
    var q := s.strokes;
    forall k | 0 <= k < |q| - 1 ensures StrokeIdsBelow(q[1..][k], s.nextId) {
      assert q[1..][k] == q[k + 1];
    }
    forall i, j | 0 <= i < j < |q| - 1 ensures q[1..][i].id != q[1..][j].id {
      assert q[1..][i] == q[i + 1] && q[1..][j] == q[j + 1];
    }
  }

  /** checkStrokeState drops finished heads and appends sync strokes with
      fresh ids. */
  lemma {:induction false} CheckStrokeStateKeepsValid(s: QueueState, running: bool, lod: int)
    requires Valid(s) && |s.strokes| > 0
    ensures Valid(CheckStrokeState(s, running, lod).0)
    decreases |s.strokes| + PendingSwitch(s)
  {
    var q := s.strokes;
    var head := q[0];
    if !(|head.jobs| > 0 && LevelOfDetailCompatible(head, lod)) && head.ended && |head.jobs| == 0 && !running {
      var d := s.(strokes := q[1..], needsExclusiveAccess := false, wrapAroundModeSupported := false);
      DropHeadKeepsValid(s);
      var s1 := SwitchDesiredLevelOfDetail(d, false);
      SwitchDesiredLevelOfDetailKeepsValid(d, false);
      if |s1.strokes| > 0 {
        CheckStrokeStateKeepsValid(s1, false, lod);
      }
    }
  }

  lemma {:induction false} ProcessOneJobKeepsValid(s: QueueState, numMergeJobs: nat, numStrokeJobs: nat,
                                                   lod: int, externalJobsPending: bool)
    requires Valid(s)
    ensures Valid(ProcessOneJob(s, numMergeJobs, numStrokeJobs, lod, externalJobsPending).0)
  {
    if |s.strokes| > 0 {
      var (s1, ok) := CheckStrokeState(s, numStrokeJobs != 0, lod);
      CheckStrokeStateKeepsValid(s, numStrokeJobs != 0, lod);
      var r := ProcessOneJob(s, numMergeJobs, numStrokeJobs, lod, externalJobsPending).0;
      if r != s1 {
        ReplaceSameIdentities(s1.strokes, 0, PopOneJob(s1.strokes[0]));
        SameIdentitiesKeep(s1.strokes, r.strokes, s1.nextId);
      }
    }
  }

  lemma {:induction false} ProcessQueueKeepsValid(s: QueueState, ctx: UpdaterContext, externalJobsPending: bool)
    requires Valid(s)
    ensures Valid(ProcessQueue(s, ctx, externalJobsPending).0)
    decreases ctx.spareThreads
  {
    if ctx.spareThreads > 0 {
      var (s1, d) := ProcessOneJob(s, ctx.mergeJobs, ctx.strokeJobs, ctx.levelOfDetail, externalJobsPending);
      ProcessOneJobKeepsValid(s, ctx.mergeJobs, ctx.strokeJobs, ctx.levelOfDetail, externalJobsPending);
      if d.Some? {
        ProcessQueueKeepsValid(s1, AddStrokeJob(ctx, d.value), externalJobsPending);
      }
    }
  }

  /** With the invariant, a handle resolves to the only stroke with its id. */
  lemma {:induction false} ValidHandleUnique(s: QueueState, id: nat, k: nat)
    requires Valid(s) && k < |s.strokes| && s.strokes[k].id == id
    ensures IndexOf(s.strokes, id) == k
  {
    forall j | 0 <= j < k ensures s.strokes[j].id != id {
    }
    FirstIndexUnique(s.strokes, (st: Stroke) => st.id == id, k);
  }
}
