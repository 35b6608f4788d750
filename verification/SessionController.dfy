/**
 The reconciler of a session with checkpoints: the handlers that change the
 Sandbox, its Pod and the store, each proved to take one enabled step of the
 checkpoint machine and to keep its invariant, and the dispatch between them.
 The outcome of every call to the cluster is a parameter.
 */
module SessionController {
  import opened Checkpoint
  import opened CheckpointEffects
  import opened CheckpointLaws
  import opened Wrappers

  /** The node of the Pod: it reports, stopped doing so a moment ago, or is lost. */
  datatype Node = Reporting | Silent | Lost

  /** What the environment answers during one reconcile. */
  datatype Answers = Answers(
    derived: (Phase, Reason), node: Node, cordoned: bool, pauseOver: bool, idleOver: bool, periodDue: bool,
    take: Take, podWrite: PodWrite, attempt: Attempt, removal: Removal, kept: set<Ref>,
    podDeleted: bool, podCreated: bool)

  /** The steps lead from one state to the other, each of them enabled. */
  ghost predicate Reaches(p: Policy, w: World, steps: seq<Step>, v: World) {
    exists ws: seq<World> :: Run(p, ws, steps) && ws[0] == w && ws[|steps|] == v
  }

  lemma ReachesNone(p: Policy, w: World)
    ensures Reaches(p, w, [], w)
  {
    assert Run(p, [w], []);
  }

  lemma ReachesOne(p: Policy, w: World, steps: seq<Step>, v: World, s: Step)
    requires Reaches(p, w, steps, v) && Enabled(p, v, s)
    ensures Reaches(p, w, steps + [s], Apply(p, v, s))
  {
    hide Enabled, Apply;
    var ws: seq<World> :| Run(p, ws, steps) && ws[0] == w && ws[|steps|] == v;
    var vs, ts := Push(p, ws, steps, s);
    assert Run(p, vs, ts);
  }

  class Session {
    var ck: Option<Ckpt>
    var phase: Phase
    var reason: Reason
    var since: int
    var desired: Desired
    var activity: int
    var pod: Option<Pod>
    var cache: Option<Pod>
    var nextUid: Uid
    var now: int
    var gone: bool
    var store: Store
    ghost var log: Log

    ghost function State(): World
      reads this
    {
      World(ck, phase, reason, since, desired, activity, pod, cache, nextUid, now, gone, store, log)
    }

    /** A new session: no checkpoint, no Pod, an empty store. */
    constructor (desired: Desired, activity: int, now: int)
      ensures Init(State())
      ensures this.desired == desired && this.activity == activity && this.now == now
    {
      this.ck, this.phase, this.reason, this.since := None, Pending, NoReason, now;
      this.desired, this.activity, this.now := desired, activity, now;
      this.pod, this.cache, this.nextUid := None, None, 1;
      this.gone, this.store := false, map[];
      this.log := Log([], map[], [None], [], {}, {}, [], 0, 0);
    }

    /** The status patch of a checkpoint: one more view for a stale cache. */
    method PatchCheckpoint(next: Ckpt)
      modifies this`ck, this`log
      ensures State() == SetCkpt(old(State()), next)
    {
      ck := Some(next);
      log := log.(views := log.views + [Some(next)]);
    }

    /**
     Deletes a checkpoint and the chain below it, link by link; a failed delete
     is passed over. The trace is the store after each link.
     */
    method DeleteCheckpointChain(chain: Ckpt, kept: set<Ref>) returns (ghost trace: seq<Store>)
      modifies this`store
      ensures State() == old(State()).(store := DeleteChain(old(store), chain, kept))
      ensures trace == DeleteStores(old(store), Links(chain), kept)
    {
      var links := Links(chain);
      trace := [];
      var i := 0;
      while i < |links|
        invariant 0 <= i <= |links| == |DeleteStores(old(store), links, kept)|
        invariant store == DeleteLinks(old(store), links, i, kept)
        invariant State() == old(State()).(store := store)
        invariant trace == DeleteStores(old(store), links, kept)[..i]
      {
        var ref := links[i];
        if ref != NoRef && ref !in kept {
          store := store - {ref};
        }
        i := i + 1;
        trace := trace + [store];
      }
      assert links[..|links|] == links;
    }

    /** Saves the new checkpoint, full or as a diff on the last one. */
    method SaveCheckpoint(p: Policy, uidRead: bool) returns (next: Ckpt)
      requires cache.Some?
      modifies this`store
      ensures next == NewCkpt(p, old(State()), uidRead).1
      ensures State() == old(State()).(store := Saved(p, old(State()), uidRead))
    {
      var prev := ck;
      var sequence := if prev.None? then 1 else prev.value.sequence + 1;
      var uid := if uidRead then cache.value.uid else 0;
      var parent, parents := NoRef, [];
      if p.durable && p.launcher && prev.Some? && prev.value.ref != NoRef && uid != 0 &&
         prev.value.podUid == uid && |prev.value.parents| < MAX_DIFF_CHAIN {
        parent := prev.value.ref;
        parents := Links(prev.value);
      }
      store := store[Ref(sequence) := Object(parent, cache.value.uid)];
      next := Ckpt(Ref(sequence), sequence, uid, parents, false, Some(now), CopyRecovery(prev));
    }

    /**
     Takes a checkpoint: save, then destroy the superseded chain, then patch the
     status. The trace is every store on the way; if there was a checkpoint, each
     of them holds the old chain complete, or the one the status names in the end.
     */
    method TakeCheckpoint(p: Policy, take: Take) returns (ok: bool, ghost trace: seq<Store>)
      requires cache.Some? && Inv(State())
      modifies this`store, this`ck, this`log
      ensures ok == take.Taken?
      ensures State() == DoTake(p, old(State()), take) && Inv(State())
      ensures trace == TakeStores(p, old(State()), take)
      ensures HasRef(old(State())) ==>
                forall t :: t in trace ==> Complete(t, Links(old(ck).value)) || Complete(t, Links(ck.value))
    {
      hide Inv, Complete, DeleteStores, Links, NewCkpt, DeleteChain, Saved;
      ghost var before := State();
      TakeInv(p, before, take);
      TakeHolds(p, before, take);
      trace := [store];
      if take.TakeFailed? {
        if take.stored {
          var _ := SaveCheckpoint(p, take.uidRead);
          trace := [before.store, store];
        }
        return false, trace;
      }
      var prev := ck;
      var next := SaveCheckpoint(p, take.uidRead);
      trace := [before.store, store];
      if prev.Some? && prev.value.ref != NoRef && next.parents == [] {
        ghost var deletes := DeleteCheckpointChain(prev.value, take.kept);
        trace := trace + deletes;
      }
      log := log.(taken := log.taken + [next.sequence],
                  recorded := log.recorded[next.ref := Record(cache.value.uid, next.podUid)]);
      PatchCheckpoint(next);
      ok := true;
    }

    /** The Pod writes of a suspend: the mark first, so that no later pass takes the deletion for a drain. */
    method ReleasePod(podWrite: PodWrite) returns (ok: bool)
      requires cache.Some?
      modifies this`pod
      ensures ok <==> cache.value.deleting || podWrite == PodDone
      ensures State() ==
                if cache.value.deleting || podWrite == MarkFailed then old(State())
                else if podWrite == DeleteFailed then CondemnPod(old(State()))
                else DeletePod(CondemnPod(old(State())))
    {
      if !cache.value.deleting {
        if podWrite == MarkFailed {
          return false;
        }
        if pod.Some? {
          pod := Some(pod.value.(condemned := true));
        }
        if podWrite == DeleteFailed {
          return false;
        }
        DeleteLivePod();
      }
      ok := true;
    }

    method DeleteLivePod()
      modifies this`pod
      ensures State() == DeletePod(old(State()))
    {
      if pod.Some? {
        pod := Some(pod.value.(deleting := true));
      }
    }

    method PatchSuspendedStatus(p: Policy, why: Reason, taken: bool)
      modifies this`phase, this`reason, this`since, this`ck, this`log
      ensures State() == PatchSuspended(p, old(State()), why, taken)
    {
      var next := if ck.None? then EMPTY_CKPT else ck.value;
      next := next.(pending := next.ref != NoRef && (taken || p.durable));
      phase, reason, since := Suspended, why, now;
      PatchCheckpoint(next);
    }

    /** Checkpoints the session and releases its Pod. A drain goes on without a fresh checkpoint. */
    method SuspendSession(p: Policy, why: Reason, take: Take, podWrite: PodWrite) returns (ok: bool)
      requires Inv(State()) && Enabled(p, State(), Suspend(why, take, podWrite))
      modifies this
      ensures State() == Apply(p, old(State()), Suspend(why, take, podWrite)) && Inv(State())
      ensures ok <==> (take.Taken? || why == CheckpointOnDrain) && (old(cache.value.deleting) || podWrite == PodDone)
      ensures (phase, reason, since) ==
              if ok then (Suspended, why, old(now)) else (old(phase), old(reason), old(since))
      ensures ok ==> ck.Some? && (ck.value.pending <==> ck.value.ref != NoRef && (take.Taken? || p.durable))
      ensures ok && old(pod).Some? && !old(cache.value.deleting) ==>
                pod.Some? && pod.value.deleting && pod.value.condemned
    {
      hide Inv, Enabled, Apply, DoSuspend, DoTake;
      SuspendAsks(p, State(), why, take, podWrite);
      SuspendEffect(p, State(), why, take, podWrite);
      SuspendIs(p, State(), why, take, podWrite);
      StepInv(p, State(), Suspend(why, take, podWrite));
      ok := ReleaseAndPatch(p, why, take, podWrite);
    }

    method ReleaseAndPatch(p: Policy, why: Reason, take: Take, podWrite: PodWrite) returns (ok: bool)
      requires Inv(State()) && cache.Some?
      modifies this
      ensures State() == DoSuspend(p, old(State()), why, take, podWrite)
      ensures ok <==> (take.Taken? || why == CheckpointOnDrain) && (old(cache.value.deleting) || podWrite == PodDone)
    {
      hide Inv, DoTake, Complete, Links, HasRef, PatchSuspended, CondemnPod, DeletePod;
      TakeFrame(p, State(), take);
      var taken, _ := TakeCheckpoint(p, take);
      if !taken && why != CheckpointOnDrain {
        return false;
      }
      ok := ReleasePod(podWrite);
      if !ok {
        return false;
      }
      PatchSuspendedStatus(p, why, taken);
    }

    /** A periodic checkpoint; a failed one changes nothing but the store. */
    method PeriodicCheckpoint(p: Policy, take: Take)
      requires Inv(State()) && Enabled(p, State(), Checkpoint(take))
      modifies this
      ensures State() == Apply(p, old(State()), Checkpoint(take)) && Inv(State())
      ensures phase == old(phase) && pod == old(pod) && log.loads == old(log.loads)
      ensures take.TakeFailed? ==> ck == old(ck)
    {
      hide Inv, DoTake, Complete, Links, HasRef;
      TakeFrame(p, State(), take);
      var _, _ := TakeCheckpoint(p, take);
    }

    /**
     Loads the pending checkpoint of a view into the Pod, when the live Sandbox
     still has it. The attempt consumes the checkpoint, unless the delete of a
     Pod that it refused or could not fill fails.
     */
    method RestorePendingCheckpoint(p: Policy, view: Ckpt, attempt: Attempt, removal: Removal, kept: set<Ref>)
      returns (done: bool)
      requires Inv(State()) && !gone && Some(view) in log.views && view.pending
      requires CacheUp(State()) && (view.podUid == 0 || cache.value.uid != view.podUid)
      modifies this
      ensures var w, s := old(State()), Restore(view, attempt, removal, kept);
              if StillPending(w, view) then Enabled(p, w, s) && State() == Apply(p, w, s) else State() == w
      ensures Inv(State())
      ensures var due := old(ck).Some? && old(ck).value.pending && old(ck).value.ref == view.ref;
              var must := attempt == GateRefused || (p.launcher && attempt != Restored);
              && (done <==> due && !(must && removal == RemoveFailed))
              && (pod.Some? <==> old(pod).Some?)
              && (pod.Some? ==>
                    (pod.value.deleting <==> old(pod).value.deleting || (due && must && removal == Removed)))
              && log.loads ==
                 if due && attempt != KeyMissing then old(log.loads) + [Load(view.ref, old(cache.value.uid))]
                 else old(log.loads)
      ensures done ==>
                && ck.Some? && ck.value.ref == NoRef && ck.value.sequence == old(ck).value.sequence
                && ck.value.recovery.last ==
                   Some(if attempt == Restored then ResumedFromCheckpoint else RestartedFromWorkspace)
                && view.ref in log.consumed
      ensures !done ==> ck == old(ck) && store == old(store)
    {
      hide Inv, Consume, DeleteChain, DeletePod;
      if !(ck.Some? && ck.value.pending && ck.value.ref == view.ref) {
        return false;
      }
      RestoreEffect(p, State(), Restore(view, attempt, removal, kept));
      ConsumedStatus(p, State(), Restore(view, attempt, removal, kept));
      StepInv(p, State(), Restore(view, attempt, removal, kept));
      if attempt != KeyMissing {
        log := log.(loads := log.loads + [Load(view.ref, cache.value.uid)]);
      }
      if attempt == GateRefused || (attempt != Restored && p.launcher) {
        if removal == RemoveFailed {
          if attempt != KeyMissing {
            log := log.(aborted := log.aborted + [view.ref]);
          }
          return false;
        }
        if removal == Removed {
          DeleteLivePod();
        }
      }
      ConsumeCheckpoint(view, attempt, kept);
      done := true;
    }

    method ConsumeCheckpoint(view: Ckpt, attempt: Attempt, kept: set<Ref>)
      modifies this
      ensures State() == Consume(old(State()), view, attempt, kept) && !HasRef(State())
    {
      hide DeleteStores, Links, DeleteChain;
      var _ := DeleteCheckpointChain(view, kept);
      log := log.(consumed := log.consumed + {view.ref},
                  spent := if Loads(attempt) then log.spent + {view.ref} else log.spent,
                  recoveries := log.recoveries + 1);
      var recovery := if attempt == Restored then ResumedFromCheckpoint else RestartedFromWorkspace;
      PatchCheckpoint(EMPTY_CKPT.(sequence := view.sequence,
                                  recovery := RecordRecovery(view.recovery, recovery, now, view.takenAt)));
    }

    method MarkCheckpointPending()
      modifies this`ck, this`log
      ensures State() == MarkPending(old(State()))
    {
      if ck.Some? && ck.value.ref != NoRef && !ck.value.pending {
        PatchCheckpoint(ck.value.(pending := true));
      }
    }

    /** The session of a lost node: its last checkpoint, still complete, waits for the next Pod; nothing is loaded. */
    method ResumeAfterNodeLoss(p: Policy, podDeleted: bool)
      requires Inv(State()) && Enabled(p, State(), LoseNode(podDeleted))
      modifies this
      ensures State() == Apply(p, old(State()), LoseNode(podDeleted)) && Inv(State())
      ensures HasRef(State()) == HasRef(old(State())) && log.loads == old(log.loads)
      ensures HasRef(State()) ==>
                ck.value.pending && Links(ck.value) == Links(old(ck).value) && Complete(store, Links(ck.value))
      ensures pod == if podDeleted then None else old(pod)
    {
      hide Inv, Complete, MarkPending;
      StepInv(p, State(), LoseNode(podDeleted));
      MarkedPending(State());
      MarkCheckpointPending();
      if podDeleted {
        pod := None;
      }
      LiveChain(State());
    }

    /**
     The exited Pod of a session ends. Its checkpoint, if it has one, is left to be
     restored; otherwise one more recovery from the workspace is on record.
     */
    method RestartExitedSession(p: Policy, podDeleted: bool)
      requires Inv(State()) && Enabled(p, State(), RestartExited(podDeleted))
      modifies this
      ensures State() == Apply(p, old(State()), RestartExited(podDeleted)) && Inv(State())
      ensures HasRef(old(State())) ==> ck == old(ck) && Complete(store, Links(ck.value))
      ensures CopyRecovery(ck).count == CopyRecovery(old(ck)).count + if HasRef(old(State())) then 0 else 1
      ensures podDeleted ==> Ending(pod)
    {
      hide Inv, Complete;
      StepInv(p, State(), RestartExited(podDeleted));
      LiveChain(State());
      if ck.None? || ck.value.ref == NoRef {
        var next := if ck.None? then EMPTY_CKPT else ck.value;
        log := log.(recoveries := log.recoveries + 1);
        PatchCheckpoint(next.(recovery := RecordRecovery(next.recovery, RestartedFromWorkspace, now, None)));
      }
      if podDeleted {
        DeleteLivePod();
      }
    }

    /**
     Without a Pod in the cache: a session that rests is left alone until its time
     is over; any other gets at most one Pod, and never over a checkpoint that is
     not marked for the restore.
     */
    method HandleMissingPod(p: Policy, podCreated: bool)
      requires Inv(State()) && Enabled(p, State(), Missing(podCreated))
      modifies this
      ensures State() == Apply(p, old(State()), Missing(podCreated)) && Inv(State())
      ensures old(phase) == Completed || old(phase) == Failed ==> State() == old(State())
      ensures && old(phase) == Suspended
              && (|| old(desired) == DesiredSuspended
                  || (old(reason) == SuspendedPauseTimeout && old(desired) == DesiredPaused)
                  || (old(reason) == SuspendedIdle && old(activity) < old(since))) ==>
                State() == old(State()).(gone := gone) && (gone <==> since + p.ttl <= now)
      ensures && old(phase) != Completed && old(phase) != Failed
              && (old(phase) == Suspended ==>
                    && old(desired) != DesiredSuspended
                    && (old(reason) == SuspendedPauseTimeout ==> old(desired) != DesiredPaused)
                    && (old(reason) == SuspendedIdle ==> old(since) <= old(activity))) ==>
                && !gone
                && pod == (if podCreated && old(pod).None? then Some(Pod(old(nextUid), false, false, Starting))
                           else old(pod))
                && (HasRef(State()) ==> ck.value.pending && Complete(store, Links(ck.value)))
      ensures log.created == old(log.created) + (if pod == old(pod) then 0 else 1)
    {
      hide Inv, Complete, Enabled, Apply, DoMissing, Links;
      MissingEffect(p, State(), podCreated);
      MissingIs(p, State(), podCreated);
      StepInv(p, State(), Missing(podCreated));
      HoldRecycleOrMake(p, podCreated);
      LiveChain(State());
    }

    method HoldRecycleOrMake(p: Policy, podCreated: bool)
      modifies this
      ensures State() == DoMissing(p, old(State()), podCreated)
    {
      hide MarkPending;
      if phase == Completed || phase == Failed {
        return;
      }
      if phase == Suspended && !SuspendedAction(desired, reason, since, activity) {
        if now < since + p.ttl {
          return;
        }
        gone := true;
        return;
      }
      MarkedPending(State());
      MakePod(podCreated);
    }

    method MakePod(podCreated: bool)
      modifies this`ck, this`pod, this`nextUid, this`log
      ensures var w := MarkPending(old(State()));
              State() == if podCreated && old(pod).None? then CreatePod(w) else w
    {
      MarkCheckpointPending();
      if podCreated && pod.None? {
        pod := Some(Pod(nextUid, false, false, Starting));
        nextUid := nextUid + 1;
        log := log.(created := log.created + 1);
      }
    }

    method DeriveStatus(p: Policy, derived: (Phase, Reason))
      requires Enabled(p, State(), Derive(derived.0, derived.1))
      modifies this`phase, this`reason, this`since
      ensures State() == Apply(p, old(State()), Derive(derived.0, derived.1))
    {
      since := if derived.0 == phase then since else now;
      phase, reason := derived.0, derived.1;
    }

    /** The reason to suspend now, or none. */
    method SuspendReason(pauseOver: bool, idleOver: bool) returns (why: Reason)
      ensures why != NoReason ==> why != CheckpointOnDrain && SuspendOk(State(), why)
      ensures why == UserSuspended <==> desired == DesiredSuspended && (phase == Running || phase == Paused)
      ensures why == SuspendedPauseTimeout <==> desired != DesiredSuspended && phase == Paused && pauseOver
      ensures why == SuspendedIdle <==> desired != DesiredSuspended && phase == Running && idleOver
    {
      if desired == DesiredSuspended && (phase == Running || phase == Paused) {
        return UserSuspended;
      }
      if phase == Paused && pauseOver {
        return SuspendedPauseTimeout;
      }
      if phase == Running && idleOver {
        return SuspendedIdle;
      }
      return NoReason;
    }

    /**
     One reconcile on the live status and the cached Pod: every change it makes is
     a step of the machine that is enabled when it is taken.
     */
    method Reconcile(p: Policy, a: Answers) returns (ghost steps: seq<Step>)
      requires Inv(State()) && a.derived.0 != Suspended && CanTake(State(), a.take)
      modifies this
      ensures Inv(State()) && Reaches(p, old(State()), steps, State())
      ensures |steps| <= 2
      ensures Held(old(State())) ==> steps == if old(cache).None? then [Missing(a.podCreated)] else []
      ensures !old(gone) && old(cache).None? ==> steps == [Missing(a.podCreated)]
      ensures old(cache).Some? && old(phase) == Suspended &&
              (old(cache.value.deleting) || old(cache.value.condemned)) ==>
                steps == []
      ensures !old(gone) && old(cache).Some? && old(phase) != Completed && old(phase) != Failed &&
              (old(phase) == Suspended ==> !old(cache.value.deleting) && !old(cache.value.condemned)) ==>
                steps != [] && steps[0] == Derive(a.derived.0, a.derived.1)
      ensures old(phase) == Completed || old(phase) == Failed ==> forall s :: s in steps ==> !s.Derive?
    {
      hide Inv, Apply, Reaches, Run;
      ghost var w := State();
      ReachesNone(p, w);
      steps := [];
      if gone {
        return;
      }
      if cache.None? {
        HandleMissingPod(p, a.podCreated);
        ReachesOne(p, w, [], w, Missing(a.podCreated));
        steps := [] + [Missing(a.podCreated)];
        return;
      }
      if phase == Suspended && (cache.value.deleting || cache.value.condemned) {
        return;
      }
      if !(phase == Completed || phase == Failed) {
        StepInv(p, w, Derive(a.derived.0, a.derived.1));
        ReachesOne(p, w, [], w, Derive(a.derived.0, a.derived.1));
        DeriveKeeps(p, w, a.derived);
        DeriveStatus(p, a.derived);
        steps := [] + [Derive(a.derived.0, a.derived.1)];
      }
      ghost var v := State();
      ghost var step := ReconcileCheckpoint(p, a);
      if step.Some? {
        ReachesOne(p, w, steps, v, step.value);
        steps := steps + [step.value];
      }
    }

    /** The checkpoint part of a reconcile, in the order in which its conditions are tested. */
    method ReconcileCheckpoint(p: Policy, a: Answers) returns (ghost step: Option<Step>)
      requires Inv(State()) && cache.Some? && !gone && phase != Suspended && CanTake(State(), a.take)
      modifies this
      ensures Inv(State()) && Took(p, old(State()), step, State())
      ensures old(cache.value.condemned) ==> step == None
      ensures step.Some? && step.value.Restore? <==>
              && !old(cache.value.condemned)
              && old(ck).Some? && old(ck).value.pending && (old(phase) == Running || p.launcher)
              && old(cache.value.stage) == Up && !old(cache.value.deleting)
              && (old(ck).value.podUid == 0 || old(cache.value.uid) != old(ck).value.podUid)
      ensures step.Some? && step.value.Restore? ==>
                step == Some(Restore(old(ck).value, a.attempt, a.removal, a.kept))
      ensures step.Some? && step.value.Suspend? ==>
                && (old(phase) == Running || old(phase) == Paused)
                && (step.value.why == CheckpointOnDrain <==> old(cache.value.deleting) || a.cordoned)
      ensures step.Some? && step.value.Checkpoint? ==> old(phase) == Running && a.periodDue
      ensures step.Some? && step.value.RestartExited? ==>
                && old(cache.value.stage) == Ended && !old(cache.value.deleting)
                && old(phase) != Completed && old(phase) != Failed
      ensures step.Some? && step.value.LoseNode? ==> p.durable && a.node == Lost
      ensures !old(cache.value.condemned) && p.durable && a.node == Lost ==>
                step.Some? && (step.value.Restore? || step.value == LoseNode(a.podDeleted))
      ensures !old(cache.value.condemned) && !(p.durable && a.node != Reporting) &&
              (old(phase) == Running || old(phase) == Paused) &&
              (old(desired) == DesiredSuspended || old(cache.value.deleting) || a.cordoned) ==>
                step.Some? && (step.value.Restore? || step.value.Suspend?)
      ensures step.None? && !old(cache.value.condemned) && !(p.durable && a.node != Reporting) ==>
                && !(old(phase) == Running && (a.periodDue || a.idleOver)) && !(old(phase) == Paused && a.pauseOver)
                && (old(cache.value.stage) == Ended && !old(cache.value.deleting) ==>
                      old(phase) == Completed || old(phase) == Failed)
    {
      hide Inv, Apply;
      step := None;
      if cache.value.condemned {
        return;
      }
      if ck.Some? && ck.value.pending && (phase == Running || p.launcher) && cache.value.stage == Up &&
         !cache.value.deleting && (ck.value.podUid == 0 || cache.value.uid != ck.value.podUid) {
        LiveView(State());
        var view := ck.value;
        step := Some(Restore(view, a.attempt, a.removal, a.kept));
        var _ := RestorePendingCheckpoint(p, view, a.attempt, a.removal, a.kept);
        return;
      }
      if p.durable && a.node != Reporting {
        if a.node == Lost {
          ResumeAfterNodeLoss(p, a.podDeleted);
          step := Some(LoseNode(a.podDeleted));
        }
        return;
      }
      step := SuspendOrTake(p, a);
    }

    /** A drain, then the reasons to suspend, then the periodic checkpoint, then a Pod that exited. */
    method SuspendOrTake(p: Policy, a: Answers) returns (ghost step: Option<Step>)
      requires Inv(State()) && cache.Some? && !cache.value.condemned && !gone && phase != Suspended
      requires CanTake(State(), a.take)
      modifies this
      ensures Inv(State()) && Took(p, old(State()), step, State())
      ensures (old(phase) == Running || old(phase) == Paused) &&
              (old(desired) == DesiredSuspended || old(cache.value.deleting) || a.cordoned) ==>
                step.Some? && step.value.Suspend?
      ensures step.Some? ==> !step.value.Restore? && !step.value.LoseNode?
      ensures step.None? ==>
                && !(old(phase) == Running && (a.periodDue || a.idleOver)) && !(old(phase) == Paused && a.pauseOver)
                && (old(cache.value.stage) == Ended && !old(cache.value.deleting) ==>
                      old(phase) == Completed || old(phase) == Failed)
      ensures step.Some? && step.value.Suspend? ==>
                && (old(phase) == Running || old(phase) == Paused)
                && (step.value.why == CheckpointOnDrain <==> old(cache.value.deleting) || a.cordoned)
      ensures step.Some? && step.value.Checkpoint? ==> old(phase) == Running && a.periodDue
      ensures step.Some? && step.value.RestartExited? ==>
                && old(cache.value.stage) == Ended && !old(cache.value.deleting)
                && old(phase) != Completed && old(phase) != Failed
    {
      hide Inv, Apply;
      step := None;
      if (phase == Running || phase == Paused) && (cache.value.deleting || a.cordoned) {
        var _ := SuspendSession(p, CheckpointOnDrain, a.take, a.podWrite);
        step := Some(Suspend(CheckpointOnDrain, a.take, a.podWrite));
        return;
      }
      var why := SuspendReason(a.pauseOver, a.idleOver);
      if why != NoReason {
        var _ := SuspendSession(p, why, a.take, a.podWrite);
        step := Some(Suspend(why, a.take, a.podWrite));
        return;
      }
      if phase == Running && a.periodDue {
        PeriodicCheckpoint(p, a.take);
        step := Some(Checkpoint(a.take));
        return;
      }
      if cache.value.stage == Ended && !cache.value.deleting && phase != Completed && phase != Failed {
        RestartExitedSession(p, a.podDeleted);
        step := Some(RestartExited(a.podDeleted));
      }
    }
  }

  /** No change, or the one step that was taken, and it was enabled. */
  predicate Took(p: Policy, w: World, step: Option<Step>, v: World) {
    if step.None? then v == w else Enabled(p, w, step.value) && v == Apply(p, w, step.value)
  }

  lemma SuspendIs(p: Policy, w: World, why: Reason, take: Take, podWrite: PodWrite)
    requires Enabled(p, w, Suspend(why, take, podWrite))
    ensures w.cache.Some?
    ensures Apply(p, w, Suspend(why, take, podWrite)) == DoSuspend(p, w, why, take, podWrite)
  {
  }

  lemma MissingIs(p: Policy, w: World, podCreated: bool)
    requires Enabled(p, w, Missing(podCreated))
    ensures !w.gone && Apply(p, w, Missing(podCreated)) == DoMissing(p, w, podCreated)
  {
  }

  lemma LiveView(w: World)
    requires Inv(w)
    ensures w.ck in w.log.views
  {
  }

  lemma DeriveKeeps(p: Policy, w: World, derived: (Phase, Reason))
    requires Enabled(p, w, Derive(derived.0, derived.1))
    ensures var v := Apply(p, w, Derive(derived.0, derived.1));
            v.phase == derived.0 && v.cache == w.cache && v.pod == w.pod && !v.gone
  {
  }

  lemma MarkedPending(w: World)
    ensures var v := MarkPending(w);
            && HasRef(v) == HasRef(w) && v.log.loads == w.log.loads && v.log.created == w.log.created
            && v.pod == w.pod && v.cache == w.cache && v.nextUid == w.nextUid && v.phase == w.phase && v.gone == w.gone
            && (HasRef(w) ==> v.ck.value.pending && Links(v.ck.value) == Links(w.ck.value))
  {
  }

  lemma TakeHolds(p: Policy, w: World, take: Take)
    requires Inv(w) && w.cache.Some?
    ensures HasRef(w) ==>
              forall t :: t in TakeStores(p, w, take) ==>
                Complete(t, Links(w.ck.value)) || (take.Taken? && Complete(t, Links(DoTake(p, w, take).ck.value)))
  {
    hide Inv, Complete, TakeStores, Links, NewCkpt, Saved, DeleteChain;
    if HasRef(w) {
      forall t | t in TakeStores(p, w, take)
        ensures Complete(t, Links(w.ck.value)) || (take.Taken? && Complete(t, Links(DoTake(p, w, take).ck.value)))
      {
        NeverWithoutCheckpoint(p, w, take, t);
      }
    }
  }
}
