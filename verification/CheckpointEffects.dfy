/**
 What each step of the session checkpoint protocol does, in terms of the status,
 the Pods and the outcomes of its calls alone.
 */
module CheckpointEffects {
  import opened Checkpoint
  import opened CheckpointLaws
  import opened Wrappers

  // ---------------------------------------------------------------------------
  // Checkpoints
  // ---------------------------------------------------------------------------

  /**
   The status of a new checkpoint: the next number, this Pod if it could be read,
   now. It is a diff on the last one exactly when a durable launcher session
   checkpoints the Pod that wrote the last one, and that had fewer than 8 parents.
   */
  lemma TakeStatus(p: Policy, w: World, uidRead: bool, kept: set<Ref>)
    requires Inv(w) && w.cache.Some?
    ensures var ck := DoTake(p, w, Taken(uidRead, kept)).ck;
            && ck.Some? && ck.value.sequence == (if w.ck.None? then 1 else w.ck.value.sequence + 1)
            && ck.value.ref == Ref(ck.value.sequence)
            && ck.value.podUid == (if uidRead then w.cache.value.uid else 0)
            && !ck.value.pending && ck.value.takenAt == Some(w.now)
            && ck.value.recovery == (if w.ck.None? then Recovery(None, None, None, 0) else w.ck.value.recovery)
            && ck.value.parents ==
               (if && p.durable && p.launcher && uidRead && w.ck.Some? && w.ck.value.ref != NoRef
                   && w.ck.value.podUid == w.cache.value.uid && |w.ck.value.parents| < 8
                then w.ck.value.parents + [w.ck.value.ref] else [])
  {
    hide DeleteChain, ChainOk, SequenceOk, ViewsOk, LoadsOk, RecoveriesOk;
  }

  /** The store of a new checkpoint: its object, and of a superseded chain only what could not be deleted. */
  lemma TakeStore(p: Policy, w: World, uidRead: bool, kept: set<Ref>, r: Ref)
    requires Inv(w) && w.cache.Some?
    ensures var w' := DoTake(p, w, Taken(uidRead, kept));
            var ck := w'.ck.value;
            if r == ck.ref then
              && r in w'.store
              && w'.store[r] == Object(if ck.parents == [] then NoRef else w.ck.value.ref, w.cache.value.uid)
            else
              && (r in w'.store ==> r in w.store && w'.store[r] == w.store[r])
              && (r in w.store ==>
                    (r in w'.store <==>
                       || ck.parents != [] || w.ck.None? || w.ck.value.ref == NoRef
                       || (r !in w.ck.value.parents && r != w.ck.value.ref) || r in kept))
  {
    hide ChainOk, ViewsOk, LoadsOk, PodsOk, RecoveriesOk, GoodChain, Complete;
    ChainPast(w);
  }

  /** A failed checkpoint leaves the status alone; at most its object is in the store. */
  lemma TakeFailedEffect(p: Policy, w: World, stored: bool, uidRead: bool)
    requires w.cache.Some?
    ensures var w' := DoTake(p, w, TakeFailed(stored, uidRead));
            && w' == w.(store := w'.store)
            && (!stored ==> w'.store == w.store)
            && (stored ==>
                  var r := Ref(if w.ck.None? then 1 else w.ck.value.sequence + 1);
                  && w'.store.Keys == w.store.Keys + {r} && w'.store[r].writer == w.cache.value.uid
                  && forall q :: q in w.store && q != r ==> w'.store[q] == w.store[q])
  {
  }

  /** The links of the current chain are not past its number. */
  lemma ChainPast(w: World)
    requires Inv(w)
    ensures HasRef(w) ==> forall l :: l in Links(w.ck.value) ==> l.Ref? && l.sequence <= Sequence(w)
  {
    hide SequenceOk, ViewsOk, LoadsOk, PodsOk, RecoveriesOk;
    if HasRef(w) {
      var links := Links(w.ck.value);
      assert links[|links| - 1] == w.ck.value.ref;
      assert GoodChain(w.store, w.ck.value);
      forall l | l in links ensures l.Ref? && l.sequence <= Sequence(w) {
        var i :| 0 <= i < |links| && links[i] == l;
        assert links[i].Ref?;
      }
    }
  }

  // ---------------------------------------------------------------------------
  // Suspends
  // ---------------------------------------------------------------------------

  /**
   A suspend reaches its status patch exactly when it has a fresh checkpoint or is
   a drain, and its Pod was deleted. The mark comes before the delete.
   */
  lemma SuspendEffect(p: Policy, w: World, why: Reason, take: Take, podWrite: PodWrite)
    requires w.cache.Some?
    ensures var w' := DoSuspend(p, w, why, take, podWrite);
            var goesOn := take.Taken? || why == CheckpointOnDrain;
            var patched := goesOn && (w.cache.value.deleting || podWrite == PodDone);
            && (w'.phase, w'.reason, w'.since) ==
               (if patched then (Suspended, why, w.now) else (w.phase, w.reason, w.since))
            && (patched ==>
                  var ck := DoTake(p, w, take).ck;
                  if ck.Some? then
                    w'.ck == Some(ck.value.(pending := ck.value.ref != NoRef && (take.Taken? || p.durable)))
                  else w'.ck == Some(Ckpt(NoRef, 0, 0, [], false, None, Recovery(None, None, None, 0))))
            && (!patched ==> w'.ck == DoTake(p, w, take).ck)
            && w'.store == DoTake(p, w, take).store
            && (w.pod.None? ==> w'.pod.None?)
            && (w.pod.Some? ==>
                  var writes := goesOn && !w.cache.value.deleting;
                  w'.pod == Some(Pod(w.pod.value.uid,
                                     w.pod.value.condemned || (writes && podWrite != MarkFailed),
                                     w.pod.value.deleting || (writes && podWrite == PodDone),
                                     w.pod.value.stage)))
  {
    hide DoTake;
    TakeFrame(p, w, take);
  }

  /** What a suspend asks for: a Pod in the cache without the mark, and the request and phase of its reason. */
  lemma SuspendAsks(p: Policy, w: World, why: Reason, take: Take, podWrite: PodWrite)
    ensures Enabled(p, w, Suspend(why, take, podWrite)) <==>
            && !w.gone && w.cache.Some? && !w.cache.value.condemned && (take.Taken? ==> w.pod.Some?)
            && match why
               case NoReason => false
               case UserSuspended => w.desired == DesiredSuspended && (w.phase == Running || w.phase == Paused)
               case SuspendedIdle => w.phase == Running
               case SuspendedPauseTimeout => w.phase == Paused
               case CheckpointOnDrain => w.phase == Running || w.phase == Paused
  {
  }

  /** What the other steps of the reconciler ask for. */
  lemma StepAsks(p: Policy, w: World, s: Step)
    ensures s.Checkpoint? ==>
              (Enabled(p, w, s) <==>
                 && !w.gone && w.cache.Some? && !w.cache.value.condemned && w.phase == Running
                 && (s.take.Taken? ==> w.pod.Some?))
    ensures s.LoseNode? ==>
              (Enabled(p, w, s) <==>
                 && !w.gone && w.cache.Some? && !w.cache.value.condemned && p.durable
                 && (w.phase == Suspended ==> !w.cache.value.deleting))
    ensures s.RestartExited? ==>
              (Enabled(p, w, s) <==>
                 && !w.gone && w.cache.Some? && !w.cache.value.condemned && !w.cache.value.deleting
                 && w.cache.value.stage == Ended && w.phase != Completed && w.phase != Failed)
    ensures s.Derive? ==>
              (Enabled(p, w, s) <==>
                 && !w.gone && w.cache.Some? && s.phase != Suspended && w.phase != Completed && w.phase != Failed
                 && (w.phase == Suspended ==> !w.cache.value.deleting && !w.cache.value.condemned))
    ensures s.Missing? ==> (Enabled(p, w, s) <==> !w.gone && w.cache.None?)
  {
  }

  /** What the Pod and its cache do on their own: they touch nothing else. */
  lemma PodOwnSteps(p: Policy, w: World, s: Step)
    requires Enabled(p, w, s) && (s.Boot? || s.End? || s.Evict? || s.Vanish? || s.Sync?)
    ensures var w' := Apply(p, w, s);
            && w' == w.(pod := w'.pod, cache := w'.cache)
            && (s.Sync? ==> w'.pod == w.pod && w'.cache == w.pod)
            && (!s.Sync? ==> w.pod.Some? && w'.cache == w.cache)
            && (s.Vanish? ==> w'.pod == None)
            && (s.Boot? ==> w.pod.value.stage == Starting && w'.pod == Some(w.pod.value.(stage := Up)))
            && (s.End? ==> w'.pod == Some(w.pod.value.(stage := Ended)))
            && (s.Evict? ==> w'.pod == Some(w.pod.value.(deleting := true)))
  {
  }

  // ---------------------------------------------------------------------------
  // Restores
  // ---------------------------------------------------------------------------

  /**
   A restore deletes the live Pod exactly when it has to and can, and consumes the
   checkpoint exactly unless it has to delete the Pod and the delete fails. It
   calls for a load exactly when it has the key.
   */
  lemma RestoreEffect(p: Policy, w: World, s: Step)
    requires Inv(w) && s.Restore? && Enabled(p, w, s)
    ensures w.cache.Some? && w.ck.Some?
    ensures var w' := Apply(p, w, s);
            var must := s.attempt == GateRefused || (p.launcher && s.attempt != Restored);
            && (w.pod.None? ==> w'.pod.None?)
            && (w.pod.Some? ==>
                  w'.pod == Some(w.pod.value.(deleting := w.pod.value.deleting || (must && s.removal == Removed))))
            && (s.view.ref in w'.log.consumed <==> !(must && s.removal == RemoveFailed))
            && w'.log.loads ==
               (if s.attempt == KeyMissing then w.log.loads else w.log.loads + [Load(s.view.ref, w.cache.value.uid)])
            && (w'.phase, w'.desired, w'.cache, w'.log.created) == (w.phase, w.desired, w.cache, w.log.created)
  {
    hide DeleteChain, RecordRecovery, GoodChain, SequenceOk, PodsOk, RecoveriesOk;
  }

  /** What is left of a consumed checkpoint: its number, and the record of what became of the session. */
  lemma ConsumedStatus(p: Policy, w: World, s: Step)
    requires Inv(w) && s.Restore? && Enabled(p, w, s)
    ensures w.ck.Some? && Apply(p, w, s).ck.Some?
    ensures var ck, old_ := Apply(p, w, s).ck.value, w.ck.value;
            if s.view.ref in Apply(p, w, s).log.consumed then
              && ck.ref == NoRef && ck.parents == [] && !ck.pending && ck.sequence == old_.sequence
              && var count := old_.recovery.count + 1;
                 ck.recovery == if s.attempt == Restored
                                then Recovery(Some(ResumedFromCheckpoint), Some(w.now), old_.takenAt, count)
                                else Recovery(Some(RestartedFromWorkspace), Some(w.now), None, count)
            else ck == old_
  {
    hide DeleteChain, ChainOk, SequenceOk, PodsOk, RecoveriesOk;
    RestoreView(p, w, s);
  }

  /** The objects of a consumed checkpoint are gone, but for what could not be deleted; no other object goes. */
  lemma ConsumedStore(p: Policy, w: World, s: Step, r: Ref)
    requires Inv(w) && s.Restore? && Enabled(p, w, s)
    ensures w.ck.Some?
    ensures var w' := Apply(p, w, s);
            && (r in w'.store ==> r in w.store && w'.store[r] == w.store[r])
            && (r in w.store ==>
                  (r in w'.store <==>
                     || s.view.ref !in w'.log.consumed
                     || (r !in w.ck.value.parents && r != w.ck.value.ref) || r in s.kept))
  {
    hide *;
    RestoreAsks(p, w, s);
    RestoreView(p, w, s);
    RestoreStore(p, w, s);
    NoRefStored(w);
    DeletedLinks(w.store, s.view, s.kept, r);
  }

  lemma NoRefStored(w: World)
    requires Inv(w)
    ensures NoRef !in w.store
  {
  }

  lemma DeletedLinks(store: Store, ck: Ckpt, kept: set<Ref>, r: Ref)
    requires NoRef !in store
    ensures var after := DeleteChain(store, ck, kept);
            && (r in after ==> r in store && after[r] == store[r])
            && (r in store ==> (r in after <==> (r !in ck.parents && r != ck.ref) || r in kept))
  {
  }

  lemma RestoreStore(p: Policy, w: World, s: Step)
    requires Inv(w) && s.Restore? && Enabled(p, w, s)
    ensures var w' := Apply(p, w, s);
            w'.store == if s.view.ref in w'.log.consumed then DeleteChain(w.store, s.view, s.kept) else w.store
  {
    hide DeleteChain, RecordRecovery, GoodChain, SequenceOk, ViewsOk, PodsOk, RecoveriesOk;
  }

  /** A restore starts from a running Pod in the cache that does not end, and a live status that has it pending. */
  lemma RestoreAsks(p: Policy, w: World, s: Step)
    requires s.Restore?
    ensures Enabled(p, w, s) <==>
            && !w.gone && Some(s.view) in w.log.views && s.view.pending
            && w.ck.Some? && w.ck.value.pending && w.ck.value.ref == s.view.ref
            && w.cache.Some? && w.cache.value.stage == Up && !w.cache.value.deleting && !w.cache.value.condemned
            && (s.view.podUid == 0 || w.cache.value.uid != s.view.podUid)
  {
  }

  // ---------------------------------------------------------------------------
  // Lost nodes, exited Pods and derived phases
  // ---------------------------------------------------------------------------

  /** The last checkpoint of a session on a lost node is marked for the next Pod; this one is gone if it could be. */
  lemma LoseNodeEffect(p: Policy, w: World, podDeleted: bool)
    requires Enabled(p, w, LoseNode(podDeleted))
    ensures var w' := Apply(p, w, LoseNode(podDeleted));
            && w' == w.(ck := w'.ck, pod := w'.pod, log := w'.log)
            && w'.pod == (if podDeleted then None else w.pod)
            && w'.ck == (if w.ck.Some? && w.ck.value.ref != NoRef then Some(w.ck.value.(pending := true)) else w.ck)
            && w'.log == w.log.(views := w'.log.views)
  {
  }

  /** An exited Pod is deleted if it could be. A checkpoint is kept; without one it is a restart from the workspace. */
  lemma RestartEffect(p: Policy, w: World, podDeleted: bool)
    requires Enabled(p, w, RestartExited(podDeleted))
    ensures var w' := Apply(p, w, RestartExited(podDeleted));
            && w' == w.(ck := w'.ck, pod := w'.pod, log := w'.log)
            && w'.pod == (if podDeleted && w.pod.Some? then Some(w.pod.value.(deleting := true)) else w.pod)
            && (if w.ck.Some? && w.ck.value.ref != NoRef then w'.ck == w.ck
                else
                  && w'.ck.Some? && w'.ck.value.ref == NoRef
                  && w'.ck.value.recovery == Recovery(Some(RestartedFromWorkspace), Some(w.now), None,
                                                      (if w.ck.None? then 0 else w.ck.value.recovery.count) + 1)
                  && w'.ck.value.sequence == (if w.ck.None? then 0 else w.ck.value.sequence))
  {
  }

  /** A derived status keeps its time exactly while the phase stays, and touches neither checkpoint nor Pod. */
  lemma DeriveEffect(p: Policy, w: World, phase: Phase, reason: Reason)
    requires Enabled(p, w, Derive(phase, reason))
    ensures Apply(p, w, Derive(phase, reason)) ==
            w.(phase := phase, reason := reason, since := if phase == w.phase then w.since else w.now)
  {
  }

  // ---------------------------------------------------------------------------
  // Sessions without a Pod
  // ---------------------------------------------------------------------------

  /** Why a suspended session sleeps on, in terms of its request, its reason and its clocks. */
  predicate Sleeps(desired: Desired, reason: Reason, since: int, activity: int) {
    || desired == DesiredSuspended
    || (reason == SuspendedPauseTimeout && desired == DesiredPaused)
    || (reason == SuspendedIdle && activity < since)
  }

  lemma SleepsIff(w: World)
    ensures Sleeps(w.desired, w.reason, w.since, w.activity) <==> !Resumes(w)
  {
  }

  /**
   A missing Pod: a session that is over stays so; a suspended one that sleeps on
   gets no Pod, and goes exactly when its time is over; in every other case the
   Pod is made when the create succeeds, and a checkpoint is marked for it.
   */
  lemma MissingEffect(p: Policy, w: World, podCreated: bool)
    requires Enabled(p, w, Missing(podCreated))
    ensures var w' := Apply(p, w, Missing(podCreated));
            if w.phase == Completed || w.phase == Failed then w' == w
            else if w.phase == Suspended &&
                    (|| w.desired == DesiredSuspended
                     || (w.reason == SuspendedPauseTimeout && w.desired == DesiredPaused)
                     || (w.reason == SuspendedIdle && w.activity < w.since))
            then w' == w.(gone := w.gone || w.since + p.ttl <= w.now)
            else
              && w'.gone == w.gone && w'.store == w.store && w'.phase == w.phase
              && w'.pod == (if podCreated && w.pod.None? then Some(Pod(w.nextUid, false, false, Starting)) else w.pod)
              && w'.log.created == w.log.created + (if podCreated && w.pod.None? then 1 else 0)
              && (if w.ck.Some? && w.ck.value.ref != NoRef then w'.ck == Some(w.ck.value.(pending := true))
                  else w'.ck == w.ck)
  {
  }

  /** Over any stretch in which it sleeps on, a suspended session that the cache shows ended gets no Pod. */
  lemma {:induction false} SleepsRun(p: Policy, ws: seq<World>, ss: seq<Step>, i: nat, j: nat)
    requires Run(p, ws, ss) && i <= j < |ws|
    requires !ws[i].gone && ws[i].phase == Suspended
    requires ws[i].pod.Some? ==> ws[i].pod.value.deleting || ws[i].pod.value.condemned
    requires ws[i].cache.Some? ==> ws[i].cache.value.deleting || ws[i].cache.value.condemned
    requires forall k :: i <= k <= j ==> Sleeps(ws[k].desired, ws[i].reason, ws[i].since, ws[k].activity)
    ensures ws[j].log.created == ws[i].log.created && ws[j].phase == Suspended
    ensures ws[j].reason == ws[i].reason && ws[j].since == ws[i].since
    ensures ws[j].gone ==> ws[i].since + p.ttl <= ws[j].now
    ensures !ws[j].gone ==> Held(ws[j])
    decreases j
  {
    hide *;
    SleepsHeld(ws[i]);
    if i < j {
      RunLength(p, ws, ss);
      SleepsRun(p, ws, ss, i, j - 1);
      RunStep(p, ws, ss, j - 1);
      SleepsStep(p, ws[j - 1], ss[j - 1]);
      SleepsIff(ws[j]);
    }
  }

  lemma SleepsHeld(w: World)
    requires !w.gone && w.phase == Suspended && Sleeps(w.desired, w.reason, w.since, w.activity)
    requires w.pod.Some? ==> w.pod.value.deleting || w.pod.value.condemned
    requires w.cache.Some? ==> w.cache.value.deleting || w.cache.value.condemned
    ensures Held(w)
  {
  }

  lemma SleepsStep(p: Policy, w: World, s: Step)
    requires Enabled(p, w, s) && (w.gone || Held(w))
    ensures !w.gone
    ensures var w' := Apply(p, w, s);
            && w'.log.created == w.log.created && w'.phase == Suspended && w'.reason == w.reason && w'.since == w.since
            && w.now <= w'.now
            && (w'.gone ==> w.since + p.ttl <= w'.now)
            && (!w'.gone && !Resumes(w') ==> Held(w'))
  {
    hide DoTake, DoSuspend, DoRestore, DoRestartExited, DoLoseNode;
    HeldStep(p, w, s);
    RestingStep(p, w, s);
  }

  /** It wakes as soon as it does not: without a Pod the next reconcile makes one. */
  lemma WakesStep(p: Policy, w: World)
    requires !w.gone && w.phase == Suspended && w.pod.None? && w.cache.None?
    requires !Sleeps(w.desired, w.reason, w.since, w.activity)
    ensures Enabled(p, w, Missing(true))
    ensures var w' := Apply(p, w, Missing(true));
            && w'.pod == Some(Pod(w.nextUid, false, false, Starting)) && w'.log.created == w.log.created + 1
            && (HasRef(w) ==> HasRef(w') && w'.ck.value.pending && Links(w'.ck.value) == Links(w.ck.value))
  {
    MissingEffect(p, w, true);
  }
}
